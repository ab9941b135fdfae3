/**
 The standalone event store (src/store.rs): the same replaceable-slot rule without threads, door or
 drain. What it holds is a function of the set of events ever offered to it.
 */
module StandaloneStore {
  import opened Options
  import opened Ids
  import opened Events
  import T = Tables

  datatype Content = Content(events: map<EventId, Event>, addrs: map<Slot, T.SlotRow>)

  const EMPTY := Content(map[], map[])

  /** One offered event, given the kind of result it has. */
  function Put(s: Content, ev: Event): (Content, Option<T.StoreOutcome>) {
    if !InRange(ev) then (s, None)
    else if ev.id in s.events then (s, Some(T.Duplicate))
    else if !IsReplaceable(ev.kind) then (s.(events := s.events[ev.id := ev]), Some(T.Inserted))
    else
      var slot := SlotOf(ev);
      var row := T.SlotRow(ev.id, ev.createdAt);
      if slot !in s.addrs then
        (Content(s.events[ev.id := ev], s.addrs[slot := row]), Some(T.Inserted))
      else
        var prev := s.addrs[slot];
        if prev.createdAt > ev.createdAt || (prev.createdAt == ev.createdAt && prev.eventId < ev.id) then
          (s, Some(T.StaleRejected))
        else
          (Content((s.events - {prev.eventId})[ev.id := ev], s.addrs[slot := row]), Some(T.Replaced))
  }

  class SqliteStore {
    var events: map<EventId, Event>
    var addrs: map<Slot, T.SlotRow>

    ghost function State(): Content
      reads this
    {
      Content(events, addrs)
    }

    constructor ()
      ensures State() == EMPTY
    {
      events, addrs := map[], map[];
    }

    /** `insert`: one transaction; a timestamp that does not fit is an error and writes nothing. */
    method Insert(ev: Event) returns (r: Option<T.StoreOutcome>)
      modifies this
      ensures (State(), r) == Put(old(State()), ev)
    {
      if !InRange(ev) { return None; }
      if ev.id in events { return Some(T.Duplicate); }
      if IsReplaceable(ev.kind) {
        var slot := SlotOf(ev);
        if slot in addrs {
          var prev := addrs[slot];
          if prev.createdAt > ev.createdAt || (prev.createdAt == ev.createdAt && prev.eventId < ev.id) {
            return Some(T.StaleRejected);
          }
          events := events - {prev.eventId};
          events := events[ev.id := ev];
          addrs := addrs[slot := T.SlotRow(ev.id, ev.createdAt)];
          return Some(T.Replaced);
        }
        events := events[ev.id := ev];
        addrs := addrs[slot := T.SlotRow(ev.id, ev.createdAt)];
        return Some(T.Inserted);
      }
      events := events[ev.id := ev];
      return Some(T.Inserted);
    }
  }

  /** The content after a run of offers, oldest first. */
  function PutAll(s: Content, evs: seq<Event>): Content {
    if evs == [] then s else Put(PutAll(s, evs[..|evs| - 1]), evs[|evs| - 1]).0
  }

  // ---- what the store holds ------------------------------------------------

  predicate Contends(u: Universe, offered: set<EventId>, id: EventId) {
    id in offered && InRange(u(id)) && IsReplaceable(u(id).kind)
  }

  /** No other offer for its slot beats this one. */
  ghost predicate Wins(u: Universe, offered: set<EventId>, id: EventId) {
    && Contends(u, offered, id)
    && forall o :: Contends(u, offered, o) && SlotOf(u(o)) == SlotOf(u(id)) ==> !Beats(u(o), u(id))
  }

  /** Stored: every regular offer that fits, and the winner of every slot. */
  ghost predicate Kept(u: Universe, offered: set<EventId>, id: EventId) {
    id in offered && InRange(u(id)) && (IsReplaceable(u(id).kind) ==> Wins(u, offered, id))
  }

  ghost predicate HeldOk(u: Universe, offered: set<EventId>, s: Content, id: EventId) {
    && (id in s.events <==> Kept(u, offered, id))
    && (id in s.events ==> s.events[id] == u(id))
    && (Contends(u, offered, id) ==> SlotOf(u(id)) in s.addrs)
  }

  ghost predicate AddrOk(u: Universe, offered: set<EventId>, s: Content, slot: Slot) {
    slot in s.addrs ==>
      var w := s.addrs[slot].eventId;
      Wins(u, offered, w) && SlotOf(u(w)) == slot && s.addrs[slot].createdAt == u(w).createdAt
  }

  /** The content is what the offers determine. */
  ghost predicate Settled(u: Universe, offered: set<EventId>, s: Content) {
    && (forall id :: HeldOk(u, offered, s, id))
    && (forall slot :: AddrOk(u, offered, s, slot))
  }

  lemma WinnerIsUnique(u: Universe, offered: set<EventId>, a: EventId, b: EventId)
    requires Authentic(u) && Wins(u, offered, a) && Wins(u, offered, b) && SlotOf(u(a)) == SlotOf(u(b))
    ensures a == b
  {
    assert !Beats(u(a), u(b)) && !Beats(u(b), u(a));
  }

  /** A new offer can only dethrone the holder of its own slot. */
  lemma WinsAfterOffer(u: Universe, offered: set<EventId>, e: EventId, w: EventId, id: EventId)
    requires Authentic(u) && Contends(u, offered + {e}, e) && SlotOf(u(w)) == SlotOf(u(e))
    requires w == e || Wins(u, offered, w)
    requires w == e ==> forall o :: Contends(u, offered, o) ==> SlotOf(u(o)) != SlotOf(u(e))
    ensures var best := if w != e && !Beats(u(e), u(w)) then w else e;
            Wins(u, offered + {e}, id) <==>
              if SlotOf(u(id)) == SlotOf(u(e)) then id == best else Wins(u, offered, id)
  {
    var more := offered + {e};
    var best := if w != e && !Beats(u(e), u(w)) then w else e;
    assert forall o :: Contends(u, more, o) <==> Contends(u, offered, o) || o == e;
    if SlotOf(u(id)) == SlotOf(u(e)) {
      assert Wins(u, more, best);
      if Wins(u, more, id) { WinnerIsUnique(u, more, id, best); }
    }
  }

  lemma PutSettles(u: Universe, offered: set<EventId>, s: Content, e: EventId)
    requires Authentic(u) && Settled(u, offered, s)
    ensures Settled(u, offered + {e}, Put(s, u(e)).0)
  {
    var more := offered + {e};
    var s' := Put(s, u(e)).0;
    if !Contends(u, more, e) {
      forall o ensures Contends(u, more, o) <==> Contends(u, offered, o) {}
      forall id ensures HeldOk(u, more, s', id) { assert HeldOk(u, offered, s, id); }
      forall slot ensures AddrOk(u, more, s', slot) { assert AddrOk(u, offered, s, slot); }
    } else if e in s.events {
      assert HeldOk(u, offered, s, e);
      assert more == offered;
    } else {
      PutContender(u, offered, s, e);
    }
  }

  lemma PutContender(u: Universe, offered: set<EventId>, s: Content, e: EventId)
    requires Authentic(u) && Settled(u, offered, s) && Contends(u, offered + {e}, e) && e !in s.events
    ensures Settled(u, offered + {e}, Put(s, u(e)).0)
  {
    var more := offered + {e};
    var s' := Put(s, u(e)).0;
    var slot := SlotOf(u(e));
    var w := if slot in s.addrs then s.addrs[slot].eventId else e;
    assert AddrOk(u, offered, s, slot);
    forall o | Contends(u, offered, o) && slot !in s.addrs ensures SlotOf(u(o)) != slot {
      assert HeldOk(u, offered, s, o);
    }
    assert HeldOk(u, offered, s, w);
    forall id ensures HeldOk(u, more, s', id) {
      assert HeldOk(u, offered, s, id);
      WinsAfterOffer(u, offered, e, w, id);
    }
    forall t ensures AddrOk(u, more, s', t) {
      assert AddrOk(u, offered, s, t);
      if t in s'.addrs { WinsAfterOffer(u, offered, e, w, s'.addrs[t].eventId); }
    }
  }

  /** The events offered by a list of ids, in that order. */
  function Offers(u: Universe, ids: seq<EventId>): seq<Event> {
    seq(|ids|, i requires 0 <= i < |ids| => u(ids[i]))
  }

  /** The ids that occur in a run. */
  function Distinct(ids: seq<EventId>): set<EventId> {
    set id | id in ids
  }

  lemma {:induction false} OffersSettle(u: Universe, ids: seq<EventId>)
    requires Authentic(u)
    ensures Settled(u, Distinct(ids), PutAll(EMPTY, Offers(u, ids)))
  {
    if ids == [] {
      forall id ensures HeldOk(u, {}, EMPTY, id) {}
      forall slot ensures AddrOk(u, {}, EMPTY, slot) {}
      assert Distinct(ids) == {};
    } else {
      var n := |ids| - 1;
      OffersSettle(u, ids[..n]);
      PutSettles(u, Distinct(ids[..n]), PutAll(EMPTY, Offers(u, ids[..n])), ids[n]);
      assert Offers(u, ids)[..n] == Offers(u, ids[..n]);
      assert ids == ids[..n] + [ids[n]];
      assert Distinct(ids) == Distinct(ids[..n]) + {ids[n]};
    }
  }

  /**
   Arrival order and redeliveries do not matter: two runs that offered the same events end with the
   same content, in which every stored replaceable event is its slot's greatest offer.
   */
  lemma StandaloneConvergence(u: Universe, ids1: seq<EventId>, ids2: seq<EventId>)
    requires Authentic(u) && forall id :: id in ids1 <==> id in ids2
    ensures var s := PutAll(EMPTY, Offers(u, ids1));
            && s == PutAll(EMPTY, Offers(u, ids2))
            && forall id :: id in s.events <==> Kept(u, Distinct(ids1), id)
  {
    var offered := Distinct(ids1);
    assert offered == Distinct(ids2);
    OffersSettle(u, ids1);
    OffersSettle(u, ids2);
    var s1, s2 := PutAll(EMPTY, Offers(u, ids1)), PutAll(EMPTY, Offers(u, ids2));
    forall id ensures id in s1.events <==> Kept(u, offered, id)
      ensures id in s1.events <==> id in s2.events
      ensures id in s1.events ==> s1.events[id] == s2.events[id]
    {
      assert HeldOk(u, offered, s1, id) && HeldOk(u, offered, s2, id);
    }
    assert s1.events == s2.events;
    forall slot ensures slot in s1.addrs <==> slot in s2.addrs
      ensures slot in s1.addrs ==> s1.addrs[slot] == s2.addrs[slot]
    {
      SameAddr(u, offered, s1, s2, slot);
      SameAddr(u, offered, s2, s1, slot);
    }
    assert s1.addrs == s2.addrs;
  }

  // ---- in terms of the events alone ----------------------------------------

  lemma RivalsContend(u: Universe, offered: set<EventId>, o: EventId, id: EventId)
    requires Authentic(u) && o in offered && id in offered && InRange(u(id)) && InRange(u(o))
    ensures Rivals(u(o), u(id)) <==>
            o != id && Contends(u, offered, o) && Contends(u, offered, id) && SlotOf(u(o)) == SlotOf(u(id))
    ensures Beats(u(o), u(id)) <==>
            u(o).createdAt > u(id).createdAt || (u(o).createdAt == u(id).createdAt && o < id)
  {
    RivalsShareASlot(u(o), u(id));
    hide Rivals, SlotOf;
  }

  /**
   What the store holds: exactly the offers whose timestamp fits a signed 64-bit column and that no
   rival offer beats, newer or as old with a lower id. Rivals have the same author, the same kind and,
     for the kinds from 30000
   to 39999, the same `d` value.
   */
  lemma StoredIsUnrivalled(u: Universe, ids: seq<EventId>, id: EventId)
    requires Authentic(u)
    ensures id in PutAll(EMPTY, Offers(u, ids)).events <==>
            && id in ids && u(id).createdAt < 0x8000_0000_0000_0000
            && forall o :: o in ids && u(o).createdAt < 0x8000_0000_0000_0000 && Rivals(u(o), u(id)) ==>
                 u(o).createdAt < u(id).createdAt || (u(o).createdAt == u(id).createdAt && id < o)
  {
    var offered := Distinct(ids);
    OffersSettle(u, ids);
    assert HeldOk(u, offered, PutAll(EMPTY, Offers(u, ids)), id);
    hide Rivals, SlotOf, Beats, Settled;
    if id in ids && InRange(u(id)) {
      forall o | o in ids && InRange(u(o))
        ensures Rivals(u(o), u(id)) <==>
                o != id && Contends(u, offered, o) && Contends(u, offered, id) && SlotOf(u(o)) == SlotOf(u(id))
        ensures Beats(u(o), u(id)) <==>
                u(o).createdAt > u(id).createdAt || (u(o).createdAt == u(id).createdAt && o < id)
      {
        RivalsContend(u, offered, o, id);
      }
    }
  }

  /** Where the slot of `e` points: a stored event of that slot, the only one. */
  lemma HolderOfSlot(u: Universe, offered: set<EventId>, s: Content, e: EventId, id: EventId)
    requires Authentic(u) && Settled(u, offered, s) && e !in s.events && IsReplaceable(u(e).kind)
    ensures var slot := SlotOf(u(e));
            && (slot in s.addrs ==>
                  var w := s.addrs[slot].eventId;
                  w in s.events && s.events[w] == u(w) && s.addrs[slot].createdAt == u(w).createdAt
                  && Rivals(u(e), u(w)))
            && (id in s.events && Rivals(u(e), u(id)) ==> slot in s.addrs && s.addrs[slot].eventId == id)
            && (id in s.events ==> s.events[id] == u(id))
  {
    var slot := SlotOf(u(e));
    assert AddrOk(u, offered, s, slot) && HeldOk(u, offered, s, id) && HeldOk(u, offered, s, e);
    RivalsShareASlot(u(e), u(id));
    if slot in s.addrs {
      var w := s.addrs[slot].eventId;
      assert HeldOk(u, offered, s, w);
      RivalsShareASlot(u(e), u(w));
      hide Rivals;
      if id in s.events && Rivals(u(e), u(id)) { WinnerIsUnique(u, offered, w, id); }
    }
  }

  /**
   One more offer, after any run: an error when its timestamp does not fit, a duplicate when it is
   stored, stale when a stored rival is newer, or as old with a lower id; otherwise it is stored and exactly its stored
   rivals are gone, and it replaced something exactly when there was one.
   */
  lemma OfferDecides(u: Universe, ids: seq<EventId>, e: EventId, id: EventId)
    requires Authentic(u)
    ensures var s := PutAll(EMPTY, Offers(u, ids));
            var (d, out) := Put(s, u(e));
            && (out.None? <==> u(e).createdAt >= 0x8000_0000_0000_0000)
            && (out == Some(T.Duplicate) <==> out.Some? && e in s.events)
            && (out == Some(T.StaleRejected) ==>
                exists w ::
                  && w in s.events && Rivals(u(e), u(w))
                  && (u(w).createdAt > u(e).createdAt || (u(w).createdAt == u(e).createdAt && w < e)))
            && (out == Some(T.Replaced) ==> exists w :: w in s.events && Rivals(u(e), u(w)))
            && (out == Some(T.Inserted) && id in s.events ==> !Rivals(u(e), u(id)))
            && (out.None? || out == Some(T.Duplicate) || out == Some(T.StaleRejected) ==> d == s)
            && (out == Some(T.Inserted) || out == Some(T.Replaced) ==>
                  (id in d.events <==> id == e || (id in s.events && !Rivals(u(e), u(id))))
                  && (id in s.events && Rivals(u(e), u(id)) ==>
                      u(e).createdAt > u(id).createdAt || (u(e).createdAt == u(id).createdAt && e < id)))
  {
    var offered, s := Distinct(ids), PutAll(EMPTY, Offers(u, ids));
    OffersSettle(u, ids);
    RivalsShareASlot(u(e), u(id));
    if e !in s.events && IsReplaceable(u(e).kind) { HolderOfSlot(u, offered, s, e, id); }
    hide Rivals, SlotOf, Settled, PutAll, Offers, Beats;
  }

  lemma SameAddr(u: Universe, offered: set<EventId>, s1: Content, s2: Content, slot: Slot)
    requires Authentic(u) && Settled(u, offered, s1) && Settled(u, offered, s2)
    ensures slot in s1.addrs ==> slot in s2.addrs && s1.addrs[slot] == s2.addrs[slot]
  {
    assert AddrOk(u, offered, s1, slot) && AddrOk(u, offered, s2, slot);
    if slot in s1.addrs {
      var w := s1.addrs[slot].eventId;
      assert HeldOk(u, offered, s2, w);
      WinnerIsUnique(u, offered, w, s2.addrs[slot].eventId);
    }
  }
}
