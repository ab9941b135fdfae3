/**
 Replaceable events (NIP-01): each slot is a last-writer-wins register whose winner is the greatest
 event ever offered to it, by timestamp and then by lowest id. So the order of arrival, the door and
 redeliveries do not matter, as long as no parked reply with a timestamp out of range turns an
 arrival into an error (`NothingBlocks`).
 */
module Replaceable {
  import opened Options
  import opened Ids
  import opened Events
  import opened Tables
  import opened Engine
  import opened Attach
  import opened Reachable
  import opened Forest

  /** `Beats` orders the events of a slot totally, so a greatest offer is unique. */
  lemma BeatsIsTotal(a: Event, b: Event, c: Event)
    ensures a.id != b.id ==> Beats(a, b) || Beats(b, a)
    ensures !(Beats(a, b) && Beats(b, a))
    ensures Beats(a, b) && Beats(b, c) ==> Beats(a, c)
  {
  }

  /** Every slot is held by an offered event that no offered event of the slot beats. */
  ghost predicate Winners(u: Universe, offered: set<EventId>, slots: map<Slot, SlotRow>) {
    && (forall s :: s in slots ==> WonBy(u, offered, s, slots[s].eventId))
    && (forall id :: id in offered ==> SlotOf(u(id)) in slots)
  }

  ghost predicate WonBy(u: Universe, offered: set<EventId>, s: Slot, w: EventId) {
    && w in offered && SlotOf(u(w)) == s
    && forall id :: id in offered && SlotOf(u(id)) == s ==> !Beats(u(id), u(w))
  }

  /** One replaceable insert: the offer joins the offered set and the greatest stays. */
  lemma OfferKeepsWinners(u: Universe, offered: set<EventId>, db: Db, ev: Event)
    requires Base(u, db) && ev == u(ev.id) && IsReplaceable(ev.kind) && InRange(ev) && ev.id !in db.events
    requires Winners(u, offered, db.slots)
    ensures Winners(u, offered + {ev.id}, InsertDeduped(db, ev).value.0.slots)
  {
    DedupedEffect(u, db, ev);
    var (d, o) := InsertDeduped(db, ev).value;
    var slot := SlotOf(ev);
    assert SlotOk(u, db, slot);
    hide Base, SlotOf, IsReplaceable;
    forall s | s in d.slots ensures WonBy(u, offered + {ev.id}, s, d.slots[s].eventId) {
      if s in db.slots { assert WonBy(u, offered, s, db.slots[s].eventId); }
      if s == slot {
        forall id | id in offered + {ev.id} && SlotOf(u(id)) == s ensures !Beats(u(id), u(d.slots[s].eventId)) {
          if slot in db.slots { BeatsIsTotal(u(id), ev, u(db.slots[slot].eventId)); }
        }
      }
    }
  }

  lemma StepKeepsSlots(u: Universe, c: Cfg, c': Cfg, now: int)
    requires CfgOk(u, c) && DrainStep(c, c', now)
    ensures c'.db.slots == c.db.slots
  {
    if c.batch != [] { TryKeepsCfg(u, c, c', now); }
  }

  lemma {:induction false} DrainKeepsSlots(u: Universe, c0: Cfg, c: Cfg, now: int, n: nat)
    requires CfgOk(u, c0) && DrainsTo(c0, c, now, n)
    ensures c.db.slots == c0.db.slots
    decreases n
  {
    hide DrainStep, CfgOk;
    if n > 0 {
      var m :| DrainsTo(c0, m, now, n - 1) && DrainStep(m, c, now);
      DrainKeepsCfg(u, c0, m, now, n - 1);
      DrainKeepsSlots(u, c0, m, now, n - 1);
      StepKeepsSlots(u, m, c, now);
    }
  }

  // ---- runs ----------------------------------------------------------------

  /** The replaceable event a step offered to its slot, unless the door or an error refused it. */
  ghost function Offer(s: Step): set<EventId> {
    match s
    case Step(Ingest(ev, _, _), Ingested(Accepted(_, _, _))) => if IsReplaceable(ev.kind) then {ev.id} else {}
    case Step(RelayStore(ev), Stored(Some(_))) => if IsReplaceable(ev.kind) then {ev.id} else {}
    case _ => {}
  }

  ghost function Offered(run: seq<Step>): set<EventId> {
    if run == [] then {} else Offered(run[..|run| - 1]) + Offer(run[|run| - 1])
  }

  /** An offer of an event that is stored already changes nothing. */
  lemma StoredWasOffered(u: Universe, offered: set<EventId>, db: Db, id: EventId)
    requires Base(u, db) && Winners(u, offered, db.slots) && id in db.events && IsReplaceable(u(id).kind)
    ensures id in offered
  {
    assert HolderOk(u, db, id);
    assert WonBy(u, offered, SlotOf(u(id)), id);
  }

  lemma IngestKeepsWinners(u: Universe, offered: set<EventId>, db: Db, ev: Event, door: Door, now: int, db': Db,
        out: Outcome)
    requires Base(u, db) && ev == u(ev.id) && Winners(u, offered, db.slots) && Ingests(db, ev, door, now, db', out)
    ensures Winners(u, offered + (if out.Accepted? && IsReplaceable(ev.kind) then {ev.id} else {}), db'.slots)
  {
    var f := IngestFront(db, ev, door, now);
    if ev.id in db.events && IsReplaceable(ev.kind) {
      StoredWasOffered(u, offered, db, ev.id);
      assert offered + {ev.id} == offered && offered + {} == offered;
    } else if f.Final? {
      FinalKeepsWinners(u, offered, db, ev, door, now);
      hide Base, Winners, IngestFront;
    } else {
      StartOk(u, db, ev, door, now);
      FrontSlots(u, offered, db, ev, door, now);
      var c0 := DrainStart(f.db, ev.id, f.emits);
      var c: Cfg, n: nat :| DrainsTo(c0, c, now, n) && DrainEnds(c, now, db, db', out);
      hide Base, Winners, IngestFront, CfgOk, DrainsTo, Stuck, IsReplaceable;
      DrainKeepsSlots(u, c0, c, now, n);
      assert offered + {} == offered;
    }
  }

  lemma FinalKeepsWinners(u: Universe, offered: set<EventId>, db: Db, ev: Event, door: Door, now: int)
    requires Base(u, db) && ev == u(ev.id) && Winners(u, offered, db.slots) && IngestFront(db, ev, door, now).Final?
    requires !(ev.id in db.events && IsReplaceable(ev.kind))
    ensures var f := IngestFront(db, ev, door, now);
            Winners(u, offered + (if f.outcome.Accepted? && IsReplaceable(ev.kind) then {ev.id} else {}), f.db.slots)
  {
    var f := IngestFront(db, ev, door, now);
    FrontKeepsBase(u, db, ev, door, now);
    if f.outcome.Accepted? && IsReplaceable(ev.kind) {
      OfferKeepsWinners(u, offered, db, ev);
    } else {
      assert offered + {} == offered;
    }
  }

  /** Before the drain: only an opaque replaceable event touches a slot. */
  lemma FrontSlots(u: Universe, offered: set<EventId>, db: Db, ev: Event, door: Door, now: int)
    requires Base(u, db) && ev == u(ev.id) && Winners(u, offered, db.slots) && IngestFront(db, ev, door, now).ThenDrain?
    ensures var f := IngestFront(db, ev, door, now);
            Winners(u, offered + (if IsReplaceable(ev.kind) then {ev.id} else {}), f.db.slots)
              && Winners(u, offered, db.slots)
  {
    if IsReply(ev) {
      FrontReplyKeepsBase(u, db, ev, door, now);
      assert offered + {} == offered;
    } else if IsDeletionKind(ev.kind) {
      InsertOther(u, db, ev);
      DeleteAllKeepsBase(u, InsertEventRow(db, ev).value, DeletionTargets(ev.tags));
      assert offered + {} == offered;
    } else if IsReplaceable(ev.kind) {
      DedupedEffect(u, db, ev);
      OfferKeepsWinners(u, offered, db, ev);
    } else {
      assert offered + {} == offered;
    }
  }

  lemma {:induction false} ReachableWinners(u: Universe, run: seq<Step>, db: Db)
    requires Authentic(u) && Reaches(u, run, db)
    ensures Winners(u, Offered(run), db.slots)
    decreases |run|
  {
    if run != [] {
      var n := |run| - 1;
      var prev :| Reaches(u, run[..n], prev) && OpStep(u, prev, run[n].op, db, run[n].report);
      ReachableBase(u, run[..n], prev);
      ReachableWinners(u, run[..n], prev);
      OpKeepsWinners(u, Offered(run[..n]), prev, run[n], db);
    }
  }

  lemma OpKeepsWinners(u: Universe, offered: set<EventId>, db: Db, s: Step, db': Db)
    requires Base(u, db) && Winners(u, offered, db.slots) && OpStep(u, db, s.op, db', s.report)
    ensures Winners(u, offered + Offer(s), db'.slots)
  {
    match s.op
    case Ingest(ev, door, now) =>
      IngestKeepsWinners(u, offered, db, ev, door, now, db', s.report.out);
    case RelayStore(ev) =>
      if ev.id in db.events {
        StoredWasOffered(u, offered, db, ev.id);
        assert offered + Offer(s) == offered;
      } else if InRange(ev) {
        DedupedEffect(u, db, ev);
        OfferKeepsWinners(u, offered, db, ev);
      } else {
        assert offered + {} == offered;
      }
    case Reap(_) => assert offered + {} == offered;
  }

  lemma SlotsHoldWinners(u: Universe, run: seq<Step>, db: Db, id: EventId)
    requires Authentic(u) && Reaches(u, run, db)
    ensures id in db.events && IsReplaceable(u(id).kind) <==>
            id in Offered(run) && IsReplaceable(u(id).kind) &&
            forall o :: o in Offered(run) && SlotOf(u(o)) == SlotOf(u(id)) ==> !Beats(u(o), u(id))
  {
    ReachableBase(u, run, db);
    ReachableWinners(u, run, db);
    assert HolderOk(u, db, id);
    var s := SlotOf(u(id));
    if s in db.slots {
      assert SlotOk(u, db, s) && WonBy(u, Offered(run), s, db.slots[s].eventId);
      BeatsIsTotal(u(id), u(db.slots[s].eventId), u(id));
    }
  }

  lemma {:induction false} OffersAreReplaceable(u: Universe, run: seq<Step>, db: Db, id: EventId)
    requires Reaches(u, run, db) && id in Offered(run)
    ensures IsReplaceable(u(id).kind)
    decreases |run|
  {
    if run != [] {
      var n := |run| - 1;
      var prev :| Reaches(u, run[..n], prev) && OpStep(u, prev, run[n].op, db, run[n].report);
      if id in Offered(run[..n]) { OffersAreReplaceable(u, run[..n], prev, id); }
    }
  }

  lemma BeatsIsNewer(a: Event, b: Event)
    ensures Beats(a, b) <==> a.createdAt > b.createdAt || (a.createdAt == b.createdAt && a.id < b.id)
  {
  }

  /**
   In every reachable state an event of a replaceable kind is stored exactly when it was offered and
   no rival offered is newer, or as old with a lower id. Rivals have the same author, the same kind
   and, for the kinds from 30000 to 39999, the same `d` value.
   */
  lemma SlotsHoldTheGreatest(u: Universe, run: seq<Step>, db: Db, id: EventId)
    requires Authentic(u) && Reaches(u, run, db)
    requires var k := u(id).kind; k == 0 || k == 3 || 10000 <= k <= 19999 || 30000 <= k <= 39999
    ensures id in db.events <==>
            id in Offered(run) && forall o :: o in Offered(run) && Rivals(u(o), u(id)) ==>
              u(o).createdAt < u(id).createdAt || (u(o).createdAt == u(id).createdAt && id < o)
  {
    SlotsHoldWinners(u, run, db, id);
    hide Reaches, SlotOf, Rivals, Beats;
    forall o | o in Offered(run)
      ensures !(SlotOf(u(o)) == SlotOf(u(id)) && Beats(u(o), u(id))) <==>
              (Rivals(u(o), u(id)) ==>
                u(o).createdAt < u(id).createdAt || (u(o).createdAt == u(id).createdAt && id < o))
    {
      OffersAreReplaceable(u, run, db, o);
      RivalsShareASlot(u(o), u(id));
      BeatsIsNewer(u(o), u(id));
      assert u(o).id == o && u(id).id == id;
    }
  }

  // ---- who is removed ------------------------------------------------------

  /** The event a step stored: it was accepted, new and not stale. */
  ghost function Arrival(s: Step): Option<Event> {
    match s
    case Step(Ingest(ev, _, _), Ingested(Accepted(false, false, _))) => Some(ev)
    case Step(RelayStore(ev), Stored(Some(Inserted))) => Some(ev)
    case Step(RelayStore(ev), Stored(Some(Replaced))) => Some(ev)
    case _ => None
  }

  /** A replaceable insert that is not stale removes exactly the stored rivals of what it stores. */
  lemma InsertRemovesRivals(u: Universe, db: Db, ev: Event, id: EventId)
    requires Base(u, db) && ev == u(ev.id) && ev.id !in db.events && !IsThreadScoped(ev.kind) && InRange(ev)
    requires id in db.events
    ensures var (d, o) := InsertDeduped(db, ev).value;
            && (o == StaleRejected ==> d == db)
            && (o != StaleRejected ==> ev.id in d.events)
            && (id !in d.events <==> o != StaleRejected && Rivals(ev, u(id)))
            && (id !in d.events ==>
                ev.createdAt > u(id).createdAt || (ev.createdAt == u(id).createdAt && ev.id < id))
  {
    RivalsShareASlot(ev, u(id));
    DedupedEffect(u, db, ev);
    assert HolderOk(u, db, id) && EventOk(u, db, id);
    if IsReplaceable(ev.kind) { assert SlotOk(u, db, SlotOf(ev)); }
    hide Rivals, SlotOf, Base;
  }

  lemma RivalsKinds(a: Event, b: Event)
    requires Rivals(a, b)
    ensures IsReplaceable(a.kind) && !IsReply(a) && !IsReply(b) && !IsDeletionKind(a.kind) && a.kind != KIND_REACTION
  {
  }

  lemma FrontRemovesRivals(u: Universe, db: Db, ev: Event, door: Door, now: int, id: EventId)
    requires Base(u, db) && ev == u(ev.id) && IngestFront(db, ev, door, now).ThenDrain? && id in db.events
    ensures var d := IngestFront(db, ev, door, now).db;
            && (id !in d.events <==> Rivals(ev, u(id)))
            && (id !in d.events ==>
                ev.createdAt > u(id).createdAt || (ev.createdAt == u(id).createdAt && ev.id < id))
  {
    hide Rivals;
    if Rivals(ev, u(id)) { RivalsKinds(ev, u(id)); }
    if IsReply(ev) {
      FrontReplyKeepsBase(u, db, ev, door, now);
    } else if IsDeletionKind(ev.kind) {
      InsertOther(u, db, ev);
      DeleteAllKeepsBase(u, InsertEventRow(db, ev).value, DeletionTargets(ev.tags));
    } else if ev.kind != KIND_REACTION && !IsThreadScoped(ev.kind) {
      hide Base, InsertDeduped;
      InsertRemovesRivals(u, db, ev, id);
      DedupedFits(u, db, ev);
    }
  }

  lemma DedupedFits(u: Universe, db: Db, ev: Event)
    requires Base(u, db) && ev == u(ev.id) && ev.id !in db.events && !IsThreadScoped(ev.kind)
    ensures InsertDeduped(db, ev).Ok? <==> InRange(ev)
    ensures InRange(ev) ==> InsertDeduped(db, ev).value.1 != Duplicate
  {
    DedupedEffect(u, db, ev);
  }

  lemma FinalStoresNothing(db: Db, ev: Event, door: Door, now: int)
    requires IngestFront(db, ev, door, now).Final?
    ensures Arrival(Step(Ingest(ev, door, now), Ingested(IngestFront(db, ev, door, now).outcome))) == None
  {
  }

  /** The drain removes nothing and stores no replaceable event. */
  lemma IngestRemovesRivals(u: Universe, db: Db, ev: Event, door: Door, now: int, db': Db, out: Outcome, id: EventId)
    requires Base(u, db) && ev == u(ev.id) && Ingests(db, ev, door, now, db', out) && id in db.events
    ensures var a := Arrival(Step(Ingest(ev, door, now), Ingested(out)));
            && (a.Some? ==> ev.id in db'.events)
            && (id !in db'.events <==> a.Some? && Rivals(ev, u(id)))
            && (id !in db'.events ==>
                ev.createdAt > u(id).createdAt || (ev.createdAt == u(id).createdAt && ev.id < id))
  {
    hide Base, IngestFront, Rivals, CfgOk, DrainsTo, IsReply, Stuck, Finished, Beats;
    FrontKeepsKeys(u, db, ev, door, now);
    var f := IngestFront(db, ev, door, now);
    if f.ThenDrain? {
      FrontRemovesRivals(u, db, ev, door, now, id);
      var c0 := DrainStart(f.db, ev.id, f.emits);
      var c: Cfg, n: nat :| DrainsTo(c0, c, now, n) && DrainEnds(c, now, db, db', out);
      DrainKeepsKeys(u, db, ev, door, now, c, n, id);
      DrainKeepsKeys(u, db, ev, door, now, c, n, ev.id);
      if Rivals(ev, u(id)) { RivalsKinds(ev, u(id)); }
    } else {
      FinalStoresNothing(db, ev, door, now);
    }
  }

  lemma FrontKeepsKeys(u: Universe, db: Db, ev: Event, door: Door, now: int)
    requires Base(u, db) && ev == u(ev.id)
    ensures var f := IngestFront(db, ev, door, now);
            && (f.Final? ==> f.db.events == db.events)
            && (f.ThenDrain? ==> ev.id in f.db.events && ev.id !in db.events)
  {
    FrontKeepsBase(u, db, ev, door, now);
  }

  lemma DrainKeepsKeys(u: Universe, db: Db, ev: Event, door: Door, now: int, c: Cfg, n: nat, id: EventId)
    requires Base(u, db) && ev == u(ev.id) && IngestFront(db, ev, door, now).ThenDrain?
    requires var f := IngestFront(db, ev, door, now); DrainsTo(DrainStart(f.db, ev.id, f.emits), c, now, n)
    ensures var d := IngestFront(db, ev, door, now).db;
            && (id in d.events ==> id in c.db.events)
            && (id in c.db.events && !IsReply(u(id)) ==> id in d.events)
  {
    hide Base, IngestFront, CfgOk, DrainsTo, IsReply;
    StartOk(u, db, ev, door, now);
    var f := IngestFront(db, ev, door, now);
    DrainGrows(u, DrainStart(f.db, ev.id, f.emits), c, now, n);
  }

  /**
   Over every run, through any door: a step removes a stored event if and only if it stores a rival
   of it, and then the rival is newer, or as old with a lower id. An event that differs in author,
   kind or (for the kinds from 30000 to 39999) `d` value never removes it.
   */
  lemma OnlyRivalsAreRemoved(u: Universe, run: seq<Step>, db: Db, s: Step, db': Db, id: EventId)
    requires Authentic(u) && Reaches(u, run, db) && OpStep(u, db, s.op, db', s.report) && id in db.events
    ensures var a := Arrival(s);
            && (a.Some? ==> a.value.id in db'.events)
            && (id !in db'.events <==> a.Some? && Rivals(a.value, u(id)))
            && (id !in db'.events ==>
                var ev := a.value;
                ev.createdAt > u(id).createdAt || (ev.createdAt == u(id).createdAt && ev.id < id))
  {
    hide Base, Rivals, InsertDeduped, Ingests, Reaches, SlotOf;
    ReachableBase(u, run, db);
    match s.op
    case Ingest(ev, door, now) => IngestRemovesRivals(u, db, ev, door, now, db', s.report.out, id);
    case RelayStore(ev) =>
      if ev.id !in db.events {
        DedupedFits(u, db, ev);
        if InRange(ev) { InsertRemovesRivals(u, db, ev, id); }
      }
    case Reap(_) =>
  }

  /** A stale report means that a stored rival is newer, or as old with a lower id; nothing is written. */
  lemma StaleMeansBeaten(u: Universe, db: Db, ev: Event) returns (id: EventId)
    requires Base(u, db) && ev == u(ev.id) && ev.id !in db.events && !IsThreadScoped(ev.kind) && InRange(ev)
    requires InsertDeduped(db, ev).value.1 == StaleRejected
    ensures id in db.events && Rivals(ev, u(id)) && InsertDeduped(db, ev).value.0 == db
    ensures u(id).createdAt > ev.createdAt || (u(id).createdAt == ev.createdAt && id < ev.id)
  {
    var slot := SlotOf(ev);
    assert SlotOk(u, db, slot);
    id := db.slots[slot].eventId;
    RivalsShareASlot(ev, u(id));
  }

  lemma SameWinner(u: Universe, run1: seq<Step>, db1: Db, run2: seq<Step>, db2: Db, s: Slot)
    requires Authentic(u) && Reaches(u, run1, db1) && Reaches(u, run2, db2) && Offered(run1) == Offered(run2)
    ensures s in db1.slots ==> s in db2.slots && db1.slots[s] == db2.slots[s]
  {
    ReachableBase(u, run1, db1);
    ReachableBase(u, run2, db2);
    ReachableWinners(u, run1, db1);
    ReachableWinners(u, run2, db2);
    assert SlotOk(u, db1, s) && SlotOk(u, db2, s);
    hide Reaches, Base;
    if s in db1.slots {
      var w := db1.slots[s].eventId;
      assert WonBy(u, Offered(run1), s, w);
      BeatsIsTotal(u(w), u(db2.slots[s].eventId), u(w));
    }
  }

  /** Two runs that offered the same replaceable events hold the same winners, whatever the order. */
  lemma OfferedConvergence(u: Universe, run1: seq<Step>, db1: Db, run2: seq<Step>, db2: Db)
    requires Authentic(u) && Reaches(u, run1, db1) && Reaches(u, run2, db2) && Offered(run1) == Offered(run2)
    ensures db1.slots == db2.slots
    ensures forall id :: IsReplaceable(u(id).kind) ==> (id in db1.events <==> id in db2.events)
  {
    hide Reaches, IsReplaceable, Beats;
    forall s ensures s in db1.slots <==> s in db2.slots
             ensures s in db1.slots ==> db1.slots[s] == db2.slots[s]
    {
      SameWinner(u, run1, db1, run2, db2, s);
      SameWinner(u, run2, db2, run1, db1, s);
    }
    assert db1.slots.Keys == db2.slots.Keys;
    forall id | IsReplaceable(u(id).kind) ensures id in db1.events <==> id in db2.events {
      SlotsHoldWinners(u, run1, db1, id);
      SlotsHoldWinners(u, run2, db2, id);
    }
  }

  // ---- whoever is presented is offered -------------------------------------

  /** Every parked reply could be stored. */
  ghost predicate ParkedFit(u: Universe, db: Db) {
    forall o :: o in db.pending ==> InRange(u(o))
  }

  /** `p` is `top` or a reply in the thread rooted at `top`. */
  predicate InThreadOf(db: Db, top: EventId, p: EventId) {
    p == top || HasRoot(db, p, top)
  }

  /** A drain that started at the top-level event `top` visits its thread only. */
  ghost predicate VisitsThread(u: Universe, c: Cfg, top: EventId) {
    && top in c.db.events && ParkedFit(u, c.db)
    && (forall p :: p in c.stack ==> InThreadOf(c.db, top, p))
    && (forall e :: e in c.batch ==> IsReply(e) && InThreadOf(c.db, top, ParentOf(e)))
  }

  /** Every reply in the thread of a stored plain event resolves to that event as its root. */
  lemma RootIsTop(u: Universe, db: Db, e: Event, top: EventId)
    requires Base(u, db) && IsReply(e) && top in db.events && !IsReply(u(top)) && Plain(u(top))
    requires InThreadOf(db, top, ParentOf(e)) && Resolve(db, e).Resolved?
    ensures Resolve(db, e).root == top
  {
    assert RowOk(u, db, top) && EventOk(u, db, top);
    if top !in db.thread { PlainRootsItself(u(top)); }
  }

  lemma VisitIsNotStuck(u: Universe, c: Cfg, now: int, top: EventId)
    requires CfgOk(u, c) && VisitsThread(u, c, top) && !IsReply(u(top)) && Plain(u(top))
    ensures !Stuck(c, now)
  {
    if c.batch != [] {
      var e := c.batch[0];
      assert Waiting(u, c.db, e) && e in c.batch;
      WaitingIsSettled(u, c.db, e, now);
      if Resolve(c.db, e).Resolved? { RootIsTop(u, c.db, e, top); }
    }
  }

  lemma ThreadStays(u: Universe, db: Db, e: Event, now: int, db': Db, top: EventId)
    requires Base(u, db) && Waiting(u, db, e) && Meets(db, e, now, db')
    ensures forall p :: InThreadOf(db, top, p) ==> InThreadOf(db', top, p)
  {
    hide Base, Waiting, Meets;
    forall p | InThreadOf(db, top, p) ensures InThreadOf(db', top, p) {
      if p != top { MeetKeepsRoots(u, db, e, now, db', p); }
    }
  }

  lemma JoinedInThread(u: Universe, db: Db, e: Event, now: int, db': Db, top: EventId)
    requires Base(u, db) && Waiting(u, db, e) && Meets(db, e, now, db') && FateOf(db, e, now).Joined?
    requires top in db.events && !IsReply(u(top)) && Plain(u(top)) && InThreadOf(db, top, ParentOf(e))
    ensures InThreadOf(db', top, e.id)
  {
    RootIsTop(u, db, e, top);
    assert FateOf(db, e, now).a.root == Resolve(db, e).root;
    hide Resolve, Base, Meets;
    MeetSetsRoot(u, db, e, now, db', top);
  }

  lemma TryVisits(u: Universe, c: Cfg, c': Cfg, now: int, top: EventId)
    requires CfgOk(u, c) && VisitsThread(u, c, top) && !IsReply(u(top)) && Plain(u(top))
    requires c.batch != [] && DrainStep(c, c', now)
    ensures VisitsThread(u, c', top)
  {
    var e := c.batch[0];
    assert Waiting(u, c.db, e) && e in c.batch;
    TryKeepsCfg(u, c, c', now);
    WaitingIsSettled(u, c.db, e, now);
    MeetsKeepsBase(u, c.db, e, now, c'.db);
    ThreadStays(u, c.db, e, now, c'.db, top);
    if FateOf(c.db, e, now).Joined? { JoinedInThread(u, c.db, e, now, c'.db, top); }
    hide Meets, CfgOk, FateOf, InThreadOf;
  }

  /** A row keeps its root when another reply meets its fate. */
  lemma MeetKeepsRoots(u: Universe, db: Db, e: Event, now: int, db': Db, p: EventId)
    requires Base(u, db) && Waiting(u, db, e) && Meets(db, e, now, db') && p in db.thread
    ensures p in db'.thread && db'.thread[p].root == db.thread[p].root
  {
    if FateOf(db, e, now).Joined? {
      var d := Unpark(db, e.id);
      Unattached(u, db, e.id);
      AttachedShape(d, FateOf(db, e, now).a, db', p);
    }
  }

  lemma MeetSetsRoot(u: Universe, db: Db, e: Event, now: int, db': Db, top: EventId)
    requires Base(u, db) && Waiting(u, db, e) && Meets(db, e, now, db')
    ensures FateOf(db, e, now).Joined? ==> HasRoot(db', e.id, FateOf(db, e, now).a.root)
  {
    if FateOf(db, e, now).Joined? {
      var d := Unpark(db, e.id);
      AttachedShape(d, FateOf(db, e, now).a, db', e.id);
    }
  }

  lemma PopVisits(u: Universe, c: Cfg, c': Cfg, now: int, top: EventId)
    requires CfgOk(u, c) && VisitsThread(u, c, top) && c.batch == [] && DrainStep(c, c', now)
    ensures VisitsThread(u, c', top)
  {
    forall e | e in c'.batch ensures IsReply(e) && InThreadOf(c'.db, top, ParentOf(e)) {
      assert PendingOk(u, c.db, e.id) && c.stack[|c.stack| - 1] in c.stack;
    }
  }

  lemma {:induction false} DrainVisits(u: Universe, c0: Cfg, c: Cfg, now: int, n: nat, top: EventId)
    requires CfgOk(u, c0) && VisitsThread(u, c0, top) && !IsReply(u(top)) && Plain(u(top)) && DrainsTo(c0, c, now, n)
    ensures CfgOk(u, c) && VisitsThread(u, c, top)
    decreases n
  {
    hide DrainStep, CfgOk, VisitsThread;
    if n > 0 {
      var m :| DrainsTo(c0, m, now, n - 1) && DrainStep(m, c, now);
      DrainVisits(u, c0, m, now, n - 1, top);
      DrainKeepsCfg(u, c0, c, now, n);
      if m.batch == [] { PopVisits(u, m, c, now, top); } else { TryVisits(u, m, c, now, top); }
    }
  }

  lemma ReplaceableStarts(u: Universe, db: Db, ev: Event, door: Door, now: int)
    requires Base(u, db) && ParkedFit(u, db) && ev == u(ev.id)
    requires IsReplaceable(ev.kind) && !IsRelayAuthored(ev.kind) && InRange(ev)
    ensures match IngestFront(db, ev, door, now)
            case Final(_, out) => out.Accepted?
            case ThenDrain(d, es) => VisitsThread(u, DrainStart(d, ev.id, es), ev.id)
  {
    if ev.id !in db.events { DedupedEffect(u, db, ev); }
    FrontKeepsBase(u, db, ev, door, now);
    hide Base, InsertDeduped;
  }

  /** A plain replaceable event in range is accepted, by either door, when every parked reply fits. */
  lemma ReplaceableIsTaken(u: Universe, db: Db, ev: Event, door: Door, now: int, db': Db, out: Outcome)
    requires Base(u, db) && ParkedFit(u, db) && ev == u(ev.id) && Ingests(db, ev, door, now, db', out)
    requires IsReplaceable(ev.kind) && !IsRelayAuthored(ev.kind) && Plain(ev) && InRange(ev)
    ensures out.Accepted?
  {
    ReplaceableStarts(u, db, ev, door, now);
    var f := IngestFront(db, ev, door, now);
    hide Base, IngestFront, VisitsThread, CfgOk, Stuck;
    if f.ThenDrain? {
      StartOk(u, db, ev, door, now);
      var c0 := DrainStart(f.db, ev.id, f.emits);
      var c: Cfg, n: nat :| DrainsTo(c0, c, now, n) && DrainEnds(c, now, db, db', out);
      DrainVisits(u, c0, c, now, n, ev.id);
      VisitIsNotStuck(u, c, now, ev.id);
    }
  }

  /** The replaceable event a step brings to a door that takes its kind, timestamp in range. */
  ghost function Presents(op: Op): set<EventId> {
    match op
    case Ingest(ev, _, _) =>
      if IsReplaceable(ev.kind) && !IsRelayAuthored(ev.kind) && InRange(ev) then {ev.id} else {}
    case RelayStore(ev) => if IsReplaceable(ev.kind) && InRange(ev) then {ev.id} else {}
    case Reap(_) => {}
  }

  ghost function Presented(run: seq<Step>): set<EventId> {
    if run == [] then {} else Presented(run[..|run| - 1]) + Presents(run[|run| - 1].op)
  }

  /** No reply out of range goes to the mesh door, and the replaceable events name no other root. */
  ghost predicate Quiet(op: Op) {
    op.Ingest? ==>
      && (op.door == Mesh && IsReply(op.ev) ==> InRange(op.ev))
      && (IsReplaceable(op.ev.kind) && !IsRelayAuthored(op.ev.kind) ==> Plain(op.ev))
  }

  ghost predicate NothingBlocks(run: seq<Step>) {
    forall k :: 0 <= k < |run| ==> Quiet(run[k].op)
  }

  lemma IngestKeepsParkedFit(u: Universe, db: Db, ev: Event, door: Door, now: int, db': Db, out: Outcome)
    requires Base(u, db) && ParkedFit(u, db) && ev == u(ev.id) && Ingests(db, ev, door, now, db', out)
    requires door == Mesh && IsReply(ev) ==> InRange(ev)
    ensures ParkedFit(u, db')
  {
    FrontKeepsBase(u, db, ev, door, now);
    match IngestFront(db, ev, door, now)
    case Final(_, _) =>
    case ThenDrain(d, es) =>
      var c0 := DrainStart(d, ev.id, es);
      var c: Cfg, n: nat :| DrainsTo(c0, c, now, n) && DrainEnds(c, now, db, db', out);
      StartOk(u, db, ev, door, now);
      DrainGrows(u, c0, c, now, n);
  }

  lemma OpKeepsParkedFit(u: Universe, db: Db, s: Step, db': Db)
    requires Base(u, db) && ParkedFit(u, db) && OpStep(u, db, s.op, db', s.report) && Quiet(s.op)
    ensures ParkedFit(u, db')
  {
    match s.op
    case Ingest(ev, door, now) => IngestKeepsParkedFit(u, db, ev, door, now, db', s.report.out);
    case RelayStore(ev) =>
      if ev.id !in db.events { DedupedEffect(u, db, ev); }
    case Reap(_) =>
  }

  /** What a step presents is offered, whatever the tables hold. */
  lemma PresentIsOffer(u: Universe, offered: set<EventId>, db: Db, s: Step, db': Db)
    requires Base(u, db) && ParkedFit(u, db) && Winners(u, offered, db.slots)
    requires OpStep(u, db, s.op, db', s.report) && Quiet(s.op)
    ensures offered + Offer(s) == offered + Presents(s.op)
  {
    match s.op
    case Ingest(ev, door, now) =>
      assert EventOk(u, db, ev.id);
      if IsReplaceable(ev.kind) && ev.id in db.events { StoredWasOffered(u, offered, db, ev.id); }
      if Presents(s.op) != {} {
        ReplaceableIsTaken(u, db, ev, door, now, db', s.report.out);
      } else if IsReplaceable(ev.kind) && ev.id !in db.events {
        RefusedUnlessPresented(u, db, ev, door, now, db', s.report.out);
      }
    case RelayStore(ev) =>
      assert EventOk(u, db, ev.id);
      if ev.id !in db.events { DedupedEffect(u, db, ev); }
    case Reap(_) =>
  }

  lemma RefusedUnlessPresented(u: Universe, db: Db, ev: Event, door: Door, now: int, db': Db, out: Outcome)
    requires Base(u, db) && ev == u(ev.id) && ev.id !in db.events && Ingests(db, ev, door, now, db', out)
    requires IsReplaceable(ev.kind) && (IsRelayAuthored(ev.kind) || !InRange(ev))
    ensures !out.Accepted?
  {
    DedupedEffect(u, db, ev);
  }

  /** Where nothing blocks, the events offered are the events presented. */
  lemma {:induction false} PresentedIsOffered(u: Universe, run: seq<Step>, db: Db)
    requires Authentic(u) && Reaches(u, run, db) && NothingBlocks(run)
    ensures Offered(run) == Presented(run) && ParkedFit(u, db)
    decreases |run|
  {
    if run != [] {
      var n := |run| - 1;
      var prev :| Reaches(u, run[..n], prev) && OpStep(u, prev, run[n].op, db, run[n].report);
      ReachableBase(u, run[..n], prev);
      ReachableWinners(u, run[..n], prev);
      PresentedIsOffered(u, run[..n], prev);
      hide Base, OpStep, Quiet, Winners;
      PresentIsOffer(u, Offered(run[..n]), prev, run[n], db);
      OpKeepsParkedFit(u, prev, run[n], db);
    }
  }

  /**
   Replaceable convergence: two runs that presented the same replaceable events to doors that take
   them hold the same winners, whatever the order, the doors, the redeliveries and the other traffic.
   */
  lemma ReplaceableConvergence(u: Universe, run1: seq<Step>, db1: Db, run2: seq<Step>, db2: Db)
    requires Authentic(u) && Reaches(u, run1, db1) && Reaches(u, run2, db2)
    requires NothingBlocks(run1) && NothingBlocks(run2) && Presented(run1) == Presented(run2)
    ensures db1.slots == db2.slots
    ensures forall id :: IsReplaceable(u(id).kind) ==> (id in db1.events <==> id in db2.events)
  {
    PresentedIsOffered(u, run1, db1);
    PresentedIsOffered(u, run2, db2);
    OfferedConvergence(u, run1, db1, run2, db2);
  }
}
