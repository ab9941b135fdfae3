/**
 Group state refines a simple machine. Over any sequential run of group commands, invite admissions
 and ordinary traffic, reading the lists back gives exactly the fold of the pure command semantics.
 */
module GroupRuns {
  import opened Options
  import opened Ids
  import opened Events
  import opened Tables
  import opened Engine
  import opened Attach
  import opened Reachable
  import opened Groups
  import opened GroupState

  // ---- ordinary traffic leaves group state alone ---------------------------

  /** A deletion that names no group-state event. */
  ghost predicate SparesGroups(u: Universe, ev: Event) {
    forall t :: Names(ev, t) ==> !IsGroupState(u(t).kind)
  }

  ghost predicate SparesAll(u: Universe, raws: seq<string>) {
    forall k :: 0 <= k < |raws| && ParseId(raws[k]).Some? ==> !IsGroupState(u(ParseId(raws[k]).value).kind)
  }

  lemma TargetsAreSpared(u: Universe, ev: Event)
    requires IsDeletionKind(ev.kind) && SparesGroups(u, ev)
    ensures SparesAll(u, DeletionTargets(ev.tags))
  {
    var raws := DeletionTargets(ev.tags);
    forall k | 0 <= k < |raws| && ParseId(raws[k]).Some? ensures !IsGroupState(u(ParseId(raws[k]).value).kind) {
      TargetsAreNamed(ev.tags, ParseId(raws[k]).value);
      assert Names(ev, ParseId(raws[k]).value);
    }
  }

  ghost predicate SameGroupEvent(u: Universe, db: Db, d: Db, id: EventId) {
    IsGroupState(u(id).kind) ==>
      (id in d.events <==> id in db.events) && (id in db.events ==> d.events[id] == db.events[id])
  }

  ghost predicate SameGroupSlot(db: Db, d: Db, s: Slot) {
    IsGroupState(s.kind) ==> (s in d.slots <==> s in db.slots) && (s in db.slots ==> d.slots[s] == db.slots[s])
  }

  ghost predicate SameGroups(u: Universe, db: Db, d: Db) {
    && (forall id :: SameGroupEvent(u, db, d, id))
    && (forall s :: SameGroupSlot(db, d, s))
  }

  lemma SameGroupsTrans(u: Universe, a: Db, b: Db, c: Db)
    requires SameGroups(u, a, b) && SameGroups(u, b, c)
    ensures SameGroups(u, a, c)
  {
    forall id ensures SameGroupEvent(u, a, c, id) { assert SameGroupEvent(u, a, b, id) && SameGroupEvent(u, b, c, id); }
    forall s ensures SameGroupSlot(a, c, s) { assert SameGroupSlot(a, b, s) && SameGroupSlot(b, c, s); }
  }

  lemma SameGroupsKeepHolders(u: Universe, r: Relay, db: Db, d: Db)
    requires GroupOk(u, r, db) && Base(u, d) && SameGroups(u, db, d)
    ensures GroupOk(u, r, d)
    ensures forall kind, ch :: IsGroupState(kind) ==> Holder(d, r, kind, ch) == Holder(db, r, kind, ch)
  {
    forall id ensures GroupEventOk(r, d, id) {
      assert GroupEventOk(r, db, id) && SameGroupEvent(u, db, d, id) && EventOk(u, db, id) && EventOk(u, d, id);
    }
    forall kind, ch | IsGroupState(kind) ensures Holder(d, r, kind, ch) == Holder(db, r, kind, ch) {
      var s := Slot(r.pubkey, kind, ch);
      assert SameGroupSlot(db, d, s) && SlotOk(u, db, s);
      if s in db.slots { assert SameGroupEvent(u, db, d, db.slots[s].eventId); }
    }
  }

  /** Storing an event of another kind, dropping at most the holder of its own slot. */
  lemma StoringOtherSpares(u: Universe, db: Db, ev: Event, gone: set<EventId>, d: Db)
    requires ev == u(ev.id) && !IsGroupState(ev.kind)
    requires forall id :: id in gone ==> !IsGroupState(u(id).kind)
    requires d.events == (db.events - gone)[ev.id := EventRow(ev, Channel(ev), false)]
    requires forall s :: SameGroupSlot(db, d, s)
    ensures SameGroups(u, db, d)
  {
    forall id ensures SameGroupEvent(u, db, d, id) {}
  }

  lemma {:induction false} DeletionsSpare(u: Universe, db: Db, raws: seq<string>)
    requires Base(u, db) && SparesAll(u, raws)
    ensures SameGroups(u, db, DeleteAll(db, raws).0)
  {
    DeleteAllKeepsBase(u, db, raws);
    if raws == [] {
      forall id ensures SameGroupEvent(u, db, db, id) {}
    } else {
      var n := |raws| - 1;
      assert SparesAll(u, raws[..n]) by { assert forall k :: 0 <= k < n ==> raws[..n][k] == raws[k]; }
      DeletionsSpare(u, db, raws[..n]);
      var d := DeleteAll(db, raws[..n]).0;
      var d' := DeleteAll(db, raws).0;
      DeleteAllKeepsBase(u, db, raws[..n]);
      if ParseId(raws[n]).Some? && Live(d, ParseId(raws[n]).value) {
        DeleteEffect(u, d, ParseId(raws[n]).value);
        forall id ensures SameGroupEvent(u, db, d', id) { assert SameGroupEvent(u, db, d, id); }
        forall s ensures SameGroupSlot(db, d', s) { assert SameGroupSlot(db, d, s); }
      }
    }
  }

  lemma FrontSpares(u: Universe, db: Db, ev: Event, door: Door, now: int)
    requires Base(u, db) && ev == u(ev.id) && SparesGroups(u, ev)
    ensures SameGroups(u, db, IngestFront(db, ev, door, now).db)
  {
    var d := IngestFront(db, ev, door, now).db;
    if IngestFront(db, ev, door, now).Final? {
      FrontKeepsBase(u, db, ev, door, now);
      hide Base, IngestFront;
      forall id ensures SameGroupEvent(u, db, d, id) {}
      forall s ensures SameGroupSlot(db, d, s) {}
    } else if IsReply(ev) {
      ReplyFrontSpares(u, db, ev, door, now);
      hide Base, SameGroups, FrontReply;
    } else if IsDeletionKind(ev.kind) {
      DeletionFrontSpares(u, db, ev);
      hide Base, SameGroups, FrontDelete;
    } else {
      OpaqueFrontSpares(u, db, ev, door, now);
      hide Base, SameGroups, IngestFront;
    }
  }

  lemma ReplyFrontMoves(u: Universe, db: Db, ev: Event, door: Door, now: int)
    requires Base(u, db) && ev == u(ev.id) && IsReply(ev) && ev.id !in db.events
    requires FrontReply(db, ev, door, now).ThenDrain?
    ensures var d := FrontReply(db, ev, door, now).db;
            d.events == db.events[ev.id := EventRow(ev, Channel(ev), false)] && d.slots == db.slots
  {
    hide Base, FrontReply, Attached, IsReply, Resolve, Channel;
    FrontReplyKeepsBase(u, db, ev, door, now);
    var a := Attachment(ev, ParentOf(ev), RootHintOf(ev), Resolve(db, ev).depth, door, now);
    AttachedMoves(db, a, FrontReply(db, ev, door, now).db);
  }

  lemma ReplyIsNoGroupEvent(ev: Event)
    requires IsReply(ev)
    ensures !IsGroupState(ev.kind)
  {
  }

  lemma ReplyFrontSpares(u: Universe, db: Db, ev: Event, door: Door, now: int)
    requires Base(u, db) && ev == u(ev.id) && IsReply(ev) && ev.id !in db.events
    requires FrontReply(db, ev, door, now).ThenDrain?
    ensures SameGroups(u, db, FrontReply(db, ev, door, now).db)
  {
    hide Base, FrontReply, IsReply, SameGroups, Channel, IsGroupState;
    var d := FrontReply(db, ev, door, now).db;
    ReplyFrontMoves(u, db, ev, door, now);
    ReplyIsNoGroupEvent(ev);
    assert db.events - {} == db.events;
    StoringOtherSpares(u, db, ev, {}, d);
  }

  lemma DeletionFrontSpares(u: Universe, db: Db, ev: Event)
    requires Base(u, db) && ev == u(ev.id) && IsDeletionKind(ev.kind) && SparesGroups(u, ev) && CanInsert(db, ev)
    ensures SameGroups(u, db, FrontDelete(db, ev).db)
  {
    var mid := InsertEventRow(db, ev).value;
    InsertOther(u, db, ev);
    assert db.events - {} == db.events;
    StoringOtherSpares(u, db, ev, {}, mid);
    TargetsAreSpared(u, ev);
    DeletionsSpare(u, mid, DeletionTargets(ev.tags));
    SameGroupsTrans(u, db, mid, FrontDelete(db, ev).db);
  }

  lemma ReplaceableFrontSpares(u: Universe, db: Db, ev: Event)
    requires Base(u, db) && ev == u(ev.id) && !IsRelayAuthored(ev.kind) && IsReplaceable(ev.kind)
    requires ev.id !in db.events && FrontOpaque(db, ev).ThenDrain?
    ensures SameGroups(u, db, FrontOpaque(db, ev).db)
  {
    var d := FrontOpaque(db, ev).db;
    DedupedEffect(u, db, ev);
    assert SlotOk(u, db, SlotOf(ev));
    hide Base, SlotOf;
    StoringOtherSpares(u, db, ev, Superseded(db, ev), d);
  }

  lemma InsertFrontSpares(u: Universe, db: Db, ev: Event)
    requires ev == u(ev.id) && !IsRelayAuthored(ev.kind) && CanInsert(db, ev)
    ensures SameGroups(u, db, InsertEventRow(db, ev).value)
  {
    hide SameGroups;
    assert db.events - {} == db.events;
    StoringOtherSpares(u, db, ev, {}, InsertEventRow(db, ev).value);
  }

  lemma OpaqueFrontSpares(u: Universe, db: Db, ev: Event, door: Door, now: int)
    requires Base(u, db) && ev == u(ev.id) && !IsReply(ev) && !IsDeletionKind(ev.kind)
    requires IngestFront(db, ev, door, now).ThenDrain?
    ensures SameGroups(u, db, IngestFront(db, ev, door, now).db)
  {
    hide Base, SameGroups;
    if IsReplaceable(ev.kind) {
      ReplaceableFrontSpares(u, db, ev);
    } else {
      InsertFrontSpares(u, db, ev);
    }
  }

  lemma StepSpares(u: Universe, c: Cfg, c': Cfg, now: int)
    requires CfgOk(u, c) && DrainStep(c, c', now)
    ensures SameGroups(u, c.db, c'.db)
  {
    if c.batch == [] {
      forall id ensures SameGroupEvent(u, c.db, c'.db, id) {}
    } else {
      var ev := c.batch[0];
      TryKeepsCfg(u, c, c', now);
      forall id ensures SameGroupEvent(u, c.db, c'.db, id) {}
      forall s ensures SameGroupSlot(c.db, c'.db, s) {}
    }
  }

  lemma {:induction false} DrainSpares(u: Universe, c0: Cfg, c: Cfg, now: int, n: nat)
    requires CfgOk(u, c0) && DrainsTo(c0, c, now, n)
    ensures SameGroups(u, c0.db, c.db)
    decreases n
  {
    hide DrainStep, CfgOk;
    if n == 0 {
      forall id ensures SameGroupEvent(u, c0.db, c.db, id) {}
    } else {
      var m :| DrainsTo(c0, m, now, n - 1) && DrainStep(m, c, now);
      DrainKeepsCfg(u, c0, m, now, n - 1);
      DrainSpares(u, c0, m, now, n - 1);
      StepSpares(u, m, c, now);
      SameGroupsTrans(u, c0.db, m.db, c.db);
    }
  }

  /** Clients and peers cannot touch group state: an ingest that deletes none of it leaves it as it was. */
  lemma IngestSparesGroups(u: Universe, db: Db, ev: Event, door: Door, now: int, db': Db, out: Outcome)
    requires Base(u, db) && ev == u(ev.id) && SparesGroups(u, ev) && Ingests(db, ev, door, now, db', out)
    ensures SameGroups(u, db, db')
  {
    FrontSpares(u, db, ev, door, now);
    match IngestFront(db, ev, door, now)
    case Final(_, _) =>
    case ThenDrain(d, es) =>
      var c: Cfg, n: nat :| DrainsTo(DrainStart(d, ev.id, es), c, now, n) && DrainEnds(c, now, db, db', out);
      if db' == db {
        forall id ensures SameGroupEvent(u, db, db', id) {}
      } else {
        StartOk(u, db, ev, door, now);
        DrainSpares(u, DrainStart(d, ev.id, es), c, now, n);
        SameGroupsTrans(u, db, d, c.db);
      }
  }

  // ---- one command ---------------------------------------------------------

  /** A command leaves alone the lists it does not rewrite, and carries those it does. */
  lemma RewritesCover(c: ChannelState, channel: string, ev: Event, mirrored: bool)
    requires StateOk(c) && (c.meta.Some? ==> c.meta.value.id == channel)
    requires Next(c, channel, ev.kind, ev.pubkey, ev.tags, mirrored).Change?
    ensures var next := Next(c, channel, ev.kind, ev.pubkey, ev.tags, mirrored).next;
            && ListsDistinct(Rewrites(ev.kind))
            && (forall k :: k in Rewrites(ev.kind) ==> Carries(next, channel, k))
            && (forall k :: IsGroupState(k) && k !in Rewrites(ev.kind) ==> SameList(k, c, next))
  {
    NextKeepsStateOk(c, channel, ev.kind, ev.pubkey, ev.tags, mirrored);
    hide StateOk, Upserted, Removed;
  }

  lemma ViewNamesItsChannel(u: Universe, r: Relay, db: Db, channel: string)
    requires GroupOk(u, r, db)
    ensures View(db, r, channel).meta.Some? ==> View(db, r, channel).meta.value.id == channel
  {
    if Holder(db, r, KIND_METADATA, channel).Some? { HolderIsStored(u, r, db, KIND_METADATA, channel); }
  }

  lemma MovedView(r: Relay, db: Db, channel: string, c: ChannelState, kinds: seq<nat>, d: Db)
    requires Moved(r, db, channel, c, kinds, d)
    requires forall k :: IsGroupState(k) && k !in kinds ==> SameList(k, View(db, r, channel), c)
    ensures View(d, r, channel) == c
    ensures forall ch :: ch != channel ==> View(d, r, ch) == View(db, r, ch)
  {
    hide Holder;
    forall k | IsGroupState(k) ensures SameList(k, View(d, r, channel), c) {
      if k !in kinds { assert Holder(d, r, k, channel) == Holder(db, r, k, channel); }
    }
    assert SameList(KIND_METADATA, View(d, r, channel), c);
    assert SameList(KIND_ADMINS, View(d, r, channel), c);
    assert SameList(KIND_MEMBERS, View(d, r, channel), c);
  }

  /** What a command must do to every channel, given the verdict of the pure machine. */
  ghost predicate Follows(r: Relay, db: Db, channel: string, v: Verdict, rep: Answer, d: Db) {
    match v
    case Refuse(why) => d == db && rep == Refused(why)
    case Change(c) =>
      && !rep.Refused?
      && (rep.Done? ==> View(d, r, channel) == c && forall ch :: ch != channel ==> View(d, r, ch) == View(db, r, ch))
  }

  /**
   One command: refused exactly when the pure machine refuses, and then nothing changed; otherwise
   the channel's lists become what the machine says and no other channel moves. It errors exactly
   when one of the timestamps it must use does not fit in 64 bits.
   */
  lemma CommandRefines(u: Universe, r: Relay, db: Db, ev: Event, clock: nat -> nat, mirrored: bool, channel: string)
    requires GroupOk(u, r, db) && WithinCaps(db) && FirstTag(ev.tags, "h") == Some(channel) && channel != ""
    ensures var (d, rep) := Execute(db, r, ev, clock, mirrored);
            var v := Next(View(db, r, channel), channel, ev.kind, ev.pubkey, ev.tags, mirrored);
            && GroupOk(u, r, d) && Follows(r, db, channel, v, rep, d)
            && (v.Change? ==> (rep.Errored? <==> !AllFit(r, db, channel, Rewrites(ev.kind), clock)))
            && (rep.Done? ==> Stamped(r, db, channel, Rewrites(ev.kind), clock, d)
                              && OnlyMoves(r, db, channel, Rewrites(ev.kind), d))
  {
    var c0 := View(db, r, channel);
    ReadBackIsView(u, r, db, channel);
    ViewIsOk(u, r, db, channel);
    ViewNamesItsChannel(u, r, db, channel);
    var v := Next(c0, channel, ev.kind, ev.pubkey, ev.tags, mirrored);
    if v.Change? {
      RewritesCover(c0, channel, ev, mirrored);
      ListsMove(u, r, db, channel, v.next, Rewrites(ev.kind), clock);
      var (d, es) := WriteLists(db, db, r, channel, v.next, Rewrites(ev.kind), clock);
      hide GroupOk, Next, StateOk, View, AllFit, Stamped, Rewrites, WriteLists;
      if es.Some? { MovedView(r, db, channel, v.next, Rewrites(ev.kind), d); }
    }
  }

  /** No slot outside the channel's rewritten lists changed hands. */
  ghost predicate OnlyMoves(r: Relay, db: Db, channel: string, kinds: seq<nat>, d: Db) {
    forall kind, ch :: IsGroupState(kind) && (ch != channel || kind !in kinds)
      ==> Holder(d, r, kind, ch) == Holder(db, r, kind, ch)
  }

  // ---- one admission -------------------------------------------------------

  /** What an admission must do, given the channel's lists before it. */
  ghost predicate Admits(r: Relay, db: Db, channel: string, claimant: string, now: nat, a: Admission, d: Db) {
    var c, key := View(db, r, channel), Lower(claimant);
    && (a.Denied? <==> channel == "" || !Is64Hex(claimant) || c.meta.None?)
    && (!a.Added? ==> d == db)
    && (a.Existing? ==> Listed(c.members, key))
    && (a.Added? ==>
          && !Listed(c.members, key)
          && View(d, r, channel) == Admitted(c, key)
          && (forall ch :: ch != channel ==> View(d, r, ch) == View(db, r, ch))
          && OnlyMoves(r, db, channel, [KIND_MEMBERS], d)
          && StampedAt(r, db, channel, KIND_MEMBERS, now, d))
    && (a.AdmitErrored? ==> !StampFits(r, db, channel, KIND_MEMBERS, now))
  }

  /**
   One admission from an invite: denied without touching anything when the channel or key is not
   valid or the channel is unknown; otherwise the key is listed, everyone else is as before.
   */
  lemma AdmissionRefines(u: Universe, r: Relay, db: Db, channel: string, claimant: string, now: nat)
    requires GroupOk(u, r, db) && WithinCaps(db)
    ensures var (d, a) := AddMember(db, r, channel, claimant, now);
            GroupOk(u, r, d) && Admits(r, db, channel, claimant, now, a, d)
  {
    hide GroupOk, WithinCaps, ReadBack, Carrier, Emit, Holder, Latest, StateOk, Listed, Is64Hex, OnlyMoves, StampedAt,
      StampFits, View, AddMember, Admitted;
    var key := Lower(claimant);
    ReadBackFacts(u, r, db, channel, key);
    AdmissionCases(db, r, channel, claimant, now);
    var (d, a) := AddMember(db, r, channel, claimant, now);
    if a.Added? || a.AdmitErrored? {
      AdmissionMoves(u, r, db, channel, key, now);
    }
  }

  /** Within the query limit, what an admission reads is what the slots hold. */
  lemma ReadBackFacts(u: Universe, r: Relay, db: Db, channel: string, key: string)
    requires GroupOk(u, r, db) && WithinCaps(db)
    ensures ReadBack(db, channel) == View(db, r, channel) && StateOk(View(db, r, channel))
    ensures Latest(db.events, KIND_MEMBERS, channel) == Holder(db, r, KIND_MEMBERS, channel)
    ensures Latest(db.events, KIND_METADATA, channel).None? <==> View(db, r, channel).meta.None?
    ensures Listed(View(db, r, channel).members, key) ==> Holder(db, r, KIND_MEMBERS, channel).Some?
  {
    ReadBackIsView(u, r, db, channel);
    ViewIsOk(u, r, db, channel);
    LatestIsHolder(u, r, db, KIND_METADATA, channel);
    LatestIsHolder(u, r, db, KIND_MEMBERS, channel);
    hide GroupOk, StateOk, Holder, Latest, Seen, ReadBack;
  }

  /** What each outcome of an admission says about the lists it read. */
  lemma AdmissionCases(db: Db, r: Relay, channel: string, claimant: string, now: nat)
    ensures var prev, c := Latest(db.events, KIND_MEMBERS, channel), ReadBack(db, channel);
            var listed := prev.Some? && Listed(c.members, Lower(claimant));
            var ev := Carrier(r, KIND_MEMBERS, channel, Admitted(c, Lower(claimant)), prev, now);
            var (d, a) := AddMember(db, r, channel, claimant, now);
            && (a.Denied? <==>
                  channel == "" || !Is64Hex(claimant) || Latest(db.events, KIND_METADATA, channel).None?)
            && (a.Denied? || a.Existing? || a.AdmitErrored? ==> d == db)
            && (a.Existing? ==> listed)
            && (a.Added? ==> !listed && Emit(db, ev) == Ok(d))
            && (a.AdmitErrored? ==> !listed && Emit(db, ev).Failed?)
  {
    hide Latest, ReadBack, Carrier, Emit, Listed, Is64Hex;
  }

  lemma AdmissionMoves(u: Universe, r: Relay, db: Db, channel: string, key: string, now: nat)
    requires GroupOk(u, r, db) && StateOk(View(db, r, channel)) && !Listed(View(db, r, channel).members, key)
    ensures var c := Admitted(View(db, r, channel), key);
            var ev := Carrier(r, KIND_MEMBERS, channel, c, Holder(db, r, KIND_MEMBERS, channel), now);
            && (Emit(db, ev).Failed? ==> !StampFits(r, db, channel, KIND_MEMBERS, now))
            && (Emit(db, ev).Ok? ==>
                  var d := Emit(db, ev).value;
                  && GroupOk(u, r, d)
                  && View(d, r, channel) == c
                  && (forall ch :: ch != channel ==> View(d, r, ch) == View(db, r, ch))
                  && OnlyMoves(r, db, channel, [KIND_MEMBERS], d)
                  && StampedAt(r, db, channel, KIND_MEMBERS, now, d))
  {
    var c := Admitted(View(db, r, channel), key);
    var kinds := [KIND_MEMBERS];
    AdmittedKeepsStateOk(View(db, r, channel), key);
    assert kinds[..0] == [];
    OneListMoves(u, r, db, db, channel, c, kinds, n => now);
    var ev := Carrier(r, KIND_MEMBERS, channel, c, Holder(db, r, KIND_MEMBERS, channel), now);
    if Emit(db, ev).Ok? {
      var d := Emit(db, ev).value;
      hide GroupOk, Holder;
      MovedView(r, db, channel, c, kinds, d);
      assert StampedAt(r, db, channel, kinds[0], now, d);
    }
  }

  /** What becomes of a member list that was read from `read` and is written to `db`. */
  ghost predicate Lands(r: Relay, read: Db, db: Db, channel: string, key: string, ev: Event, d: Db) {
    var h := Holder(db, r, KIND_MEMBERS, channel);
    && (Holder(d, r, KIND_MEMBERS, channel) == Some(ev) <==> !(h.Some? && Beats(h.value, ev)))
    && (Holder(d, r, KIND_MEMBERS, channel) == Some(ev) ==>
          View(d, r, channel).members == View(read, r, channel).members + [(key, "member")])
    && (Holder(d, r, KIND_MEMBERS, channel) != Some(ev) ==> d == db)
  }

  /**
   An admission between whose read and write anybody may have written: it answers `Added` even when
   its list is dropped. The list is stored exactly when the holder it meets does not beat it, and
   then it is the list that was read with the key appended, whatever was written in between;
   otherwise the tables stay as they were.
   */
  lemma RacedAdmission(u: Universe, r: Relay, read: Db, db: Db, channel: string, claimant: string, now: nat)
    requires GroupOk(u, r, read) && WithinCaps(read) && GroupOk(u, r, db)
    requires AddMemberAfter(read, db, r, channel, claimant, now).1.Added?
    ensures var (d, a) := AddMemberAfter(read, db, r, channel, claimant, now);
            GroupOk(u, r, d) && Lands(r, read, db, channel, Lower(claimant), a.ev, d)
  {
    ReadBackIsView(u, r, read, channel);
    ViewIsOk(u, r, read, channel);
    LatestIsHolder(u, r, read, KIND_MEMBERS, channel);
    var key, prev := Lower(claimant), Holder(read, r, KIND_MEMBERS, channel);
    if Listed(View(read, r, channel).members, key) { NotListedUnlessHeld(r, read, channel, key); }
    hide GroupOk, WithinCaps, ReadBack, Carrier, Emit, Holder, View, Latest, StateOk, Listed;
    AddedWrites(read, db, r, channel, claimant, now);
    hide AddMemberAfter;
    RacedWrite(u, r, read, db, channel, key, prev, now);
  }

  lemma AddedWrites(read: Db, db: Db, r: Relay, channel: string, claimant: string, now: nat)
    requires AddMemberAfter(read, db, r, channel, claimant, now).1.Added?
    ensures var prev, c := Latest(read.events, KIND_MEMBERS, channel), ReadBack(read, channel);
            var ev := Carrier(r, KIND_MEMBERS, channel, Admitted(c, Lower(claimant)), prev, now);
            && !(prev.Some? && Listed(c.members, Lower(claimant))) && Emit(db, ev).Ok?
            && AddMemberAfter(read, db, r, channel, claimant, now) == (Emit(db, ev).value, Added(ev))
  {
    hide Latest, ReadBack, Carrier, Emit, Listed, Is64Hex;
  }

  lemma NotListedUnlessHeld(r: Relay, db: Db, channel: string, key: string)
    requires Listed(View(db, r, channel).members, key)
    ensures Holder(db, r, KIND_MEMBERS, channel).Some?
  {
  }

  lemma RacedWrite(u: Universe, r: Relay, read: Db, db: Db, channel: string, key: string, prev: Option<Event>, now: nat)
    requires GroupOk(u, r, db) && StateOk(View(read, r, channel)) && !Listed(View(read, r, channel).members, key)
    requires Emit(db, Carrier(r, KIND_MEMBERS, channel, Admitted(View(read, r, channel), key), prev, now)).Ok?
    ensures var ev := Carrier(r, KIND_MEMBERS, channel, Admitted(View(read, r, channel), key), prev, now);
            var d := Emit(db, ev).value;
            GroupOk(u, r, d) && Lands(r, read, db, channel, key, ev, d)
  {
    var c := View(read, r, channel);
    AdmittedKeepsStateOk(c, key);
    var ev := Carrier(r, KIND_MEMBERS, channel, Admitted(c, key), prev, now);
    CarrierDecodes(r, KIND_MEMBERS, channel, Admitted(c, key), prev, now);
    NewKeyAppended(c, key);
    assert u(ev.id) == ev && UniqueKeys(PEntries(ev.tags));
    hide GroupOk, StateOk, UniqueKeys, Emit, Carrier, Admitted, Listed;
    WriteMeetsHolder(u, r, db, ev, channel);
  }

  lemma NewKeyAppended(c: ChannelState, key: string)
    requires !Listed(c.members, key)
    ensures Admitted(c, key).members == c.members + [(key, "member")]
  {
  }

  /** A list written against any holder: kept unless the holder beats it. */
  lemma WriteMeetsHolder(u: Universe, r: Relay, db: Db, ev: Event, channel: string)
    requires GroupOk(u, r, db) && ev.kind == KIND_MEMBERS && ev == u(ev.id) && ev.pubkey == r.pubkey
    requires DTag(ev.tags) == Some(channel) == FirstTag(ev.tags, "d") && UniqueKeys(PEntries(ev.tags))
    requires Emit(db, ev).Ok?
    ensures var d := Emit(db, ev).value; var h := Holder(db, r, KIND_MEMBERS, channel);
            && GroupOk(u, r, d)
            && (Holder(d, r, KIND_MEMBERS, channel) == Some(ev) <==> !(h.Some? && Beats(h.value, ev)))
            && (Holder(d, r, KIND_MEMBERS, channel) != Some(ev) ==> d == db)
  {
    if Holder(db, r, KIND_MEMBERS, channel).Some? { HolderIsStored(u, r, db, KIND_MEMBERS, channel); }
    if ev.id in db.events {
      assert EventOk(u, db, ev.id);
      AddressedHoldsSlot(u, r, db, KIND_MEMBERS, channel, ev.id);
    } else {
      DedupedEffect(u, db, ev);
      assert InRange(ev);
      var h := Holder(db, r, KIND_MEMBERS, channel);
      hide GroupOk, Holder, Emit, InRange;
      if h.Some? && Beats(h.value, ev) {
        EmitIsDropped(u, r, db, ev, channel);
      } else {
        EmitTakesSlot(u, r, db, ev, channel);
      }
    }
  }

  // ---- runs ----------------------------------------------------------------

  datatype GroupStep =
    | Command(ev: Event, clock: nat -> nat, mirrored: bool, answer: Answer)
    | Admit(channel: string, claimant: string, now: nat, admission: Admission)
    | Traffic(op: Op, outcome: Report)

  /** Traffic is anything the two doors ingest, except a deletion of group state, and reaping. */
  ghost predicate Performs(u: Universe, r: Relay, db: Db, s: GroupStep, db': Db) {
    match s
    case Command(ev, clock, mirrored, rep) => Execute(db, r, ev, clock, mirrored) == (db', rep)
    case Admit(channel, claimant, now, a) => AddMember(db, r, channel, claimant, now) == (db', a)
    case Traffic(op, out) =>
      && OpStep(u, db, op, db', out) && !op.RelayStore?
      && (op.Ingest? ==> SparesGroups(u, op.ev))
  }

  predicate Errs(s: GroupStep) {
    (s.Command? && s.answer.Errored?) || (s.Admit? && s.admission.AdmitErrored?)
  }

  /** A run from the empty store in which the lists of all channels always fit the query limit. */
  ghost predicate GroupRun(u: Universe, r: Relay, run: seq<GroupStep>, db: Db) {
    && WithinCaps(db)
    && if run == [] then db == EMPTY_DB else
         var n := |run| - 1;
         exists prev :: GroupRun(u, r, run[..n], prev) && Performs(u, r, prev, run[n], db)
  }

  type Channels = map<string, ChannelState>

  function At(g: Channels, channel: string): ChannelState {
    if channel in g then g[channel] else NO_CHANNEL_YET
  }

  /** The channel a command names, if it names one. */
  function NamedChannel(ev: Event): Option<string> {
    NonEmpty(FirstTag(ev.tags, "h"))
  }

  /** The pure machine's answer to a step. */
  function Verdicts(g: Channels, s: GroupStep): Option<Verdict> {
    match s
    case Command(ev, _, mirrored, _) =>
      (match NamedChannel(ev)
       case None => Some(Refuse(if FirstTag(ev.tags, "h").None? then NoChannelTag else EmptyChannelTag))
       case Some(channel) => Some(Next(At(g, channel), channel, ev.kind, ev.pubkey, ev.tags, mirrored)))
    case Admit(channel, claimant, _, _) =>
      Some(if channel == "" then Refuse(EmptyChannelTag)
           else if !Is64Hex(claimant) then Refuse(BadKey)
           else if At(g, channel).meta.None? then Refuse(UnknownGroup)
           else Change(Admitted(At(g, channel), Lower(claimant))))
    case Traffic(_, _) => None
  }

  function ChannelOfStep(s: GroupStep): string {
    match s
    case Command(ev, _, _, _) => NamedChannel(ev).GetOr("")
    case Admit(channel, _, _, _) => channel
    case Traffic(_, _) => ""
  }

  function Play(g: Channels, s: GroupStep): Channels {
    match Verdicts(g, s)
    case Some(Change(c)) => g[ChannelOfStep(s) := c]
    case _ => g
  }

  function Replay(run: seq<GroupStep>): Channels {
    if run == [] then map[] else Play(Replay(run[..|run| - 1]), run[|run| - 1])
  }

  /** The step reported what the pure machine says. */
  predicate Agrees(g: Channels, s: GroupStep) {
    match (s, Verdicts(g, s))
    case (Command(_, _, _, answer), Some(Refuse(why))) => answer == Refused(why)
    case (Command(_, _, _, answer), _) => !answer.Refused?
    case (Admit(_, _, _, a), Some(Refuse(why))) => a == Denied(why)
    case (Admit(_, _, _, a), _) => !a.Denied?
    case (Traffic(_, _), _) => true
  }

  ghost predicate Mirrors(r: Relay, db: Db, g: Channels) {
    forall ch :: View(db, r, ch) == At(g, ch)
  }

  /** One channel's lists move, the others stay. */
  lemma MirrorsMove(r: Relay, db: Db, g: Channels, channel: string, c: ChannelState, db': Db)
    requires Mirrors(r, db, g) && View(db', r, channel) == c
    requires forall ch :: ch != channel ==> View(db', r, ch) == View(db, r, ch)
    ensures Mirrors(r, db', g[channel := c])
  {
    hide View;
    forall ch ensures View(db', r, ch) == At(g[channel := c], ch) { assert View(db, r, ch) == At(g, ch); }
  }

  lemma PerformsCommand(u: Universe, r: Relay, db: Db, s: GroupStep, db': Db)
    requires s.Command? && Performs(u, r, db, s, db')
    ensures Execute(db, r, s.ev, s.clock, s.mirrored) == (db', s.answer)
  {
  }

  lemma PerformsAdmission(u: Universe, r: Relay, db: Db, s: GroupStep, db': Db)
    requires s.Admit? && Performs(u, r, db, s, db')
    ensures AddMember(db, r, s.channel, s.claimant, s.now) == (db', s.admission)
  {
  }

  /** A command that names no channel is refused as such and changes nothing. */
  lemma NoChannelRefused(db: Db, r: Relay, ev: Event, clock: nat -> nat, mirrored: bool)
    requires NamedChannel(ev).None?
    ensures Execute(db, r, ev, clock, mirrored) ==
            (db, Refused(if FirstTag(ev.tags, "h").None? then NoChannelTag else EmptyChannelTag))
  {
    hide Decide, FirstTag;
  }

  lemma CommandStep(u: Universe, r: Relay, db: Db, g: Channels, s: GroupStep, db': Db)
    requires GroupOk(u, r, db) && WithinCaps(db) && Mirrors(r, db, g)
    requires s.Command? && Performs(u, r, db, s, db') && !Errs(s)
    ensures GroupOk(u, r, db') && Mirrors(r, db', Play(g, s)) && Agrees(g, s)
  {
    hide Execute, Performs, GroupOk, WithinCaps, View, Next, At, AllFit, Stamped, OnlyMoves, FirstTag;
    PerformsCommand(u, r, db, s, db');
    if NamedChannel(s.ev).Some? {
      var channel := NamedChannel(s.ev).value;
      CommandRefines(u, r, db, s.ev, s.clock, s.mirrored, channel);
      assert View(db, r, channel) == At(g, channel);
      var v := Next(At(g, channel), channel, s.ev.kind, s.ev.pubkey, s.ev.tags, s.mirrored);
      hide Mirrors;
      if v.Change? { MirrorsMove(r, db, g, channel, v.next, db'); }
    } else {
      NoChannelRefused(db, r, s.ev, s.clock, s.mirrored);
    }
  }

  lemma AdmittedAgain(c: ChannelState, key: string)
    requires Listed(c.members, key)
    ensures Admitted(c, key) == c
  {
  }

  lemma AdmitStep(u: Universe, r: Relay, db: Db, g: Channels, s: GroupStep, db': Db)
    requires GroupOk(u, r, db) && WithinCaps(db) && Mirrors(r, db, g)
    requires s.Admit? && Performs(u, r, db, s, db') && !Errs(s)
    ensures GroupOk(u, r, db') && Mirrors(r, db', Play(g, s)) && Agrees(g, s)
  {
    hide Performs, GroupOk, WithinCaps, View, AddMember, At, Listed, Is64Hex, Admitted, OnlyMoves, StampedAt, StampFits;
    var c, key := At(g, s.channel), Lower(s.claimant);
    PerformsAdmission(u, r, db, s, db');
    AdmissionRefines(u, r, db, s.channel, s.claimant, s.now);
    AdmissionVerdict(r, db, s.channel, s.claimant, s.now);
    assert View(db, r, s.channel) == c;
    hide Mirrors;
    if s.admission.Existing? {
      AdmittedAgain(c, key);
      MirrorsMove(r, db, g, s.channel, c, db');
    } else if s.admission.Added? {
      MirrorsMove(r, db, g, s.channel, Admitted(c, key), db');
    }
  }

  lemma AdmissionVerdict(r: Relay, db: Db, channel: string, claimant: string, now: nat)
    ensures var a := AddMember(db, r, channel, claimant, now).1;
            a.Denied? ==> a == Denied(if channel == "" then EmptyChannelTag else if !Is64Hex(claimant) then BadKey
              else UnknownGroup)
  {
  }

  lemma TrafficStep(u: Universe, r: Relay, db: Db, s: GroupStep, db': Db)
    requires GroupOk(u, r, db) && s.Traffic? && Performs(u, r, db, s, db')
    ensures GroupOk(u, r, db')
    ensures forall kind, ch :: IsGroupState(kind) ==> Holder(db', r, kind, ch) == Holder(db, r, kind, ch)
  {
    OpKeepsBase(u, db, s.op, db', s.outcome);
    match s.op
    case Ingest(ev, door, now) =>
      IngestSparesGroups(u, db, ev, door, now, db', s.outcome.out);
      SameGroupsKeepHolders(u, r, db, db');
    case Reap(cutoff) =>
      forall id ensures SameGroupEvent(u, db, db', id) {}
      forall t ensures SameGroupSlot(db, db', t) {}
      SameGroupsKeepHolders(u, r, db, db');
  }

  lemma StepRefines(u: Universe, r: Relay, db: Db, g: Channels, s: GroupStep, db': Db)
    requires GroupOk(u, r, db) && WithinCaps(db) && Mirrors(r, db, g) && Performs(u, r, db, s, db') && !Errs(s)
    ensures GroupOk(u, r, db') && Mirrors(r, db', Play(g, s)) && Agrees(g, s)
  {
    match s
    case Command(_, _, _, _) => CommandStep(u, r, db, g, s, db');
    case Admit(_, _, _, _) => AdmitStep(u, r, db, g, s, db');
    case Traffic(_, _) =>
      TrafficStep(u, r, db, s, db');
      hide Holder, GroupOk, Performs;
  }

  lemma EmptyIsGroupOk(u: Universe, r: Relay)
    requires Authentic(u) && Signs(u, r)
    ensures GroupOk(u, r, EMPTY_DB) && Mirrors(r, EMPTY_DB, map[])
  {
    forall x ensures CountOk(EMPTY_DB, x) {}
  }

  lemma {:induction false} RunMirrors(u: Universe, r: Relay, run: seq<GroupStep>, db: Db)
    requires Authentic(u) && Signs(u, r) && GroupRun(u, r, run, db)
    requires forall i :: 0 <= i < |run| ==> !Errs(run[i])
    ensures GroupOk(u, r, db) && WithinCaps(db) && Mirrors(r, db, Replay(run))
    ensures forall i :: 0 <= i < |run| ==> Agrees(Replay(run[..i]), run[i])
    decreases |run|
  {
    hide GroupOk, WithinCaps, Performs, Mirrors, Agrees, Errs, Play, At;
    if run == [] {
      EmptyIsGroupOk(u, r);
    } else {
      var n := |run| - 1;
      var prev :| GroupRun(u, r, run[..n], prev) && Performs(u, r, prev, run[n], db);
      RunMirrors(u, r, run[..n], prev);
      StepRefines(u, r, prev, Replay(run[..n]), run[n], db);
      forall i | 0 <= i < |run| ensures Agrees(Replay(run[..i]), run[i]) {
        if i < n { assert run[..n][..i] == run[..i]; }
      }
    }
  }

  /**
   Group state refines the pure machine. Over every sequential run of commands, admissions and other
   traffic in which no storage error is reported, for any clock readings, the lists read back from the
   store are the fold of the pure command semantics, and every step reported what that fold says.
   */
  lemma GroupStateIsReplay(u: Universe, r: Relay, run: seq<GroupStep>, db: Db)
    requires Authentic(u) && Signs(u, r) && GroupRun(u, r, run, db)
    requires forall i :: 0 <= i < |run| ==> !Errs(run[i])
    ensures forall ch :: ReadBack(db, ch) == At(Replay(run), ch)
    ensures forall i :: 0 <= i < |run| ==> Agrees(Replay(run[..i]), run[i])
  {
    RunMirrors(u, r, run, db);
    hide GroupOk, WithinCaps, Agrees, Errs, GroupRun, ReadBack, View, At;
    forall ch ensures ReadBack(db, ch) == At(Replay(run), ch) {
      ReadBackIsView(u, r, db, ch);
      assert View(db, r, ch) == At(Replay(run), ch);
    }
  }

  // ---- a private channel stays closed --------------------------------------

  function PlayAll(g: Channels, run: seq<GroupStep>): Channels {
    if run == [] then g else Play(PlayAll(g, run[..|run| - 1]), run[|run| - 1])
  }

  /** Not a command of one of these keys on this channel, and not an admission to it. */
  predicate FromOutside(s: GroupStep, channel: string, admins: seq<Entry>) {
    ChannelOfStep(s) == channel ==> !s.Admit? && (s.Command? ==> !Listed(admins, s.ev.pubkey))
  }

  /**
   Without an admin's command or an invite, no run of commands opens a private channel: its metadata
   and admin list stay, and nobody outside its member list gets in.
   */
  lemma {:induction false} PrivateChannelStaysClosed(g: Channels, run: seq<GroupStep>, channel: string, key: string)
    requires var c := At(g, channel);
             && c.meta.Some? && c.meta.value.isPrivate && c.admins.Some?
             && (forall i :: 0 <= i < |run| ==> FromOutside(run[i], channel, c.admins.value))
    ensures var c, d := At(g, channel), At(PlayAll(g, run), channel);
            && d.meta == c.meta && d.admins == c.admins
            && (Listed(d.members, key) ==> Listed(c.members, key))
    decreases |run|
  {
    if run != [] {
      var n := |run| - 1;
      var s := run[n];
      PrivateChannelStaysClosed(g, run[..n], channel, key);
      var mid := PlayAll(g, run[..n]);
      assert FromOutside(s, channel, At(g, channel).admins.value);
      if s.Command? && NamedChannel(s.ev) == Some(channel) {
        var v := Next(At(mid, channel), channel, s.ev.kind, s.ev.pubkey, s.ev.tags, s.mirrored);
        if v.Change? {
          OutsidersOnlyMoveThemselves(At(mid, channel), channel, s.ev.kind, s.ev.pubkey, s.ev.tags, s.mirrored, key);
        }
        hide Next, Listed;
      } else {
        hide Next, Listed, Admitted;
      }
    }
  }

  // ---- storage errors need a clock near the end of time --------------------

  ghost predicate ClockedBy(s: GroupStep, limit: nat) {
    && (s.Command? ==> forall n :: s.clock(n) <= limit)
    && (s.Admit? ==> s.now <= limit)
  }

  predicate StampsBelow(r: Relay, db: Db, kind: nat, ch: string, bound: nat) {
    IsGroupState(kind) && Holder(db, r, kind, ch).Some? ==> Holder(db, r, kind, ch).value.createdAt <= bound
  }

  ghost predicate AllBelow(r: Relay, db: Db, bound: nat) {
    forall kind, ch :: StampsBelow(r, db, kind, ch, bound)
  }

  lemma RewritesAreGroupState(kind: nat)
    ensures forall i :: 0 <= i < |Rewrites(kind)| ==> IsGroupState(Rewrites(kind)[i])
  {
  }

  /** Slots that did not move, and slots stamped one past the clock or the stamp before. */
  lemma MovedStamps(r: Relay, db: Db, channel: string, kinds: seq<nat>, clock: nat -> nat, d: Db, limit: nat,
        bound: nat)
    requires OnlyMoves(r, db, channel, kinds, d) && Stamped(r, db, channel, kinds, clock, d)
    requires (forall n :: clock(n) <= limit) && limit <= bound && AllBelow(r, db, bound)
    ensures AllBelow(r, d, bound + 1)
  {
    hide Holder;
    var next := bound + 1;
    forall kind, ch ensures StampsBelow(r, d, kind, ch, next) {
      assert StampsBelow(r, db, kind, ch, bound);
      if ch == channel && kind in kinds {
        var i :| 0 <= i < |kinds| && kinds[i] == kind;
        assert StampedAt(r, db, channel, kinds[i], clock(i), d);
      }
    }
  }

  lemma SameStamps(r: Relay, db: Db, bound: nat)
    requires AllBelow(r, db, bound)
    ensures AllBelow(r, db, bound + 1)
  {
    var next := bound + 1;
    forall kind, ch ensures StampsBelow(r, db, kind, ch, next) { assert StampsBelow(r, db, kind, ch, bound); }
  }

  lemma StampsFit(r: Relay, db: Db, channel: string, kinds: seq<nat>, clock: nat -> nat, limit: nat, bound: nat)
    requires AllBelow(r, db, bound) && (forall n :: clock(n) <= limit) && limit <= bound < I64_MAX
    requires forall i :: 0 <= i < |kinds| ==> IsGroupState(kinds[i])
    ensures AllFit(r, db, channel, kinds, clock)
  {
    hide Holder;
    forall i | 0 <= i < |kinds| ensures StampFits(r, db, channel, kinds[i], clock(i)) {
      assert StampsBelow(r, db, kinds[i], channel, bound);
    }
  }

  lemma CommandStamps(u: Universe, r: Relay, db: Db, s: GroupStep, db': Db, limit: nat, bound: nat)
    requires GroupOk(u, r, db) && WithinCaps(db) && s.Command? && Performs(u, r, db, s, db')
    requires AllBelow(r, db, bound) && ClockedBy(s, limit) && limit <= bound < I64_MAX
    ensures !Errs(s) && GroupOk(u, r, db') && AllBelow(r, db', bound + 1)
  {
    SameStamps(r, db, bound);
    hide GroupOk, WithinCaps, View, Next, Holder, AllBelow, AllFit, Stamped, OnlyMoves;
    if NamedChannel(s.ev).Some? {
      var channel, kinds := NamedChannel(s.ev).value, Rewrites(s.ev.kind);
      CommandRefines(u, r, db, s.ev, s.clock, s.mirrored, channel);
      RewritesAreGroupState(s.ev.kind);
      StampsFit(r, db, channel, kinds, s.clock, limit, bound);
      if s.answer.Done? { MovedStamps(r, db, channel, kinds, s.clock, db', limit, bound); }
    }
  }

  lemma AdmitStamps(u: Universe, r: Relay, db: Db, s: GroupStep, db': Db, limit: nat, bound: nat)
    requires GroupOk(u, r, db) && WithinCaps(db) && s.Admit? && Performs(u, r, db, s, db')
    requires AllBelow(r, db, bound) && ClockedBy(s, limit) && limit <= bound < I64_MAX
    ensures !Errs(s) && GroupOk(u, r, db') && AllBelow(r, db', bound + 1)
  {
    hide AddMember, Performs, GroupOk, WithinCaps, View, Holder, AllBelow, OnlyMoves, StampFits, Listed, Is64Hex,
      Admitted;
    var kinds, clock := [KIND_MEMBERS], (n: nat) => s.now;
    PerformsAdmission(u, r, db, s, db');
    SameStamps(r, db, bound);
    StampsFit(r, db, s.channel, kinds, clock, limit, bound);
    assert StampFits(r, db, s.channel, kinds[0], clock(0));
    AdmissionRefines(u, r, db, s.channel, s.claimant, s.now);
    if s.admission.Added? { MovedStamps(r, db, s.channel, kinds, clock, db', limit, bound); }
  }

  /**
   With clock readings up to `limit` and fewer than 2^63 - limit steps, no step of a run fails in the
   store: each step raises a slot's timestamp at most one past the clock and the previous stamp.
   */
  lemma {:induction false} NoStorageErrors(u: Universe, r: Relay, run: seq<GroupStep>, db: Db, limit: nat)
    requires Authentic(u) && Signs(u, r) && GroupRun(u, r, run, db)
    requires limit + |run| <= I64_MAX && forall i :: 0 <= i < |run| ==> ClockedBy(run[i], limit)
    ensures forall i :: 0 <= i < |run| ==> !Errs(run[i])
    ensures GroupOk(u, r, db) && AllBelow(r, db, limit + |run|)
    decreases |run|
  {
    hide GroupOk, WithinCaps, Performs, AllBelow, Errs, ClockedBy;
    if run == [] {
      EmptyIsGroupOk(u, r);
      NobodyIsStamped(r, limit);
    } else {
      var n := |run| - 1;
      var prev :| GroupRun(u, r, run[..n], prev) && Performs(u, r, prev, run[n], db);
      NoStorageErrors(u, r, run[..n], prev, limit);
      StepStamps(u, r, prev, run[n], db, limit, limit + n);
    }
  }

  lemma NobodyIsStamped(r: Relay, bound: nat)
    ensures AllBelow(r, EMPTY_DB, bound)
  {
    forall kind, ch ensures StampsBelow(r, EMPTY_DB, kind, ch, bound) {}
  }

  lemma StepStamps(u: Universe, r: Relay, db: Db, s: GroupStep, db': Db, limit: nat, bound: nat)
    requires GroupOk(u, r, db) && WithinCaps(db) && Performs(u, r, db, s, db')
    requires AllBelow(r, db, bound) && ClockedBy(s, limit) && limit <= bound < I64_MAX
    ensures !Errs(s) && GroupOk(u, r, db') && AllBelow(r, db', bound + 1)
  {
    match s
    case Command(_, _, _, _) => CommandStamps(u, r, db, s, db', limit, bound);
    case Admit(_, _, _, _) => AdmitStamps(u, r, db, s, db', limit, bound);
    case Traffic(_, _) =>
      var next := bound + 1;
      TrafficStep(u, r, db, s, db');
      hide Holder, GroupOk, Performs;
      forall kind, ch ensures StampsBelow(r, db', kind, ch, next) { assert StampsBelow(r, db, kind, ch, bound); }
  }
}
