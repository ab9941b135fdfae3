/**
 What every step of the store keeps: the invariant over all runs, the drain's own invariant, and
 the two facts the drain exists for (nobody stays parked under a stored parent; it terminates).
 */
module Reachable {
  import opened Options
  import opened Ids
  import opened Events
  import opened Tables
  import opened Engine
  import opened Attach

  // ---- writes that touch no thread row ------------------------------------

  /** Counters stay exact when no thread row changes and no reply changes its liveness. */
  lemma CountersUntouched(db: Db, db': Db)
    requires CountersExact(db) && db'.thread == db.thread
    requires forall r :: r in db.thread && db.thread[r].parent.Some? ==> Live(db', r) == Live(db, r)
    requires forall r :: r in db.thread ==> (db.thread[r].parent.Some? <==> db.thread[r].root.Some?)
    ensures CountersExact(db')
    ensures forall x :: LiveChildren(db', x) == LiveChildren(db, x) && LiveUnder(db', x) == LiveUnder(db, x)
  {
    forall x
      ensures LiveChildren(db', x) == LiveChildren(db, x) && LiveUnder(db', x) == LiveUnder(db, x)
      ensures CountOk(db', x)
    {
      forall r | r in db.thread
        ensures HasParent(db', r, x) && Live(db', r) <==> HasParent(db, r, x) && Live(db, r)
        ensures HasRoot(db', r, x) && Live(db', r) <==> HasRoot(db, r, x) && Live(db, r)
      {
      }
      assert LiveChildren(db', x) == LiveChildren(db, x);
      assert LiveUnder(db', x) == LiveUnder(db, x);
      assert CountOk(db, x);
    }
  }

  /** The thread rows of replies: both ids are set, and the event is stored and not replaceable. */
  lemma ReplyRows(u: Universe, db: Db, r: EventId)
    requires Base(u, db) && r in db.thread
    ensures db.thread[r].parent.Some? <==> db.thread[r].root.Some?
    ensures db.thread[r].parent.Some? <==> IsReply(u(r))
    ensures db.thread[r].parent.Some? ==> r in db.events && !IsReplaceable(u(r).kind)
  {
    assert RowOk(u, db, r);
  }

  /** A write that removes some replaceable events and stores one event that is no reply. */
  ghost predicate StoresOther(u: Universe, db: Db, ev: Event, gone: set<EventId>, db': Db) {
    && ev == u(ev.id) && !IsReply(ev) && InRange(ev) && ev.id !in db.events
    && (forall g :: g in gone ==> IsReplaceable(u(g).kind))
    && db'.events == (db.events - gone)[ev.id := EventRow(ev, Channel(ev), false)]
    && db'.thread == db.thread && db'.pending == db.pending && db'.quarantine == db.quarantine
  }

  lemma OtherKeepsCounters(u: Universe, db: Db, ev: Event, gone: set<EventId>, db': Db)
    requires Base(u, db) && StoresOther(u, db, ev, gone, db')
    ensures CountersExact(db')
    ensures forall x :: LiveChildren(db', x) == LiveChildren(db, x) && LiveUnder(db', x) == LiveUnder(db, x)
  {
    forall r | r in db.thread
      ensures db.thread[r].parent.Some? <==> db.thread[r].root.Some?
      ensures db.thread[r].parent.Some? ==> Live(db', r) == Live(db, r)
    {
      ReplyRows(u, db, r);
    }
    CountersUntouched(db, db');
  }

  lemma OtherKeepsBase(u: Universe, db: Db, ev: Event, gone: set<EventId>, db': Db)
    requires Base(u, db) && StoresOther(u, db, ev, gone, db') && SlotsOk(u, db')
    ensures Base(u, db')
  {
    OtherKeepsCounters(u, db, ev, gone, db');
    forall id ensures EventOk(u, db', id) { assert EventOk(u, db, id); }
    forall o ensures PendingOk(u, db', o) { assert PendingOk(u, db, o); }
    forall x ensures RowOk(u, db', x) {
      assert RowOk(u, db, x);
      if x in db.thread { ReplyRows(u, db, x); }
    }
  }

  lemma InsertOther(u: Universe, db: Db, ev: Event)
    requires Base(u, db) && ev == u(ev.id) && !IsReply(ev) && !IsReplaceable(ev.kind)
    requires InsertEventRow(db, ev).Ok?
    ensures StoresOther(u, db, ev, {}, InsertEventRow(db, ev).value)
    ensures Base(u, InsertEventRow(db, ev).value)
  {
    var d := InsertEventRow(db, ev).value;
    assert db.events - {} == db.events;
    forall id ensures HolderOk(u, d, id) { assert HolderOk(u, db, id); }
    forall s ensures SlotOk(u, d, s) { assert SlotOk(u, db, s); }
    OtherKeepsBase(u, db, ev, {}, d);
  }

  /** The events a replaceable insert removes: the previous holder of the slot. */
  function Superseded(db: Db, ev: Event): set<EventId> {
    if IsReplaceable(ev.kind) && SlotOf(ev) in db.slots then {db.slots[SlotOf(ev)].eventId} else {}
  }

  lemma DedupedEffect(u: Universe, db: Db, ev: Event)
    requires Base(u, db) && ev == u(ev.id) && ev.id !in db.events && !IsThreadScoped(ev.kind)
    ensures InsertDeduped(db, ev).Ok? <==> InRange(ev)
    ensures InRange(ev) ==>
            var (d, o) := InsertDeduped(db, ev).value;
            && o != Duplicate
            && (o == StaleRejected ==> d == db)
            && (o != StaleRejected ==> StoresOther(u, db, ev, Superseded(db, ev), d))
            && (o == Replaced <==> Superseded(db, ev) != {} && o != StaleRejected)
  {
    if IsReplaceable(ev.kind) {
      assert SlotOk(u, db, SlotOf(ev));
      assert db.events - {} == db.events;
    } else {
      assert db.events - {} == db.events;
    }
  }

  lemma DedupedKeepsBase(u: Universe, db: Db, ev: Event)
    requires Base(u, db) && ev == u(ev.id) && ev.id !in db.events && !IsThreadScoped(ev.kind)
    requires InsertDeduped(db, ev).Ok?
    ensures Base(u, InsertDeduped(db, ev).value.0)
  {
    if !IsReplaceable(ev.kind) {
      InsertOther(u, db, ev);
    } else {
      DedupedEffect(u, db, ev);
      var (d, o) := InsertDeduped(db, ev).value;
      if o != StaleRejected {
        forall id ensures HolderOk(u, d, id) {
          assert HolderOk(u, db, id) && SlotOk(u, db, SlotOf(ev));
        }
        forall s ensures SlotOk(u, d, s) {
          assert SlotOk(u, db, s) && SlotOk(u, db, SlotOf(ev));
        }
        OtherKeepsBase(u, db, ev, Superseded(db, ev), d);
      }
    }
  }

  /** Any edit of the two waiting rooms that keeps the parked rows honest. */
  lemma ShelvingKeepsBase(u: Universe, db: Db, db': Db)
    requires Base(u, db) && (forall o :: PendingOk(u, db', o))
    requires db' == db.(pending := db'.pending, quarantine := db'.quarantine)
    ensures Base(u, db')
    ensures forall x :: LiveChildren(db', x) == LiveChildren(db, x) && LiveUnder(db', x) == LiveUnder(db, x)
  {
    forall r | r in db.thread ensures db.thread[r].parent.Some? <==> db.thread[r].root.Some? { ReplyRows(u, db, r); }
    CountersUntouched(db, db');
    forall id ensures EventOk(u, db', id) && HolderOk(u, db', id) { assert EventOk(u, db, id) && HolderOk(u, db, id); }
    forall x ensures RowOk(u, db', x) { assert RowOk(u, db, x); }
    forall s ensures SlotOk(u, db', s) { assert SlotOk(u, db, s); }
  }

  lemma UnparkKeepsBase(u: Universe, db: Db, id: EventId)
    requires Base(u, db)
    ensures Base(u, Unpark(db, id))
  {
    forall o ensures PendingOk(u, Unpark(db, id), o) { assert PendingOk(u, db, o); }
    ShelvingKeepsBase(u, db, Unpark(db, id));
  }

  lemma QuarantineKeepsBase(u: Universe, db: Db, ev: Event, reason: Reason, now: int)
    requires Base(u, db)
    ensures Base(u, Quarantine(db, ev, reason, now))
  {
    forall o ensures PendingOk(u, Quarantine(db, ev, reason, now), o) { assert PendingOk(u, db, o); }
    ShelvingKeepsBase(u, db, Quarantine(db, ev, reason, now));
  }

  lemma {:induction false} DeleteAllKeepsBase(u: Universe, db: Db, raws: seq<string>)
    requires Base(u, db)
    ensures Base(u, DeleteAll(db, raws).0)
    ensures var d := DeleteAll(db, raws).0;
            d.events.Keys == db.events.Keys && d.thread.Keys == db.thread.Keys
            && d.pending == db.pending && d.quarantine == db.quarantine && d.slots == db.slots
  {
    if raws != [] {
      var n := |raws| - 1;
      DeleteAllKeepsBase(u, db, raws[..n]);
      var d := DeleteAll(db, raws[..n]).0;
      if ParseId(raws[n]).Some? {
        var t := ParseId(raws[n]).value;
        DeleteKeepsBase(u, d, t);
        if Live(d, t) { DeleteEffect(u, d, t); }
      }
    }
  }

  // ---- the drain -----------------------------------------------------------

  /** A parked reply whose parent has arrived, still in its waiting room. */
  ghost predicate Waiting(u: Universe, db: Db, e: Event) {
    e == u(e.id) && IsReply(e) && ParentOf(e) in db.events && e.id in db.pending
  }

  ghost predicate CfgOk(u: Universe, c: Cfg) {
    && Base(u, c.db)
    && (forall p :: p in c.stack ==> p in c.db.events)
    && DistinctIds(c.batch)
    && (forall e :: e in c.batch ==> Waiting(u, c.db, e))
  }

  /** What becomes of a parked reply. */
  datatype Fate = Skipped | Shelved(reason: Reason) | Joined(a: Attachment) | Broken

  function FateOf(db: Db, ev: Event, now: int): Fate
    requires IsReply(ev)
  {
    if ev.id in db.events then Skipped
    else match Resolve(db, ev)
      case ParentMissing => Broken
      case Mismatch(reason) => Shelved(reason)
      case Resolved(parent, root, depth) =>
        if InRange(ev) && (root == ev.id || root in db.events)
        then Joined(Attachment(ev, parent, root, depth, Mesh, now)) else Broken
  }

  /** The tables after a parked reply met its fate. */
  ghost predicate Meets(db: Db, ev: Event, now: int, db': Db)
    requires IsReply(ev)
  {
    match FateOf(db, ev, now)
    case Skipped => db' == Unpark(db, ev.id)
    case Shelved(reason) => db' == Quarantine(Unpark(db, ev.id), ev, reason, now)
    case Joined(a) => Attached(Unpark(db, ev.id), a, db')
    case Broken => false
  }

  /**
   A waiting reply always resolves against a stored parent: neither the drain's top-level branch
   nor its re-park branch is ever taken, and an error is exactly a missing root event or a
   timestamp that does not fit.
   */
  lemma WaitingIsSettled(u: Universe, db: Db, ev: Event, now: int)
    requires Base(u, db) && Waiting(u, db, ev)
    ensures ResolveMarkers(ev.tags).Reply?
    ensures ev.id !in db.events ==> !Resolve(db, ev).ParentMissing?
    ensures TryAttach(db, ev, now).Ok? <==> FateOf(db, ev, now) != Broken
    ensures TryAttach(db, ev, now).Ok? ==>
            var (d, push, emits) := TryAttach(db, ev, now).value;
            && Meets(db, ev, now, d)
            && push == (if FateOf(db, ev, now).Joined? then [ev.id] else [])
            && emits == (if FateOf(db, ev, now).Joined? then [EmitFor(ev, FateOf(db, ev, now).a.root)] else [])
  {
    var d := Unpark(db, ev.id);
    UnparkKeepsBase(u, db, ev.id);
    assert Resolve(d, ev) == Resolve(db, ev);
    if ev.id !in db.events {
      Unattached(u, d, ev.id);
      if Resolve(d, ev).Resolved? {
        var r := Resolve(d, ev);
        ResolvedFacts(u, d, ev);
        InsertReplyAttaches(d, Attachment(ev, r.parent, r.root, r.depth, Mesh, now));
      }
    }
  }

  lemma JoinKeepsBase(u: Universe, db: Db, ev: Event, now: int, db': Db)
    requires Base(u, db) && Waiting(u, db, ev) && Meets(db, ev, now, db') && FateOf(db, ev, now).Joined?
    ensures Base(u, db')
  {
    var d := Unpark(db, ev.id);
    UnparkKeepsBase(u, db, ev.id);
    assert Resolve(d, ev) == Resolve(db, ev);
    hide Base, Resolve, Attached;
    AttachKeepsBase(u, d, FateOf(db, ev, now).a, db');
  }

  lemma JoinedIsEvent(db: Db, ev: Event, now: int)
    requires IsReply(ev) && FateOf(db, ev, now).Joined?
    ensures FateOf(db, ev, now).a.ev == ev
  {
  }

  /** A parked reply leaves the waiting room, and is stored exactly when it joins. */
  lemma MeetsMoves(db: Db, ev: Event, now: int, db': Db)
    requires IsReply(ev) && Meets(db, ev, now, db')
    ensures db'.pending == db.pending - {ev.id}
    ensures db'.events.Keys == db.events.Keys + (if FateOf(db, ev, now).Joined? then {ev.id} else {})
  {
    if FateOf(db, ev, now).Joined? {
      JoinedIsEvent(db, ev, now);
      AttachedMoves(Unpark(db, ev.id), FateOf(db, ev, now).a, db');
    }
    hide FateOf, Attached;
  }

  lemma MeetsKeepsBase(u: Universe, db: Db, ev: Event, now: int, db': Db)
    requires Base(u, db) && Waiting(u, db, ev) && Meets(db, ev, now, db')
    ensures Base(u, db')
    ensures db'.pending == db.pending - {ev.id}
    ensures db'.events.Keys == db.events.Keys + (if FateOf(db, ev, now).Joined? then {ev.id} else {})
  {
    MeetsMoves(db, ev, now, db');
    match FateOf(db, ev, now)
    case Joined(_) => JoinKeepsBase(u, db, ev, now, db');
    case Shelved(reason) =>
      UnparkKeepsBase(u, db, ev.id);
      QuarantineKeepsBase(u, Unpark(db, ev.id), ev, reason, now);
    case _ => UnparkKeepsBase(u, db, ev.id);
  }

  lemma PopKeepsCfg(u: Universe, c: Cfg, c': Cfg, now: int)
    requires CfgOk(u, c) && c.batch == [] && DrainStep(c, c', now)
    ensures CfgOk(u, c')
  {
    forall e | e in c'.batch ensures Waiting(u, c'.db, e) {
      assert PendingOk(u, c.db, e.id);
    }
  }

  lemma TryKeepsCfg(u: Universe, c: Cfg, c': Cfg, now: int)
    requires CfgOk(u, c) && c.batch != [] && DrainStep(c, c', now)
    ensures Waiting(u, c.db, c.batch[0]) && Meets(c.db, c.batch[0], now, c'.db)
    ensures CfgOk(u, c')
  {
    var ev := c.batch[0];
    assert Waiting(u, c.db, ev);
    WaitingIsSettled(u, c.db, ev, now);
    MeetsKeepsBase(u, c.db, ev, now, c'.db);
    forall e | e in c'.batch ensures Waiting(u, c'.db, e) {
      assert e in c.batch && Waiting(u, c.db, e);
      var k :| 0 <= k < |c'.batch| && c'.batch[k] == e;
      assert c.batch[k + 1] == e;
    }
    assert DistinctIds(c'.batch) by {
      forall i, j | 0 <= i < j < |c'.batch| ensures c'.batch[i].id != c'.batch[j].id {
        assert c'.batch[i] == c.batch[i + 1] && c'.batch[j] == c.batch[j + 1];
      }
    }
  }

  lemma {:induction false} DrainKeepsCfg(u: Universe, c0: Cfg, c: Cfg, now: int, n: nat)
    requires CfgOk(u, c0) && DrainsTo(c0, c, now, n)
    ensures CfgOk(u, c)
    decreases n
  {
    hide DrainStep, CfgOk;
    if n > 0 {
      var m :| DrainsTo(c0, m, now, n - 1) && DrainStep(m, c, now);
      DrainKeepsCfg(u, c0, m, now, n - 1);
      if m.batch == [] { PopKeepsCfg(u, m, c, now); } else { TryKeepsCfg(u, m, c, now); }
    }
  }

  // ---- nobody waits under a stored parent ----------------------------------

  /** No event is both stored and parked, and no parked reply has a stored parent. */
  ghost predicate Drained(db: Db) {
    && db.pending.Keys !! db.events.Keys
    && forall o :: o in db.pending ==> db.pending[o].parent !in db.events
  }

  ghost predicate InBatch(c: Cfg, o: EventId) {
    exists i :: 0 <= i < |c.batch| && c.batch[i].id == o
  }

  /** Work in progress: a parked reply with a stored parent is still on the work list. */
  ghost predicate Draining(c: Cfg) {
    && c.db.pending.Keys !! c.db.events.Keys
    && forall o :: o in c.db.pending && c.db.pending[o].parent in c.db.events ==>
         c.db.pending[o].parent in c.stack || InBatch(c, o)
  }

  lemma PopDraining(u: Universe, c: Cfg, c': Cfg, now: int)
    requires CfgOk(u, c) && Draining(c) && c.batch == [] && DrainStep(c, c', now)
    ensures Draining(c')
  {
    forall o | o in c'.db.pending && c'.db.pending[o].parent in c'.db.events
      ensures c'.db.pending[o].parent in c'.stack || InBatch(c', o)
    {
      if c'.db.pending[o].parent == c.stack[|c.stack| - 1] {
        assert PendingOk(u, c.db, o);
        assert u(o) in c'.batch;
        var k :| 0 <= k < |c'.batch| && c'.batch[k] == u(o);
      }
    }
  }

  lemma TryDraining(u: Universe, c: Cfg, c': Cfg, now: int)
    requires CfgOk(u, c) && Draining(c) && c.batch != [] && DrainStep(c, c', now)
    ensures Draining(c')
  {
    var ev := c.batch[0];
    TryKeepsCfg(u, c, c', now);
    WaitingIsSettled(u, c.db, ev, now);
    MeetsMoves(c.db, ev, now, c'.db);
    hide CfgOk, Meets, FateOf;
    forall o | o in c'.db.pending && c'.db.pending[o].parent in c'.db.events
      ensures c'.db.pending[o].parent in c'.stack || InBatch(c', o)
    {
      var p := c'.db.pending[o].parent;
      if p in c.db.events {
        if InBatch(c, o) {
          var i :| 0 <= i < |c.batch| && c.batch[i].id == o;
          assert i > 0 && c'.batch[i - 1].id == o;
        } else {
          assert p in c.stack;
        }
      } else {
        assert p == ev.id && c'.stack[|c'.stack| - 1] == ev.id;
      }
    }
  }

  lemma StepDraining(u: Universe, c: Cfg, c': Cfg, now: int)
    requires CfgOk(u, c) && Draining(c) && DrainStep(c, c', now)
    ensures Draining(c')
  {
    hide CfgOk, Draining, DrainStep;
    if c.batch == [] { PopDraining(u, c, c', now); } else { TryDraining(u, c, c', now); }
  }

  lemma {:induction false} DrainDraining(u: Universe, c0: Cfg, c: Cfg, now: int, n: nat)
    requires CfgOk(u, c0) && Draining(c0) && DrainsTo(c0, c, now, n)
    ensures Draining(c)
    decreases n
  {
    hide DrainStep, CfgOk, Draining;
    if n > 0 {
      var m :| DrainsTo(c0, m, now, n - 1) && DrainStep(m, c, now);
      DrainKeepsCfg(u, c0, m, now, n - 1);
      DrainDraining(u, c0, m, now, n - 1);
      StepDraining(u, m, c, now);
    }
  }

  /**
   The worklist measure: an orphan tried leaves the waiting room for good, and a parent popped
   shortens the stack, so (parked rows, stack size) decreases lexicographically with each parent
   whose orphans have all been tried.
   */
  lemma StepDecreases(u: Universe, c: Cfg, c': Cfg, now: int)
    requires CfgOk(u, c) && DrainStep(c, c', now)
    ensures c.batch != [] ==> c'.db.pending.Keys < c.db.pending.Keys && |c'.db.pending| < |c.db.pending|
    ensures c.batch == [] ==> c'.db == c.db && |c'.stack| < |c.stack|
  {
    if c.batch != [] {
      var ev := c.batch[0];
      TryKeepsCfg(u, c, c', now);
      MeetsKeepsBase(u, c.db, ev, now, c'.db);
      assert c'.db.pending.Keys == c.db.pending.Keys - {ev.id};
      assert |c'.db.pending| == |c'.db.pending.Keys| && |c.db.pending| == |c.db.pending.Keys|;
    }
  }

  // ---- one ingest ----------------------------------------------------------

  lemma FrontReplyAttaches(u: Universe, db: Db, ev: Event, door: Door, now: int)
    requires Base(u, db) && ev == u(ev.id) && IsReply(ev) && ev.id !in db.events && Resolve(db, ev).Resolved?
    ensures var a := Attachment(ev, ParentOf(ev), RootHintOf(ev), Resolve(db, ev).depth, door, now);
            match FrontReply(db, ev, door, now)
            case Final(d, o) => d == db
            case ThenDrain(d, es) =>
              InRange(ev) && Base(u, d) && Attached(db, a, d) && es == [EmitFor(ev, RootHintOf(ev))]
  {
    Unattached(u, db, ev.id);
    ResolvedFacts(u, db, ev);
    var a := Attachment(ev, ParentOf(ev), RootHintOf(ev), Resolve(db, ev).depth, door, now);
    InsertReplyAttaches(db, a);
    hide Base, Attached, Resolve, InsertReply;
    if InsertReply(db, a).Ok? { AttachKeepsBase(u, db, a, InsertReply(db, a).value); }
  }

  lemma FrontReplyKeepsBase(u: Universe, db: Db, ev: Event, door: Door, now: int)
    requires Base(u, db) && ev == u(ev.id) && IsReply(ev) && ev.id !in db.events
    ensures match FrontReply(db, ev, door, now)
            case Final(d, o) => Base(u, d) && d.events == db.events && d.thread == db.thread
            case ThenDrain(d, es) =>
              && Resolve(db, ev).Resolved? && InRange(ev) && Base(u, d)
              && Attached(db, Attachment(ev, ParentOf(ev), RootHintOf(ev), Resolve(db, ev).depth, door, now), d)
              && es == [EmitFor(ev, RootHintOf(ev))]
  {
    if Resolve(db, ev).Resolved? {
      FrontReplyAttaches(u, db, ev, door, now);
      hide Base, Resolve, Attached, InsertReply;
    } else {
      var d := FrontReply(db, ev, door, now).db;
      forall o | o in d.pending ensures PendingOk(u, d, o) { assert PendingOk(u, db, o); }
      ShelvingKeepsBase(u, db, d);
      hide Base, Attached;
    }
  }

  /** Before the drain: the invariant holds, and a drain starts from exactly one new stored event. */
  ghost predicate FrontOk(u: Universe, db: Db, ev: Event, f: Front) {
    match f
    case Final(d, o) =>
      && Base(u, d) && d.events == db.events && d.thread == db.thread && d.slots == db.slots
      && (o.Accepted? || o.Rejected? || o.Failed? ==> d == db)
    case ThenDrain(d, es) =>
      && Base(u, d) && ev.id !in db.events && ev.id in d.events
      && d.events.Keys <= db.events.Keys + {ev.id}
      && d.pending == db.pending && d.quarantine == db.quarantine
  }

  lemma FrontInsertOk(u: Universe, db: Db, ev: Event)
    requires Base(u, db) && ev == u(ev.id) && ev.id !in db.events && !IsReply(ev) && !IsReplaceable(ev.kind)
    ensures FrontOk(u, db, ev, AfterInsert(db, InsertEventRow(db, ev), []))
    ensures FrontOk(u, db, ev, FrontDelete(db, ev))
  {
    if CanInsert(db, ev) {
      InsertOther(u, db, ev);
      DeleteAllKeepsBase(u, InsertEventRow(db, ev).value, DeletionTargets(ev.tags));
    }
  }

  lemma FrontOpaqueOk(u: Universe, db: Db, ev: Event)
    requires Base(u, db) && ev == u(ev.id) && ev.id !in db.events && !IsThreadScoped(ev.kind)
    ensures FrontOk(u, db, ev, FrontOpaque(db, ev))
  {
    DedupedEffect(u, db, ev);
    if InRange(ev) { DedupedKeepsBase(u, db, ev); }
  }

  lemma FrontKeepsBase(u: Universe, db: Db, ev: Event, door: Door, now: int)
    requires Base(u, db) && ev == u(ev.id)
    ensures FrontOk(u, db, ev, IngestFront(db, ev, door, now))
  {
    if ev.id in db.events {
    } else if IsRelayAuthored(ev.kind) {
      QuarantineKeepsBase(u, db, ev, RelayAuthoredKind, now);
    } else if IsReply(ev) {
      FrontReplyKeepsBase(u, db, ev, door, now);
    } else if IsDeletionKind(ev.kind) || ev.kind == KIND_REACTION || IsThreadScoped(ev.kind) {
      FrontInsertOk(u, db, ev);
    } else {
      FrontOpaqueOk(u, db, ev);
    }
  }

  lemma StartOk(u: Universe, db: Db, ev: Event, door: Door, now: int)
    requires Base(u, db) && ev == u(ev.id) && IngestFront(db, ev, door, now).ThenDrain?
    ensures var f := IngestFront(db, ev, door, now); CfgOk(u, DrainStart(f.db, ev.id, f.emits))
  {
    FrontKeepsBase(u, db, ev, door, now);
  }

  lemma IngestKeepsBase(u: Universe, db: Db, ev: Event, door: Door, now: int, db': Db, out: Outcome)
    requires Base(u, db) && ev == u(ev.id) && Ingests(db, ev, door, now, db', out)
    ensures Base(u, db')
    ensures out.Rejected? || out.Failed? ==> db' == db
  {
    FrontKeepsBase(u, db, ev, door, now);
    match IngestFront(db, ev, door, now)
    case Final(_, _) =>
    case ThenDrain(d, es) =>
      var c: Cfg, n: nat :| DrainsTo(DrainStart(d, ev.id, es), c, now, n) && DrainEnds(c, now, db, db', out);
      StartOk(u, db, ev, door, now);
      DrainKeepsCfg(u, DrainStart(d, ev.id, es), c, now, n);
  }

  // ---- every ingest ends ---------------------------------------------------

  /** The parked replies `s` as a batch. */
  ghost predicate ListsParked(db: Db, s: set<EventId>, batch: seq<Event>) {
    && DistinctIds(batch)
    && (forall e :: e in batch ==> e.id in s && e.id in db.pending && db.pending[e.id].raw == e)
    && (forall o :: o in s && o in db.pending ==> db.pending[o].raw in batch)
  }

  lemma {:induction false} ListExists(u: Universe, db: Db, s: set<EventId>) returns (batch: seq<Event>)
    requires Base(u, db) && s <= db.pending.Keys
    ensures ListsParked(db, s, batch)
    decreases |s|
  {
    if s == {} {
      batch := [];
    } else {
      var o :| o in s;
      var rest := ListExists(u, db, s - {o});
      assert PendingOk(u, db, o);
      batch := [u(o)] + rest;
      forall e | e in batch ensures e.id in s && e.id in db.pending && db.pending[e.id].raw == e {
        assert e == u(o) || e in rest;
      }
    }
  }

  lemma ChildrenExist(u: Universe, db: Db, parent: EventId) returns (batch: seq<Event>)
    requires Base(u, db)
    ensures Children(db, parent, batch)
  {
    batch := ListExists(u, db, set o | o in db.pending && db.pending[o].parent == parent);
  }

  /** From every state of the work list the drain can go on, until it is finished or errors. */
  lemma DrainGoesOn(u: Universe, c: Cfg, now: int) returns (c': Cfg)
    requires CfgOk(u, c) && !Finished(c) && !Stuck(c, now)
    ensures DrainStep(c, c', now) && CfgOk(u, c')
  {
    if c.batch == [] {
      var batch := ChildrenExist(u, c.db, c.stack[|c.stack| - 1]);
      c' := Cfg(c.db, c.stack[..|c.stack| - 1], batch, c.emits);
      PopKeepsCfg(u, c, c', now);
    } else {
      var r := TryAttach(c.db, c.batch[0], now).value;
      c' := Cfg(r.0, c.stack + r.1, c.batch[1..], c.emits + r.2);
      TryKeepsCfg(u, c, c', now);
    }
  }

  /** Every drain comes to an end: the work list empties or a step returns an error. */
  lemma {:induction false} DrainComesToAnEnd(u: Universe, c0: Cfg, c: Cfg, now: int, n: nat) returns (end: Cfg, m: nat)
    requires CfgOk(u, c) && DrainsTo(c0, c, now, n)
    ensures DrainsTo(c0, end, now, m) && (Finished(end) || Stuck(end, now))
    decreases |c.db.pending|, |c.stack|
  {
    hide DrainStep, CfgOk, Stuck;
    if Finished(c) || Stuck(c, now) {
      end, m := c, n;
    } else {
      var next := DrainGoesOn(u, c, now);
      StepDecreases(u, c, next, now);
      var k := n + 1;
      assert DrainsTo(c0, next, now, k);
      end, m := DrainComesToAnEnd(u, c0, next, now, k);
    }
  }

  /** Whatever the tables hold, an ingest has an outcome: the drain's loop always terminates. */
  lemma IngestHasAnOutcome(u: Universe, db: Db, ev: Event, door: Door, now: int) returns (db': Db, out: Outcome)
    requires Base(u, db) && ev == u(ev.id)
    ensures Ingests(db, ev, door, now, db', out)
  {
    match IngestFront(db, ev, door, now)
    case Final(d, o) => db', out := d, o;
    case ThenDrain(d, es) =>
      StartOk(u, db, ev, door, now);
      var c0 := DrainStart(d, ev.id, es);
      assert DrainsTo(c0, c0, now, 0);
      var end, m := DrainComesToAnEnd(u, c0, c0, now, 0);
      if Finished(end) {
        db', out := end.db, Accepted(false, false, end.emits);
      } else {
        db', out := db, Outcome.Failed;
      }
      assert DrainEnds(end, now, db, db', out);
  }

  /** A parked reply is never stored by its own redelivery: its parent is still absent. */
  lemma ParkedStaysParked(u: Universe, db: Db, ev: Event, door: Door, now: int)
    requires Base(u, db) && Drained(db) && ev == u(ev.id) && ev.id in db.pending
    ensures IsReply(ev)
    ensures IngestFront(db, ev, door, now) ==
            (if door == Local then Final(db, Rejected(ParentNotFound))
             else Final(Park(db, ev, ParentOf(ev), now), Parked))
  {
    assert PendingOk(u, db, ev.id);
  }

  lemma FinalStaysDrained(u: Universe, db: Db, ev: Event, door: Door, now: int)
    requires Base(u, db) && Drained(db) && ev == u(ev.id) && IngestFront(db, ev, door, now).Final?
    ensures Drained(IngestFront(db, ev, door, now).db)
  {
    FrontKeepsBase(u, db, ev, door, now);
    if ev.id in db.pending { ParkedStaysParked(u, db, ev, door, now); }
  }

  lemma FrontDraining(u: Universe, db: Db, ev: Event, door: Door, now: int)
    requires Base(u, db) && Drained(db) && ev == u(ev.id) && IngestFront(db, ev, door, now).ThenDrain?
    ensures var f := IngestFront(db, ev, door, now); Draining(DrainStart(f.db, ev.id, f.emits))
  {
    FrontKeepsBase(u, db, ev, door, now);
    if ev.id in db.pending { ParkedStaysParked(u, db, ev, door, now); }
    hide Base, IngestFront;
  }

  lemma FinishedIsDrained(c: Cfg)
    requires Draining(c) && Finished(c)
    ensures Drained(c.db)
  {
  }

  /** Every ingest leaves no parked reply under a stored parent, and nothing both parked and stored. */
  lemma IngestDrains(u: Universe, db: Db, ev: Event, door: Door, now: int, db': Db, out: Outcome)
    requires Base(u, db) && Drained(db) && ev == u(ev.id) && Ingests(db, ev, door, now, db', out)
    ensures Drained(db')
  {
    hide Base, Drained, Draining, IngestFront, CfgOk;
    match IngestFront(db, ev, door, now)
    case Final(_, _) => FinalStaysDrained(u, db, ev, door, now);
    case ThenDrain(d, es) =>
      var c0 := DrainStart(d, ev.id, es);
      var c: Cfg, n: nat :| DrainsTo(c0, c, now, n) && DrainEnds(c, now, db, db', out);
      StartOk(u, db, ev, door, now);
      FrontDraining(u, db, ev, door, now);
      DrainDraining(u, c0, c, now, n);
      if Finished(c) { FinishedIsDrained(c); }
  }

  // ---- runs ----------------------------------------------------------------

  lemma RelayStoreKeepsBase(u: Universe, db: Db, ev: Event)
    requires Base(u, db) && ev == u(ev.id) && IsRelayAuthored(ev.kind) && StoreRelayAuthored(db, ev).Ok?
    ensures Base(u, StoreRelayAuthored(db, ev).value.0)
  {
    if ev.id !in db.events { DedupedKeepsBase(u, db, ev); }
  }

  lemma ReapKeepsBase(u: Universe, db: Db, cutoff: int)
    requires Base(u, db)
    ensures Base(u, ReapOlder(db, cutoff))
  {
    forall o ensures PendingOk(u, ReapOlder(db, cutoff), o) { assert PendingOk(u, db, o); }
    ShelvingKeepsBase(u, db, ReapOlder(db, cutoff));
  }

  lemma OpKeepsBase(u: Universe, db: Db, op: Op, db': Db, rep: Report)
    requires Base(u, db) && OpStep(u, db, op, db', rep)
    ensures Base(u, db')
  {
    match op
    case Ingest(ev, door, now) => IngestKeepsBase(u, db, ev, door, now, db', rep.out);
    case RelayStore(ev) => if StoreRelayAuthored(db, ev).Ok? { RelayStoreKeepsBase(u, db, ev); }
    case Reap(cutoff) => ReapKeepsBase(u, db, cutoff);
  }

  lemma {:induction false} ReachableBase(u: Universe, run: seq<Step>, db: Db)
    requires Authentic(u) && Reaches(u, run, db)
    ensures Base(u, db)
    decreases |run|
  {
    if run == [] {
      forall x ensures CountOk(db, x) {}
    } else {
      hide Base, OpStep;
      var n := |run| - 1;
      var prev :| Reaches(u, run[..n], prev) && OpStep(u, prev, run[n].op, db, run[n].report);
      ReachableBase(u, run[..n], prev);
      OpKeepsBase(u, prev, run[n].op, db, run[n].report);
    }
  }

  lemma LiveSets(db: Db, x: EventId)
    ensures LiveChildren(db, x) ==
            set r | r in db.thread && db.thread[r].parent == Some(x) && r in db.events && !db.events[r].deleted
    ensures LiveUnder(db, x) ==
            set r | r in db.thread && db.thread[r].root == Some(x) && r in db.events && !db.events[r].deleted
  {
  }

  /**
   Every reachable state of the store, through either door, the relay door and the reaper, keeps
   the invariant. In particular both counters of every thread row equal the number of its live
   replies, after any mix of redeliveries, drains and repeated or overlapping deletions.
   */
  lemma ReachableKeepsBase(u: Universe, run: seq<Step>, db: Db)
    requires Authentic(u) && Reaches(u, run, db)
    ensures Base(u, db)
    ensures forall x :: x in db.thread ==>
      && db.thread[x].replyCount ==
           |set r | r in db.thread && db.thread[r].parent == Some(x) && r in db.events && !db.events[r].deleted|
      && db.thread[x].descendantCount ==
           |set r | r in db.thread && db.thread[r].root == Some(x) && r in db.events && !db.events[r].deleted|
  {
    ReachableBase(u, run, db);
    hide Reaches, LiveChildren, LiveUnder;
    forall x | x in db.thread
      ensures db.thread[x].replyCount ==
              |set r | r in db.thread && db.thread[r].parent == Some(x) && r in db.events && !db.events[r].deleted|
      ensures db.thread[x].descendantCount ==
              |set r | r in db.thread && db.thread[r].root == Some(x) && r in db.events && !db.events[r].deleted|
    {
      assert CountOk(db, x);
      LiveSets(db, x);
    }
  }

  ghost predicate NoRelayDoor(run: seq<Step>) {
    forall k :: 0 <= k < |run| ==> !run[k].op.RelayStore?
  }

  /**
   Drain completeness over runs: without the relay door, after every operation no parked reply has
   a stored parent and no event is both parked and stored.
   */
  lemma {:induction false} ReachableIsDrained(u: Universe, run: seq<Step>, db: Db)
    requires Authentic(u) && Reaches(u, run, db) && NoRelayDoor(run)
    ensures Drained(db)
    decreases |run|
  {
    if run != [] {
      var n := |run| - 1;
      var prev :| Reaches(u, run[..n], prev) && OpStep(u, prev, run[n].op, db, run[n].report);
      ReachableBase(u, run[..n], prev);
      ReachableIsDrained(u, run[..n], prev);
      match run[n].op
      case Ingest(ev, door, now) => IngestDrains(u, prev, ev, door, now, db, run[n].report.out);
      case _ =>
    }
  }
}
