/**
 Thread rows form a forest. Depth bounds and strict growth along parents hold in every reachable
 state (`Reachable`); when every event is `Plain`, depth is the exact distance to the recorded root.
 */
module Forest {
  import opened Options
  import opened Ids
  import opened Events
  import opened Tables
  import opened Engine
  import opened Attach
  import opened Reachable

  /** No cycles: depths lie in 1..100 for replies and strictly grow away from the root. */
  lemma ReachableForest(u: Universe, run: seq<Step>, db: Db, x: EventId)
    requires Authentic(u) && Reaches(u, run, db) && x in db.thread
    ensures db.thread[x].parent.None? ==> db.thread[x].depth == 0
    ensures db.thread[x].parent.Some? ==>
            var p := db.thread[x].parent.value;
            && 1 <= db.thread[x].depth <= 100
            && p in db.thread && db.thread[p].depth < db.thread[x].depth
            && x in db.events
  {
    ReachableBase(u, run, db);
    assert RowOk(u, db, x);
  }

  // ---- Plain events --------------------------------------------------------

  ghost predicate PlainOk(u: Universe, db: Db, id: EventId) {
    id in db.events || id in db.pending ==> Plain(u(id))
  }

  /** The depth of a stored event; without a thread row it is 0. */
  function Level(db: Db, id: EventId): int {
    if id in db.thread then db.thread[id].depth else 0
  }

  /** One level below the parent, in the parent's thread and channel. */
  predicate ExactRow(db: Db, x: EventId) {
    x in db.thread && db.thread[x].parent.Some? ==>
      var p := db.thread[x].parent.value;
      && p in db.thread
      && db.thread[x].depth == db.thread[p].depth + 1
      && db.thread[x].root == Some(db.thread[p].root.GetOr(p))
      && db.thread[x].channel.Some? && db.thread[x].channel == db.thread[p].channel
  }

  ghost predicate Exact(u: Universe, db: Db) {
    && Base(u, db)
    && (forall id :: PlainOk(u, db, id))
    && (forall x :: ExactRow(db, x))
  }

  /** With a plain parent the two ways of finding the ancestry agree. */
  lemma PlainAncestry(u: Universe, db: Db, ev: Event)
    requires Exact(u, db) && ev == u(ev.id) && IsReply(ev) && Resolve(db, ev).Resolved?
    ensures var r := Resolve(db, ev);
            if r.parent in db.thread
            then r.root == db.thread[r.parent].root.GetOr(r.parent) && r.depth == db.thread[r.parent].depth + 1
            else r.root == r.parent && r.depth == 1
    ensures Resolve(db, ev).root == Resolve(db, ev).parent || Resolve(db, ev).root in db.thread
  {
    ResolvedFacts(u, db, ev);
    var p := ParentOf(ev);
    assert EventOk(u, db, p) && PlainOk(u, db, p) && RowOk(u, db, p);
    if p !in db.thread { PlainRootsItself(u(p)); }
  }

  lemma AttachKeepsExact(u: Universe, db: Db, a: Attachment, db': Db)
    requires Exact(u, db) && a.ev == u(a.ev.id) && IsReply(a.ev) && InRange(a.ev) && Plain(a.ev) && Attached(db, a, db')
    requires Resolve(db, a.ev) == Resolved(a.parent, a.root, a.depth)
    ensures Exact(u, db')
  {
    AttachKeepsBase(u, db, a, db');
    ResolvedFacts(u, db, a.ev);
    PlainAncestry(u, db, a.ev);
    forall id ensures PlainOk(u, db', id) { assert PlainOk(u, db, id); }
    forall x ensures ExactRow(db', x) {
      if x in db'.thread {
        AttachedShape(db, a, db', x);
        assert ExactRow(db, x) && RowOk(u, db, a.parent) && EventOk(u, db, a.parent);
        if db'.thread[x].parent.Some? { AttachedShape(db, a, db', db'.thread[x].parent.value); }
      }
    }
  }

  /** Writes that leave every thread row's ancestry columns alone. */
  lemma SameShapeKeepsExact(u: Universe, db: Db, db': Db)
    requires Exact(u, db) && Base(u, db') && (forall id :: PlainOk(u, db', id))
    requires db'.thread.Keys == db.thread.Keys
    requires forall x :: x in db.thread ==>
      && db'.thread[x].parent == db.thread[x].parent && db'.thread[x].root == db.thread[x].root
      && db'.thread[x].depth == db.thread[x].depth && db'.thread[x].channel == db.thread[x].channel
    ensures Exact(u, db')
  {
    forall x ensures ExactRow(db', x) { assert ExactRow(db, x); }
  }

  lemma {:induction false} DeleteAllShape(u: Universe, db: Db, raws: seq<string>)
    requires Base(u, db)
    ensures var d := DeleteAll(db, raws).0;
            && d.thread.Keys == db.thread.Keys
            && forall x :: x in db.thread ==>
              && d.thread[x].parent == db.thread[x].parent && d.thread[x].root == db.thread[x].root
              && d.thread[x].depth == db.thread[x].depth && d.thread[x].channel == db.thread[x].channel
  {
    if raws != [] {
      var n := |raws| - 1;
      DeleteAllShape(u, db, raws[..n]);
      DeleteAllKeepsBase(u, db, raws[..n]);
      var d := DeleteAll(db, raws[..n]).0;
      if ParseId(raws[n]).Some? && Live(d, ParseId(raws[n]).value) { DeleteEffect(u, d, ParseId(raws[n]).value); }
    }
  }

  lemma FrontReplyKeepsExact(u: Universe, db: Db, ev: Event, door: Door, now: int)
    requires Exact(u, db) && ev == u(ev.id) && Plain(ev) && IsReply(ev) && ev.id !in db.events
    requires FrontReply(db, ev, door, now).ThenDrain?
    ensures Exact(u, FrontReply(db, ev, door, now).db)
  {
    FrontReplyKeepsBase(u, db, ev, door, now);
    ResolvedFacts(u, db, ev);
    var a := Attachment(ev, ParentOf(ev), RootHintOf(ev), Resolve(db, ev).depth, door, now);
    hide Exact, FrontReply, Attached;
    AttachKeepsExact(u, db, a, FrontReply(db, ev, door, now).db);
  }

  lemma FrontKeepsPlain(u: Universe, db: Db, ev: Event, door: Door, now: int)
    requires Exact(u, db) && ev == u(ev.id) && Plain(ev)
    ensures forall id :: PlainOk(u, IngestFront(db, ev, door, now).db, id)
  {
    FrontKeepsBase(u, db, ev, door, now);
    forall id ensures PlainOk(u, IngestFront(db, ev, door, now).db, id) { assert PlainOk(u, db, id); }
  }

  lemma FrontKeepsExact(u: Universe, db: Db, ev: Event, door: Door, now: int)
    requires Exact(u, db) && ev == u(ev.id) && Plain(ev)
    ensures Exact(u, IngestFront(db, ev, door, now).db)
  {
    var f := IngestFront(db, ev, door, now);
    if f.ThenDrain? && IsReply(ev) {
      FrontReplyKeepsExact(u, db, ev, door, now);
      hide Exact, FrontReply;
    } else {
      FrontKeepsBase(u, db, ev, door, now);
      FrontKeepsPlain(u, db, ev, door, now);
      if f.ThenDrain? { FrontShape(u, db, ev, door, now); }
      hide IngestFront, PlainOk;
      SameShapeKeepsExact(u, db, f.db);
    }
  }

  /** Storing anything but a reply leaves the ancestry columns of all thread rows alone. */
  lemma FrontShape(u: Universe, db: Db, ev: Event, door: Door, now: int)
    requires Base(u, db) && ev == u(ev.id) && !IsReply(ev) && IngestFront(db, ev, door, now).ThenDrain?
    ensures var d := IngestFront(db, ev, door, now).db;
            && d.thread.Keys == db.thread.Keys
            && forall x :: x in db.thread ==>
              && d.thread[x].parent == db.thread[x].parent && d.thread[x].root == db.thread[x].root
              && d.thread[x].depth == db.thread[x].depth && d.thread[x].channel == db.thread[x].channel
  {
    if IsDeletionKind(ev.kind) {
      InsertOther(u, db, ev);
      DeleteAllShape(u, InsertEventRow(db, ev).value, DeletionTargets(ev.tags));
    } else if ev.kind != KIND_REACTION && !IsThreadScoped(ev.kind) {
      DedupedEffect(u, db, ev);
    }
  }

  lemma StepKeepsExact(u: Universe, c: Cfg, c': Cfg, now: int)
    requires CfgOk(u, c) && Exact(u, c.db) && DrainStep(c, c', now)
    ensures CfgOk(u, c') && Exact(u, c'.db)
  {
    if c.batch == [] {
      PopKeepsCfg(u, c, c', now);
    } else {
      var ev := c.batch[0];
      TryKeepsCfg(u, c, c', now);
      MeetKeepsExact(u, c.db, ev, now, c'.db);
    }
  }

  lemma UnparkKeepsExact(u: Universe, db: Db, id: EventId)
    requires Exact(u, db)
    ensures Exact(u, Unpark(db, id))
  {
    var d := Unpark(db, id);
    UnparkKeepsBase(u, db, id);
    forall x ensures PlainOk(u, d, x) { assert PlainOk(u, db, x); }
    SameShapeKeepsExact(u, db, d);
  }

  lemma JoinKeepsExact(u: Universe, db: Db, ev: Event, now: int, db': Db)
    requires Exact(u, db) && Waiting(u, db, ev) && Meets(db, ev, now, db') && FateOf(db, ev, now).Joined?
    ensures Exact(u, db')
  {
    var d := Unpark(db, ev.id);
    UnparkKeepsExact(u, db, ev.id);
    assert PlainOk(u, db, ev.id);
    assert Resolve(d, ev) == Resolve(db, ev);
    AttachKeepsExact(u, d, FateOf(db, ev, now).a, db');
  }

  lemma MeetKeepsExact(u: Universe, db: Db, ev: Event, now: int, db': Db)
    requires Exact(u, db) && Waiting(u, db, ev) && Meets(db, ev, now, db')
    ensures Exact(u, db')
  {
    if FateOf(db, ev, now).Joined? {
      JoinKeepsExact(u, db, ev, now, db');
    } else {
      MeetsKeepsBase(u, db, ev, now, db');
      forall id ensures PlainOk(u, db', id) { assert PlainOk(u, db, id); }
      SameShapeKeepsExact(u, db, db');
    }
  }

  lemma {:induction false} DrainKeepsExact(u: Universe, c0: Cfg, c: Cfg, now: int, n: nat)
    requires CfgOk(u, c0) && Exact(u, c0.db) && DrainsTo(c0, c, now, n)
    ensures CfgOk(u, c) && Exact(u, c.db)
    decreases n
  {
    hide DrainStep, CfgOk, Exact;
    if n > 0 {
      var m :| DrainsTo(c0, m, now, n - 1) && DrainStep(m, c, now);
      DrainKeepsExact(u, c0, m, now, n - 1);
      StepKeepsExact(u, m, c, now);
    }
  }

  lemma IngestKeepsExact(u: Universe, db: Db, ev: Event, door: Door, now: int, db': Db, out: Outcome)
    requires Exact(u, db) && ev == u(ev.id) && Plain(ev) && Ingests(db, ev, door, now, db', out)
    ensures Exact(u, db')
  {
    FrontKeepsExact(u, db, ev, door, now);
    match IngestFront(db, ev, door, now)
    case Final(_, _) =>
    case ThenDrain(d, es) =>
      var c: Cfg, n: nat :| DrainsTo(DrainStart(d, ev.id, es), c, now, n) && DrainEnds(c, now, db, db', out);
      StartOk(u, db, ev, door, now);
      DrainKeepsExact(u, DrainStart(d, ev.id, es), c, now, n);
  }

  ghost predicate PlainRun(run: seq<Step>) {
    forall k :: 0 <= k < |run| ==>
      (run[k].op.Ingest? || run[k].op.RelayStore? ==> Plain(run[k].op.ev))
  }

  lemma OpKeepsExact(u: Universe, db: Db, op: Op, db': Db, rep: Report)
    requires Exact(u, db) && OpStep(u, db, op, db', rep)
    requires op.Ingest? || op.RelayStore? ==> Plain(op.ev)
    ensures Exact(u, db')
  {
    OpKeepsBase(u, db, op, db', rep);
    match op
    case Ingest(ev, door, now) => IngestKeepsExact(u, db, ev, door, now, db', rep.out);
    case RelayStore(ev) =>
      if ev.id !in db.events { DedupedEffect(u, db, ev); }
      forall id ensures PlainOk(u, db', id) { assert PlainOk(u, db, id); }
      SameShapeKeepsExact(u, db, db');
    case Reap(_) =>
      forall id ensures PlainOk(u, db', id) { assert PlainOk(u, db, id); }
      SameShapeKeepsExact(u, db, db');
  }

  lemma {:induction false} ReachableIsExact(u: Universe, run: seq<Step>, db: Db)
    requires Authentic(u) && Reaches(u, run, db) && PlainRun(run)
    ensures Exact(u, db)
    decreases |run|
  {
    if run == [] {
      ReachableBase(u, run, db);
    } else {
      var n := |run| - 1;
      var prev :| Reaches(u, run[..n], prev) && OpStep(u, prev, run[n].op, db, run[n].report);
      ReachableIsExact(u, run[..n], prev);
      OpKeepsExact(u, prev, run[n].op, db, run[n].report);
    }
  }

  /** The ancestor reached by following parents `k` times. */
  function Climb(db: Db, x: EventId, k: nat): EventId
    decreases k
  {
    if k == 0 || x !in db.thread || db.thread[x].parent.None? then x
    else Climb(db, db.thread[x].parent.value, k - 1)
  }

  /** Every ancestor on the way sits one level up, in the same channel, and is not yet the root. */
  lemma {:induction false} ClimbToRoot(u: Universe, db: Db, x: EventId, k: nat)
    requires Exact(u, db) && x in db.thread && k <= db.thread[x].depth
    ensures var y := Climb(db, x, k);
            && y in db.thread && db.thread[y].depth == db.thread[x].depth - k
            && (k > 0 ==> db.thread[y].channel == db.thread[x].channel && db.thread[x].channel.Some?)
            && (db.thread[y].parent.None? <==> k == db.thread[x].depth)
            && (k == db.thread[x].depth ==> y == db.thread[x].root.GetOr(x))
    decreases k
  {
    assert RowOk(u, db, x) && ExactRow(db, x);
    if k > 0 {
      var p := db.thread[x].parent.value;
      assert RowOk(u, db, p);
      ClimbToRoot(u, db, p, k - 1);
    }
  }

  /**
   Over every run of plain events: following parents exactly `depth` times from a reply reaches its
   recorded root, which has depth 0, and the whole chain shares one channel.
   */
  lemma ChainReachesRoot(u: Universe, run: seq<Step>, db: Db, x: EventId)
    requires Authentic(u) && Reaches(u, run, db) && PlainRun(run)
    requires x in db.thread && db.thread[x].parent.Some?
    ensures db.thread[x].depth >= 1 && db.thread[x].root == Some(Climb(db, x, db.thread[x].depth))
    ensures db.thread[x].root.value in db.thread && db.thread[db.thread[x].root.value].depth == 0
    ensures forall k: nat :: k <= db.thread[x].depth ==>
      Climb(db, x, k) in db.thread && db.thread[Climb(db, x, k)].channel == db.thread[x].channel
  {
    ReachableIsExact(u, run, db);
    assert RowOk(u, db, x);
    ClimbToRoot(u, db, x, db.thread[x].depth);
    forall k: nat | k <= db.thread[x].depth
      ensures Climb(db, x, k) in db.thread && db.thread[Climb(db, x, k)].channel == db.thread[x].channel
    {
      ClimbToRoot(u, db, x, k);
    }
  }

  // ---- what is not Plain ---------------------------------------------------

  /**
   Order dependence, exactly: attaching the first reply to a parent without a thread row changes
   what the next reply to that parent must name as its root and depth, unless the parent names no
   other root itself.
   */
  lemma FirstReplyDecides(u: Universe, db: Db, a: Attachment, db': Db)
    requires Base(u, db) && a.ev == u(a.ev.id) && IsReply(a.ev) && Attached(db, a, db')
    requires Resolve(db, a.ev) == Resolved(a.parent, a.root, a.depth) && a.parent !in db.thread
    ensures Ancestry(db', a.parent) == (a.parent, 1)
    ensures Ancestry(db', a.parent) == Ancestry(db, a.parent) <==> DeriveOwnRoot(u(a.parent).tags, a.parent) == a.parent
  {
    AttachedShape(db, a, db', a.parent);
    assert EventOk(u, db, a.parent);
  }

  /** Two replies that a parent's own markers would both admit: whichever comes second is refused. */
  lemma SecondReplyIsRefused(u: Universe, db: Db, a: Attachment, db': Db, other: Event)
    requires Base(u, db) && a.ev == u(a.ev.id) && IsReply(a.ev) && Attached(db, a, db')
    requires Resolve(db, a.ev) == Resolved(a.parent, a.root, a.depth) && a.parent !in db.thread && a.root != a.parent
    requires other == u(other.id) && IsReply(other) && other.id != a.ev.id
    requires ParentOf(other) == a.parent && RootHintOf(other) == a.root && Channel(other) == Channel(a.ev)
    ensures Resolve(db, other) == Resolved(a.parent, a.root, a.depth)
    ensures Resolve(db', other) == Mismatch(RootMismatch)
  {
    ResolvedFacts(u, db, a.ev);
    FirstReplyDecides(u, db, a, db');
    assert EventOk(u, db, a.parent);
  }

  // ---- without hard deletes ------------------------------------------------

  /** A run of plain events in which no operation removed a stored event. */
  ghost predicate ReachesKeeping(u: Universe, run: seq<Step>, db: Db) {
    if run == [] then db == EMPTY_DB else
      var n := |run| - 1;
      exists prev :: ReachesKeeping(u, run[..n], prev) && OpStep(u, prev, run[n].op, db, run[n].report)
                     && prev.events.Keys <= db.events.Keys
  }

  /** Every thread row still has its event. */
  predicate Rooted(db: Db) {
    db.thread.Keys <= db.events.Keys
  }

  lemma StepKeepsRooted(u: Universe, c: Cfg, c': Cfg, now: int)
    requires CfgOk(u, c) && Exact(u, c.db) && Rooted(c.db) && DrainStep(c, c', now)
    ensures Rooted(c'.db)
  {
    if c.batch != [] {
      var ev := c.batch[0];
      TryKeepsCfg(u, c, c', now);
      MeetKeepsRooted(u, c.db, ev, now, c'.db);
    }
  }

  lemma JoinKeepsRooted(u: Universe, db: Db, ev: Event, now: int, db': Db)
    requires Exact(u, db) && Rooted(db) && Waiting(u, db, ev) && Meets(db, ev, now, db')
    requires FateOf(db, ev, now).Joined?
    ensures Rooted(db')
  {
    PlainAncestry(u, db, ev);
    ResolvedFacts(u, db, ev);
    var a := FateOf(db, ev, now).a;
    assert a.parent == Resolve(db, ev).parent && a.root == Resolve(db, ev).root && a.ev == ev;
    hide Exact, Resolve, Attached, FateOf;
    AttachedMoves(Unpark(db, ev.id), a, db');
  }

  lemma MeetKeepsRooted(u: Universe, db: Db, ev: Event, now: int, db': Db)
    requires Exact(u, db) && Rooted(db) && Waiting(u, db, ev) && Meets(db, ev, now, db')
    ensures Rooted(db')
  {
    if FateOf(db, ev, now).Joined? { JoinKeepsRooted(u, db, ev, now, db'); }
    hide Exact, FateOf, Attached;
  }

  /** In a rooted plain state the drain gets stuck only on a timestamp that does not fit. */
  lemma StuckOnlyOnRange(u: Universe, c: Cfg, now: int)
    requires CfgOk(u, c) && Exact(u, c.db) && Rooted(c.db) && Stuck(c, now)
    ensures c.batch[0].id in c.db.pending && c.batch[0] == u(c.batch[0].id) && !InRange(c.batch[0])
  {
    var ev := c.batch[0];
    assert Waiting(u, c.db, ev);
    WaitingIsSettled(u, c.db, ev, now);
    if Resolve(c.db, ev).Resolved? { PlainAncestry(u, c.db, ev); ResolvedFacts(u, c.db, ev); }
  }

  /** The drain stores only parked replies, and the waiting room only empties. */
  ghost predicate Grows(u: Universe, c0: Cfg, c: Cfg) {
    && c.db.pending.Keys <= c0.db.pending.Keys
    && c0.db.events.Keys <= c.db.events.Keys
    && forall id :: id in c.db.events ==> id in c0.db.events || IsReply(u(id))
  }

  lemma {:induction false} DrainKeepsRooted(u: Universe, c0: Cfg, c: Cfg, now: int, n: nat)
    requires CfgOk(u, c0) && Exact(u, c0.db) && Rooted(c0.db) && DrainsTo(c0, c, now, n)
    ensures Rooted(c.db)
    decreases n
  {
    hide DrainStep, CfgOk, Exact, Rooted;
    if n > 0 {
      var m :| DrainsTo(c0, m, now, n - 1) && DrainStep(m, c, now);
      DrainKeepsExact(u, c0, m, now, n - 1);
      DrainKeepsRooted(u, c0, m, now, n - 1);
      StepKeepsRooted(u, m, c, now);
    }
  }

  lemma StepGrows(u: Universe, c0: Cfg, c: Cfg, c': Cfg, now: int)
    requires CfgOk(u, c) && Grows(u, c0, c) && DrainStep(c, c', now)
    ensures Grows(u, c0, c')
  {
    if c.batch != [] {
      TryKeepsCfg(u, c, c', now);
      MeetsKeepsBase(u, c.db, c.batch[0], now, c'.db);
    }
  }

  lemma {:induction false} DrainGrows(u: Universe, c0: Cfg, c: Cfg, now: int, n: nat)
    requires CfgOk(u, c0) && DrainsTo(c0, c, now, n)
    ensures Grows(u, c0, c)
    decreases n
  {
    hide DrainStep, CfgOk;
    if n > 0 {
      var m :| DrainsTo(c0, m, now, n - 1) && DrainStep(m, c, now);
      DrainKeepsCfg(u, c0, m, now, n - 1);
      DrainGrows(u, c0, m, now, n - 1);
      StepGrows(u, c0, m, c, now);
    }
  }

  /** Before the drain: rows lose their events only to a superseded replaceable event. */
  ghost predicate FrontRooted(u: Universe, db: Db, ev: Event, f: Front) {
    && f.db.thread.Keys <= f.db.events.Keys + db.events.Keys
    && (f.Final? && f.outcome.Failed? ==> !InRange(ev))
    && (forall id :: id in db.events && id !in f.db.events ==> IsReplaceable(u(id).kind))
  }

  lemma FrontReplyFailsOnRange(u: Universe, db: Db, ev: Event, door: Door, now: int)
    requires Exact(u, db) && Rooted(db) && ev == u(ev.id) && IsReply(ev) && ev.id !in db.events
    requires Resolve(db, ev).Resolved? && FrontReply(db, ev, door, now).Final?
    ensures !InRange(ev)
  {
    var a := Attachment(ev, ParentOf(ev), RootHintOf(ev), Resolve(db, ev).depth, door, now);
    ResolvedFacts(u, db, ev);
    PlainAncestry(u, db, ev);
    Unattached(u, db, ev.id);
    InsertReplyAttaches(db, a);
    hide Exact, Resolve, InsertReply;
  }

  lemma FrontReplyRoots(u: Universe, db: Db, ev: Event, door: Door, now: int)
    requires Exact(u, db) && Rooted(db) && ev == u(ev.id) && IsReply(ev) && ev.id !in db.events
    requires FrontReply(db, ev, door, now).ThenDrain?
    ensures Rooted(FrontReply(db, ev, door, now).db)
    ensures db.events.Keys <= FrontReply(db, ev, door, now).db.events.Keys
  {
    FrontReplyKeepsBase(u, db, ev, door, now);
    ResolvedFacts(u, db, ev);
    PlainAncestry(u, db, ev);
    var a := Attachment(ev, ParentOf(ev), RootHintOf(ev), Resolve(db, ev).depth, door, now);
    hide Exact, Resolve, FrontReply, Attached;
    AttachedMoves(db, a, FrontReply(db, ev, door, now).db);
  }

  lemma ShelvedRoots(u: Universe, db: Db, ev: Event, f: Front)
    requires Rooted(db) && f.Final? && f.db.events == db.events && f.db.thread == db.thread
    requires f.outcome.Failed? ==> !InRange(ev)
    ensures FrontRooted(u, db, ev, f)
  {
  }

  lemma FrontReplyKeepsRooted(u: Universe, db: Db, ev: Event, door: Door, now: int)
    requires Exact(u, db) && Rooted(db) && ev == u(ev.id) && IsReply(ev) && ev.id !in db.events
    ensures FrontRooted(u, db, ev, FrontReply(db, ev, door, now))
  {
    var f := FrontReply(db, ev, door, now);
    if f.ThenDrain? {
      FrontReplyRoots(u, db, ev, door, now);
      hide Exact, FrontReply;
    } else {
      FrontReplyKeepsBase(u, db, ev, door, now);
      if Resolve(db, ev).Resolved? { FrontReplyFailsOnRange(u, db, ev, door, now); }
      hide Exact, Resolve, InsertReply, FrontRooted, Rooted;
      ShelvedRoots(u, db, ev, f);
    }
  }

  lemma FrontOpaqueKeepsRooted(u: Universe, db: Db, ev: Event)
    requires Base(u, db) && Rooted(db) && ev == u(ev.id) && ev.id !in db.events && !IsThreadScoped(ev.kind)
    ensures FrontRooted(u, db, ev, FrontOpaque(db, ev))
  {
    DedupedEffect(u, db, ev);
    if IsReplaceable(ev.kind) { assert SlotOk(u, db, SlotOf(ev)); }
  }

  lemma FrontKeepsRooted(u: Universe, db: Db, ev: Event, door: Door, now: int)
    requires Exact(u, db) && Rooted(db) && ev == u(ev.id)
    ensures FrontRooted(u, db, ev, IngestFront(db, ev, door, now))
  {
    if ev.id in db.events || IsRelayAuthored(ev.kind) {
    } else if IsReply(ev) {
      FrontReplyKeepsRooted(u, db, ev, door, now);
    } else if IsDeletionKind(ev.kind) {
      if CanInsert(db, ev) {
        InsertOther(u, db, ev);
        DeleteAllKeepsBase(u, InsertEventRow(db, ev).value, DeletionTargets(ev.tags));
      }
    } else if ev.kind != KIND_REACTION && !IsThreadScoped(ev.kind) {
      FrontOpaqueKeepsRooted(u, db, ev);
    }
  }

  /** What a drain of rooted plain tables leaves, and the only way it fails. */
  lemma DrainEndsRooted(u: Universe, c0: Cfg, c: Cfg, now: int, n: nat)
    requires CfgOk(u, c0) && Exact(u, c0.db) && Rooted(c0.db) && DrainsTo(c0, c, now, n)
    ensures Rooted(c.db)
    ensures Stuck(c, now) ==> exists o :: o in c0.db.pending && !InRange(u(o))
  {
    DrainGrows(u, c0, c, now, n);
    DrainKeepsExact(u, c0, c, now, n);
    DrainKeepsRooted(u, c0, c, now, n);
    hide Exact, Rooted;
    if Stuck(c, now) { StuckOnlyOnRange(u, c, now); }
  }

  /** An event the front removed is replaceable, so no drain brings it back. */
  lemma GoneForGood(u: Universe, db: Db, ev: Event, f: Front, c: Cfg)
    requires FrontRooted(u, db, ev, f) && !Rooted(f.db) && f.ThenDrain?
    requires Grows(u, DrainStart(f.db, ev.id, f.emits), c)
    ensures !(db.events.Keys <= f.db.events.Keys) && !(db.events.Keys <= c.db.events.Keys)
  {
    var id :| id in f.db.thread && id !in f.db.events;
    assert id in db.events && id !in c.db.events;
  }

  lemma IngestKeepsRooted(u: Universe, db: Db, ev: Event, door: Door, now: int, db': Db, out: Outcome)
    requires Exact(u, db) && Rooted(db) && ev == u(ev.id) && Plain(ev) && Ingests(db, ev, door, now, db', out)
    ensures db.events.Keys <= db'.events.Keys ==> Rooted(db')
    ensures out.Failed? && db.events.Keys <= IngestFront(db, ev, door, now).db.events.Keys ==>
            !InRange(ev) || exists o :: o in db.pending && !InRange(u(o))
  {
    var f := IngestFront(db, ev, door, now);
    FrontKeepsRooted(u, db, ev, door, now);
    if f.Final? {
      hide Exact, IngestFront;
    } else {
      FrontKeepsExact(u, db, ev, door, now);
      FrontKeepsPending(u, db, ev, door, now);
      IngestStartOk(u, db, ev, door, now);
      var c0 := DrainStart(f.db, ev.id, f.emits);
      var c: Cfg, n: nat :| DrainsTo(c0, c, now, n) && DrainEnds(c, now, db, db', out);
      DrainGrows(u, c0, c, now, n);
      if Rooted(f.db) {
        DrainEndsRooted(u, c0, c, now, n);
      } else {
        GoneForGood(u, db, ev, f, c);
      }
      hide Exact, IngestFront, CfgOk, Stuck, FrontRooted, Grows, DrainsTo;
    }
  }

  lemma FrontKeepsPending(u: Universe, db: Db, ev: Event, door: Door, now: int)
    requires Exact(u, db) && ev == u(ev.id) && IngestFront(db, ev, door, now).ThenDrain?
    ensures IngestFront(db, ev, door, now).db.pending == db.pending
  {
    FrontKeepsBase(u, db, ev, door, now);
  }

  lemma IngestStartOk(u: Universe, db: Db, ev: Event, door: Door, now: int)
    requires Exact(u, db) && ev == u(ev.id) && IngestFront(db, ev, door, now).ThenDrain?
    ensures var f := IngestFront(db, ev, door, now); CfgOk(u, DrainStart(f.db, ev.id, f.emits))
  {
    StartOk(u, db, ev, door, now);
  }

  lemma {:induction false} KeepingIsRooted(u: Universe, run: seq<Step>, db: Db)
    requires Authentic(u) && ReachesKeeping(u, run, db) && PlainRun(run)
    ensures Reaches(u, run, db) && Exact(u, db) && Rooted(db)
    decreases |run|
  {
    if run != [] {
      var n := |run| - 1;
      var prev :| ReachesKeeping(u, run[..n], prev) && OpStep(u, prev, run[n].op, db, run[n].report)
                  && prev.events.Keys <= db.events.Keys;
      KeepingIsRooted(u, run[..n], prev);
      match run[n].op
      case Ingest(ev, door, now) => IngestKeepsRooted(u, prev, ev, door, now, db, run[n].report.out);
      case RelayStore(ev) => if ev.id !in prev.events { DedupedEffect(u, prev, ev); }
      case Reap(_) =>
    }
    ReachableIsExact(u, run, db);
  }

  /**
   Over every run of plain events without hard deletes, `insert_stub` never fails: an ingest that
   removes nothing errors only because its timestamp, or that of a reply parked under it, does not
   fit the column.
   */
  lemma StubsNeverFail(u: Universe, run: seq<Step>, db: Db, ev: Event, door: Door, now: int, db': Db, out: Outcome)
    requires Authentic(u) && ReachesKeeping(u, run, db) && PlainRun(run)
    requires ev == u(ev.id) && Plain(ev) && Ingests(db, ev, door, now, db', out)
    requires db.events.Keys <= IngestFront(db, ev, door, now).db.events.Keys
    ensures out.Failed? ==> !InRange(ev) || exists o :: o in db.pending && !InRange(u(o))
  {
    KeepingIsRooted(u, run, db);
    IngestKeepsRooted(u, db, ev, door, now, db', out);
  }
}
