/**
 The order in which SQLite returns sibling orphans does not matter. From one set of tables of plain
 events every drain of one parent ends alike: all runs of it fail, or all of them finish with the same
 tables and tell of the same threads. So an ingest has one outcome.
 */
module Confluence {
  import opened Options
  import opened Ids
  import opened Events
  import opened Tables
  import opened Engine
  import opened Attach
  import opened Reachable
  import opened Forest
  import opened Doors

  // ---- what decides about a reply ------------------------------------------

  /** Root and depth of a reply to `p`, with or without a thread row. */
  function AncOf(db: Db, p: EventId): (EventId, int) {
    if p in db.thread then (db.thread[p].root.GetOr(p), db.thread[p].depth + 1) else (p, 1)
  }

  predicate FitsUnder(u: Universe, id: EventId, anc: (EventId, int))
    requires IsReply(u(id))
  {
    var p := ParentOf(u(id));
    Channel(u(p)).Some? && Channel(u(p)) == Channel(u(id)) && anc.1 <= DEPTH_CAP && RootHintOf(u(id)) == anc.0
  }

  function Refusal(u: Universe, id: EventId, anc: (EventId, int)): Reason
    requires IsReply(u(id))
  {
    var p := ParentOf(u(id));
    if Channel(u(p)).None? then ParentHasNoChannel
    else if Channel(u(p)) != Channel(u(id)) then ParentInOtherChannel
    else if anc.1 > DEPTH_CAP then DepthLimitExceeded
    else RootMismatch
  }

  lemma ResolveByAnc(u: Universe, db: Db, id: EventId)
    requires Exact(u, db) && IsReply(u(id)) && ParentOf(u(id)) in db.events
    ensures var p := ParentOf(u(id)); var anc := AncOf(db, p);
            Resolve(db, u(id)) ==
            if FitsUnder(u, id, anc) then Resolved(p, anc.0, anc.1) else Mismatch(Refusal(u, id, anc))
  {
    var p := ParentOf(u(id));
    assert EventOk(u, db, p) && PlainOk(u, db, p) && RowOk(u, db, p);
    if p !in db.thread { PlainRootsItself(u(p)); }
  }

  /** The root of a plain thread is no reply. */
  lemma RootIsNoReply(u: Universe, db: Db, p: EventId)
    requires Exact(u, db) && p in db.events
    ensures !IsReply(u(AncOf(db, p).0))
  {
    assert EventOk(u, db, p) && RowOk(u, db, p);
    if p in db.thread {
      ClimbToRoot(u, db, p, db.thread[p].depth);
      assert RowOk(u, db, Climb(db, p, db.thread[p].depth));
    }
  }

  // ---- a drain's history ---------------------------------------------------

  /** Visited by the drain of `y`: `y` itself and whatever the drain has stored. */
  predicate Reached(d0: Db, db: Db, y: EventId, p: EventId) {
    p == y || (p in db.events && p !in d0.events)
  }

  predicate KeptOk(d0: Db, db: Db, id: EventId) {
    && (id in d0.events ==> id in db.events && db.events[id] == d0.events[id])
    && (id in db.pending ==> id in d0.pending && db.pending[id] == d0.pending[id])
    && (id in d0.thread ==> id in db.thread && db.thread[id].depth == d0.thread[id].depth)
  }

  /** What the drain stored was parked under something visited, and fits there. */
  ghost predicate JoinOk(u: Universe, d0: Db, y: EventId, db: Db, id: EventId) {
    id in db.events && id !in d0.events ==>
      && id in d0.pending && IsReply(u(id)) && db.events[id] == EventRow(u(id), Channel(u(id)), false)
      && Reached(d0, db, y, ParentOf(u(id))) && ParentOf(u(id)) in db.events && RootHintOf(u(id)) in db.events
      && FitsUnder(u, id, AncOf(db, ParentOf(u(id))))
  }

  predicate SetAside(d0: Db, db: Db, id: EventId) {
    id in d0.pending && id !in db.pending && id !in db.events
  }

  /** What it shelved did not fit; nothing else changed in the quarantine. */
  ghost predicate SetAsideOk(u: Universe, d0: Db, now: int, db: Db, id: EventId) {
    if SetAside(d0, db, id) then
      && IsReply(u(id)) && ParentOf(u(id)) in db.events
      && var anc := AncOf(db, ParentOf(u(id)));
         && !FitsUnder(u, id, anc)
         && id in db.quarantine && db.quarantine[id] == QuarantineRow(u(id), Refusal(u, id, anc), now)
    else
      && (id in db.quarantine <==> id in d0.quarantine)
      && (id in d0.quarantine ==> db.quarantine[id] == d0.quarantine[id])
  }

  ghost predicate DoneOk(u: Universe, d0: Db, y: EventId, db: Db, id: EventId) {
    id in d0.pending && id !in db.pending ==> IsReply(u(id)) && Reached(d0, db, y, ParentOf(u(id)))
  }

  /** Replies to `x` that the drain stored. */
  ghost function NewChildren(u: Universe, d0: Db, db: Db, x: EventId): set<EventId> {
    set r | r in db.events && r !in d0.events && IsReply(u(r)) && ParentOf(u(r)) == x
  }

  /** The running maximum of `base` and the timestamps in `s`. */
  ghost predicate LastOver(u: Universe, base: Option<int>, s: set<EventId>, last: Option<int>) {
    if s == {} then last == base
    else && last.Some? && base.GetOr(0) <= last.value
         && (forall r :: r in s ==> u(r).createdAt <= last.value)
         && (last.value == base.GetOr(0) || exists r :: r in s && u(r).createdAt == last.value)
  }

  function LastOf(db: Db, x: EventId): Option<int> {
    if x in db.thread then db.thread[x].lastReplyAt else None
  }

  ghost predicate LastOk(u: Universe, d0: Db, db: Db, x: EventId) {
    LastOver(u, LastOf(d0, x), NewChildren(u, d0, db, x), LastOf(db, x))
  }

  /** A reply the drain stored names `x` as its parent or root. */
  ghost predicate Touched(u: Universe, d0: Db, db: Db, x: EventId) {
    exists r :: r in db.events && r !in d0.events && IsReply(u(r)) && (ParentOf(u(r)) == x || RootHintOf(u(r)) == x)
  }

  /** New thread rows belong to what the drain stored. */
  ghost predicate NewRowOk(u: Universe, d0: Db, db: Db, x: EventId) {
    x in db.thread && x !in d0.thread ==> (x in db.events && x !in d0.events) || Touched(u, d0, db, x)
  }

  ghost predicate History(u: Universe, d0: Db, y: EventId, now: int, db: Db) {
    && Exact(u, db) && y in d0.events && db.slots == d0.slots
    && (forall id :: KeptOk(d0, db, id))
    && (forall id :: JoinOk(u, d0, y, db, id))
    && (forall id :: SetAsideOk(u, d0, now, db, id))
    && (forall id :: DoneOk(u, d0, y, db, id))
    && (forall x :: LastOk(u, d0, db, x))
    && (forall x :: NewRowOk(u, d0, db, x))
  }

  /** The work list: only visited ids, and every waiting child of a visited id is on it. */
  ghost predicate WorkOk(u: Universe, d0: Db, y: EventId, c: Cfg) {
    && (forall p :: p in c.stack ==> Reached(d0, c.db, y, p))
    && (forall e :: e in c.batch ==> IsReply(e) && Reached(d0, c.db, y, ParentOf(e)))
    && (forall o :: o in c.db.pending && Reached(d0, c.db, y, c.db.pending[o].parent) ==>
          c.db.pending[o].parent in c.stack || InBatch(c, o))
  }

  ghost predicate Announced(u: Universe, d0: Db, db: Db, es: seq<ThreadEmit>, t: ThreadEmit) {
    t in es || exists r :: r in db.events && r !in d0.events && IsReply(u(r)) && t == EmitFor(u(r), RootHintOf(u(r)))
  }

  ghost predicate EmitsOk(u: Universe, d0: Db, es: seq<ThreadEmit>, c: Cfg) {
    forall t :: t in c.emits <==> Announced(u, d0, c.db, es, t)
  }

  lemma StartsHistory(u: Universe, d0: Db, y: EventId, now: int, es: seq<ThreadEmit>)
    requires Exact(u, d0) && y in d0.events
    ensures History(u, d0, y, now, d0) && WorkOk(u, d0, y, DrainStart(d0, y, es))
            && EmitsOk(u, d0, es, DrainStart(d0, y, es))
  {
    forall x ensures LastOk(u, d0, d0, x) { assert NewChildren(u, d0, d0, x) == {}; }
  }

  // ---- one step ------------------------------------------------------------

  lemma AttachedAnc(d: Db, a: Attachment, db': Db, p: EventId)
    requires Attached(d, a, db') && p in d.events && p != a.ev.id
    ensures p in db'.events && db'.events[p] == d.events[p] && AncOf(db', p) == AncOf(d, p)
  {
    if p in db'.thread { AttachedShape(d, a, db', p); }
  }

  lemma AncStays(u: Universe, db: Db, e: Event, now: int, db': Db, p: EventId)
    requires Exact(u, db) && Waiting(u, db, e) && Meets(db, e, now, db') && p in db.events
    ensures p in db'.events && db'.events[p] == db.events[p] && AncOf(db', p) == AncOf(db, p)
  {
    hide Exact, Attached, Resolve;
    if FateOf(db, e, now).Joined? {
      JoinedIsEvent(db, e, now);
      assert e.id !in db.events;
      AttachedAnc(Unpark(db, e.id), FateOf(db, e, now).a, db', p);
    }
  }

  lemma FateByAnc(u: Universe, db: Db, e: Event, now: int)
    requires Exact(u, db) && Waiting(u, db, e) && e.id !in db.events
    ensures var p := ParentOf(e); var anc := AncOf(db, p); var fate := FateOf(db, e, now);
            && (fate.Joined? ==> FitsUnder(u, e.id, anc) && fate.a == Attachment(e, p, anc.0, anc.1, Mesh, now))
            && (fate.Shelved? ==> !FitsUnder(u, e.id, anc) && fate.reason == Refusal(u, e.id, anc))
            && (fate == Broken ==> FitsUnder(u, e.id, anc) && !(InRange(e) && (anc.0 == e.id || anc.0 in db.events)))
  {
    ResolveByAnc(u, db, e.id);
    hide Exact, FitsUnder, Refusal, Resolve;
  }

  lemma JoinsAt(u: Universe, db: Db, e: Event, now: int, db': Db)
    requires Exact(u, db) && Waiting(u, db, e) && Meets(db, e, now, db') && FateOf(db, e, now).Joined?
    ensures e.id !in db.events && Unpark(db, e.id).pending == db'.pending
    ensures FitsUnder(u, e.id, AncOf(db, ParentOf(e)))
    ensures Attached(Unpark(db, e.id), FateOf(db, e, now).a, db') && FateOf(db, e, now).a.parent == ParentOf(e)
    ensures FateOf(db, e, now).a.ev == e && FateOf(db, e, now).a.root == RootHintOf(e)
            && FateOf(db, e, now).a.door == Mesh
    ensures db'.events == db.events[e.id := EventRow(e, Channel(e), false)] && RootHintOf(e) in db.events
    ensures db'.quarantine == db.quarantine && db'.slots == db.slots
    ensures db'.thread.Keys == db.thread.Keys + {e.id, ParentOf(e), RootHintOf(e)}
  {
    assert e.id !in db.events;
    FateByAnc(u, db, e, now);
    RootIsNoReply(u, db, ParentOf(e));
    AttachedMoves(Unpark(db, e.id), FateOf(db, e, now).a, db');
    hide Exact, Attached, Meets, Resolve;
  }

  lemma HistoryAt(u: Universe, d0: Db, y: EventId, now: int, db: Db, id: EventId)
    requires History(u, d0, y, now, db)
    ensures KeptOk(d0, db, id) && JoinOk(u, d0, y, db, id) && SetAsideOk(u, d0, now, db, id) && DoneOk(u, d0, y, db, id)
    ensures LastOk(u, d0, db, id) && NewRowOk(u, d0, db, id) && Exact(u, db)
  {
  }

  lemma DepthStays(u: Universe, db: Db, e: Event, now: int, db': Db, x: EventId)
    requires Exact(u, db) && Waiting(u, db, e) && Meets(db, e, now, db') && FateOf(db, e, now).Joined? && x in db.thread
    ensures x in db'.thread && db'.thread[x].depth == db.thread[x].depth
  {
    hide Exact, Resolve;
    JoinedIsEvent(db, e, now);
    var d, a := Unpark(db, e.id), FateOf(db, e, now).a;
    AttachedMoves(d, a, db');
    UnstoredHasNoRow(u, db, e, now);
    AttachedShape(d, a, db', x);
  }

  lemma UnstoredHasNoRow(u: Universe, db: Db, e: Event, now: int)
    requires Exact(u, db) && Waiting(u, db, e) && FateOf(db, e, now).Joined?
    ensures e.id !in db.thread
  {
    Unattached(u, db, e.id);
  }

  /** Storing a parked reply under something visited. */
  lemma JoinKeepsIds(u: Universe, d0: Db, y: EventId, now: int, db: Db, e: Event, db': Db, id: EventId)
    requires History(u, d0, y, now, db) && Waiting(u, db, e) && Meets(db, e, now, db') && FateOf(db, e, now).Joined?
    requires Reached(d0, db, y, ParentOf(e))
    ensures KeptOk(d0, db', id) && JoinOk(u, d0, y, db', id) && DoneOk(u, d0, y, db', id)
    ensures SetAsideOk(u, d0, now, db', id)
  {
    hide History, Exact, Meets, Attached, FateOf, FitsUnder, Refusal, AncOf;
    HistoryAt(u, d0, y, now, db, id);
    HistoryAt(u, d0, y, now, db, e.id);
    JoinsAt(u, db, e, now, db');
    AncStays(u, db, e, now, db', ParentOf(e));
    if IsReply(u(id)) && ParentOf(u(id)) in db.events { AncStays(u, db, e, now, db', ParentOf(u(id))); }
    if id in db.thread { DepthStays(u, db, e, now, db', id); }
  }

  lemma JoinKeepsRows(u: Universe, d0: Db, y: EventId, now: int, db: Db, e: Event, db': Db, x: EventId)
    requires History(u, d0, y, now, db) && Waiting(u, db, e) && Meets(db, e, now, db') && FateOf(db, e, now).Joined?
    ensures NewRowOk(u, d0, db', x)
  {
    assert NewRowOk(u, d0, db, x) && KeptOk(d0, db, e.id) && KeptOk(d0, db, x);
    JoinsAt(u, db, e, now, db');
    hide Exact, Meets, Attached, FateOf, FitsUnder, History;
    assert e.id !in d0.events;
    if Touched(u, d0, db, x) {
      var r :| r in db.events && r !in d0.events && IsReply(u(r)) && (ParentOf(u(r)) == x || RootHintOf(u(r)) == x);
      assert r in db'.events;
    }
  }

  lemma JoinKeepsLast(u: Universe, d0: Db, y: EventId, now: int, db: Db, e: Event, db': Db, x: EventId)
    requires History(u, d0, y, now, db) && Waiting(u, db, e) && Meets(db, e, now, db') && FateOf(db, e, now).Joined?
    ensures LastOk(u, d0, db', x)
  {
    assert LastOk(u, d0, db, x) && KeptOk(d0, db, e.id);
    JoinsAt(u, db, e, now, db');
    LastMoves(u, db, e, now, db', x);
    assert e.id !in d0.events;
    hide Exact, Meets, Attached, FateOf, FitsUnder, History, LastOf;
    var was := NewChildren(u, d0, db, x);
    if x == ParentOf(e) {
      assert NewChildren(u, d0, db', x) == was + {e.id};
      LastOverGrows(u, LastOf(d0, x), was, LastOf(db, x), e.id);
    } else {
      assert NewChildren(u, d0, db', x) == was;
    }
  }

  lemma LastMoves(u: Universe, db: Db, e: Event, now: int, db': Db, x: EventId)
    requires Exact(u, db) && Waiting(u, db, e) && Meets(db, e, now, db') && FateOf(db, e, now).Joined?
    ensures LastOf(db', x) == if x == ParentOf(e) then Some(Max(LastOf(db, x).GetOr(0), e.createdAt)) else LastOf(db, x)
  {
    JoinsAt(u, db, e, now, db');
    Unattached(u, db, e.id);
    var d, a := Unpark(db, e.id), FateOf(db, e, now).a;
    hide Exact, Meets, FateOf, FitsUnder;
    if x in db'.thread { assert db'.thread[x] == RowAttached(d, a, x); }
  }

  lemma LastOverGrows(u: Universe, base: Option<int>, s: set<EventId>, last: Option<int>, id: EventId)
    requires LastOver(u, base, s, last)
    ensures LastOver(u, base, s + {id}, Some(Max(last.GetOr(0), u(id).createdAt)))
  {
    var top := Max(last.GetOr(0), u(id).createdAt);
    if top == u(id).createdAt {
      assert id in s + {id};
    } else if s != {} && last.value != base.GetOr(0) {
      var r :| r in s && u(r).createdAt == last.value;
      assert r in s + {id};
    }
  }

  lemma JoinKeepsHistory(u: Universe, d0: Db, y: EventId, now: int, db: Db, e: Event, db': Db)
    requires History(u, d0, y, now, db) && Waiting(u, db, e) && Meets(db, e, now, db') && FateOf(db, e, now).Joined?
    requires Reached(d0, db, y, ParentOf(e))
    ensures History(u, d0, y, now, db')
  {
    MeetKeepsExact(u, db, e, now, db');
    JoinsAt(u, db, e, now, db');
    forall id
      ensures KeptOk(d0, db', id) && JoinOk(u, d0, y, db', id) && DoneOk(u, d0, y, db', id)
      ensures SetAsideOk(u, d0, now, db', id)
    {
      JoinKeepsIds(u, d0, y, now, db, e, db', id);
    }
    forall x ensures LastOk(u, d0, db', x) && NewRowOk(u, d0, db', x) {
      JoinKeepsLast(u, d0, y, now, db, e, db', x);
      JoinKeepsRows(u, d0, y, now, db, e, db', x);
    }
    hide Exact, Meets, Attached, FateOf, FitsUnder, KeptOk, JoinOk, DoneOk, SetAsideOk, LastOk, NewRowOk;
  }

  /** Shelving a parked reply, or dropping one that is stored already. */
  lemma ShelveKeepsIds(u: Universe, d0: Db, y: EventId, now: int, db: Db, e: Event, db': Db, id: EventId)
    requires History(u, d0, y, now, db) && Waiting(u, db, e) && Meets(db, e, now, db') && !FateOf(db, e, now).Joined?
    requires Reached(d0, db, y, ParentOf(e))
    ensures KeptOk(d0, db', id) && JoinOk(u, d0, y, db', id) && DoneOk(u, d0, y, db', id)
    ensures SetAsideOk(u, d0, now, db', id)
  {
    hide History, Exact, FitsUnder, Refusal, Resolve, AncOf;
    HistoryAt(u, d0, y, now, db, id);
    HistoryAt(u, d0, y, now, db, e.id);
    if e.id !in db.events { FateByAnc(u, db, e, now); }
    ShelveMoves(u, db, e, now, db');
    SameAnc(db, db');
    hide FateOf, Meets;
  }

  lemma SameAnc(db: Db, db': Db)
    requires db'.thread == db.thread
    ensures forall p :: AncOf(db', p) == AncOf(db, p)
  {
  }

  lemma ShelveMoves(u: Universe, db: Db, e: Event, now: int, db': Db)
    requires Waiting(u, db, e) && Meets(db, e, now, db') && !FateOf(db, e, now).Joined?
    ensures db'.events == db.events && db'.thread == db.thread && db'.slots == db.slots
    ensures db'.pending == db.pending - {e.id}
    ensures FateOf(db, e, now).Shelved? <==> e.id !in db.events
    ensures db'.quarantine == if e.id in db.events then db.quarantine
                              else db.quarantine[e.id := QuarantineRow(e, FateOf(db, e, now).reason, now)]
  {
    hide Resolve;
  }

  lemma ShelveKeepsHistory(u: Universe, d0: Db, y: EventId, now: int, db: Db, e: Event, db': Db)
    requires History(u, d0, y, now, db) && Waiting(u, db, e) && Meets(db, e, now, db') && !FateOf(db, e, now).Joined?
    requires Reached(d0, db, y, ParentOf(e))
    ensures History(u, d0, y, now, db') && db'.events == db.events
  {
    hide History, Exact, Meets, FateOf, KeptOk, JoinOk, DoneOk, SetAsideOk;
    HistoryAt(u, d0, y, now, db, y);
    MeetKeepsExact(u, db, e, now, db');
    ShelveMoves(u, db, e, now, db');
    forall id
      ensures KeptOk(d0, db', id) && JoinOk(u, d0, y, db', id) && DoneOk(u, d0, y, db', id)
      ensures SetAsideOk(u, d0, now, db', id)
      ensures LastOk(u, d0, db', id) && NewRowOk(u, d0, db', id)
    {
      ShelveKeepsIds(u, d0, y, now, db, e, db', id);
      HistoryAt(u, d0, y, now, db, id);
      SameUnderEvents(u, d0, db, db', id);
    }
    hide LastOk, NewRowOk;
    HistoryHolds(u, d0, y, now, db, db');
  }

  lemma SameUnderEvents(u: Universe, d0: Db, db: Db, db': Db, x: EventId)
    requires db'.events == db.events
    ensures NewChildren(u, d0, db', x) == NewChildren(u, d0, db, x)
    ensures Touched(u, d0, db', x) == Touched(u, d0, db, x)
  {
  }

  lemma HistoryHolds(u: Universe, d0: Db, y: EventId, now: int, db: Db, db': Db)
    requires History(u, d0, y, now, db) && Exact(u, db') && db'.slots == db.slots
    requires forall id :: KeptOk(d0, db', id) && JoinOk(u, d0, y, db', id)
    requires forall id :: SetAsideOk(u, d0, now, db', id) && DoneOk(u, d0, y, db', id)
    requires forall id :: LastOk(u, d0, db', id) && NewRowOk(u, d0, db', id)
    ensures History(u, d0, y, now, db')
  {
    hide Exact, KeptOk, JoinOk, DoneOk, SetAsideOk, LastOk, NewRowOk;
  }

  lemma TryKeepsHistory(u: Universe, d0: Db, y: EventId, now: int, c: Cfg, c': Cfg)
    requires CfgOk(u, c) && History(u, d0, y, now, c.db) && WorkOk(u, d0, y, c)
    requires c.batch != [] && DrainStep(c, c', now)
    ensures History(u, d0, y, now, c'.db)
  {
    var e := c.batch[0];
    TryKeepsCfg(u, c, c', now);
    assert e in c.batch;
    hide CfgOk, History, Meets, DrainStep, Exact;
    if FateOf(c.db, e, now).Joined? {
      JoinKeepsHistory(u, d0, y, now, c.db, e, c'.db);
    } else {
      ShelveKeepsHistory(u, d0, y, now, c.db, e, c'.db);
    }
  }

  /** What one try does to the work list and the emits. */
  lemma TryMoves(u: Universe, c: Cfg, c': Cfg, now: int)
    requires CfgOk(u, c) && Exact(u, c.db) && c.batch != [] && DrainStep(c, c', now)
    ensures Waiting(u, c.db, c.batch[0])
    ensures var e := c.batch[0]; var joins := FateOf(c.db, e, now).Joined?;
            && c'.batch == c.batch[1..] && c'.db.pending == c.db.pending - {e.id}
            && c'.db.events.Keys == c.db.events.Keys + (if joins then {e.id} else {})
            && c'.stack == c.stack + (if joins then [e.id] else [])
            && c'.emits == c.emits + (if joins then [EmitFor(e, RootHintOf(e))] else [])
  {
    var e := c.batch[0];
    TryKeepsCfg(u, c, c', now);
    WaitingIsSettled(u, c.db, e, now);
    MeetsMoves(c.db, e, now, c'.db);
    if FateOf(c.db, e, now).Joined? { JoinsAt(u, c.db, e, now, c'.db); }
    hide Exact, Meets, FateOf, Attached, CfgOk;
  }

  lemma TryKeepsWork(u: Universe, d0: Db, y: EventId, es: seq<ThreadEmit>, c: Cfg, c': Cfg, now: int)
    requires CfgOk(u, c) && Exact(u, c.db) && WorkOk(u, d0, y, c) && EmitsOk(u, d0, es, c)
    requires c.batch != [] && DrainStep(c, c', now) && d0.events.Keys <= c.db.events.Keys
    ensures WorkOk(u, d0, y, c')
    ensures EmitsOk(u, d0, es, c')
  {
    var e := c.batch[0];
    TryMoves(u, c, c', now);
    hide CfgOk, Exact, DrainStep, FateOf, EmitFor;
    forall o | o in c'.db.pending && Reached(d0, c'.db, y, c'.db.pending[o].parent)
      ensures c'.db.pending[o].parent in c'.stack || InBatch(c', o)
    {
      if Reached(d0, c.db, y, c.db.pending[o].parent) && InBatch(c, o) {
        var i :| 0 <= i < |c.batch| && c.batch[i].id == o;
        assert c'.batch[i - 1].id == o;
      }
    }
    forall x | x in c'.batch ensures IsReply(x) && Reached(d0, c'.db, y, ParentOf(x)) { assert x in c.batch; }
    forall t ensures t in c'.emits <==> Announced(u, d0, c'.db, es, t) { TryAnnounces(u, d0, es, c, c', now, t); }
  }

  lemma TryAnnounces(u: Universe, d0: Db, es: seq<ThreadEmit>, c: Cfg, c': Cfg, now: int, t: ThreadEmit)
    requires CfgOk(u, c) && Exact(u, c.db) && EmitsOk(u, d0, es, c)
    requires c.batch != [] && DrainStep(c, c', now) && d0.events.Keys <= c.db.events.Keys
    ensures t in c'.emits <==> Announced(u, d0, c'.db, es, t)
  {
    var e := c.batch[0];
    TryMoves(u, c, c', now);
    if FateOf(c.db, e, now).Joined? { JoinsNew(u, c.db, e, now); }
    hide CfgOk, Exact, DrainStep, FateOf, EmitFor;
    assert t in c.emits <==> Announced(u, d0, c.db, es, t);
    if r :| r in c.db.events && r !in d0.events && IsReply(u(r)) && t == EmitFor(u(r), RootHintOf(u(r))) {
      assert r in c'.db.events;
    }
  }

  lemma JoinsNew(u: Universe, db: Db, e: Event, now: int)
    requires IsReply(e) && FateOf(db, e, now).Joined?
    ensures e.id !in db.events
  {
  }

  lemma PopKeepsWork(u: Universe, d0: Db, y: EventId, es: seq<ThreadEmit>, c: Cfg, c': Cfg, now: int)
    requires CfgOk(u, c) && WorkOk(u, d0, y, c) && EmitsOk(u, d0, es, c) && c.batch == [] && DrainStep(c, c', now)
    ensures WorkOk(u, d0, y, c') && EmitsOk(u, d0, es, c')
  {
    var last := c.stack[|c.stack| - 1];
    assert last in c.stack;
    forall e | e in c'.batch ensures IsReply(e) && Reached(d0, c'.db, y, ParentOf(e)) {
      assert PendingOk(u, c.db, e.id);
    }
    forall o | o in c'.db.pending && Reached(d0, c'.db, y, c'.db.pending[o].parent)
      ensures c'.db.pending[o].parent in c'.stack || InBatch(c', o)
    {
      if c'.db.pending[o].parent == last {
        assert PendingOk(u, c.db, o) && u(o) in c'.batch;
        var k :| 0 <= k < |c'.batch| && c'.batch[k] == u(o);
      }
    }
    forall t ensures t in c'.emits <==> Announced(u, d0, c'.db, es, t) {
      assert t in c.emits <==> Announced(u, d0, c.db, es, t);
    }
  }

  lemma HistoryFacts(u: Universe, d0: Db, y: EventId, now: int, db: Db)
    requires History(u, d0, y, now, db)
    ensures Exact(u, db) && d0.events.Keys <= db.events.Keys
  {
    forall id | id in d0.events ensures id in db.events { assert KeptOk(d0, db, id); }
  }

  lemma {:induction false} DrainKeepsHistory(u: Universe, d0: Db, y: EventId, es: seq<ThreadEmit>, c: Cfg, now: int,
        n: nat)
    requires CfgOk(u, DrainStart(d0, y, es)) && Exact(u, d0) && DrainsTo(DrainStart(d0, y, es), c, now, n)
    ensures CfgOk(u, c) && History(u, d0, y, now, c.db) && WorkOk(u, d0, y, c) && EmitsOk(u, d0, es, c)
    decreases n
  {
    hide DrainStep, CfgOk, Exact, History, WorkOk, EmitsOk, Base;
    var c0 := DrainStart(d0, y, es);
    if n == 0 {
      StartIsStored(u, d0, y, es);
      StartsHistory(u, d0, y, now, es);
    } else {
      var m :| DrainsTo(c0, m, now, n - 1) && DrainStep(m, c, now);
      DrainKeepsHistory(u, d0, y, es, m, now, n - 1);
      HistoryFacts(u, d0, y, now, m.db);
      DrainKeepsCfg(u, c0, c, now, n);
      StepKeepsHistory(u, d0, y, es, m, c, now);
    }
  }

  lemma StartIsStored(u: Universe, d0: Db, y: EventId, es: seq<ThreadEmit>)
    requires CfgOk(u, DrainStart(d0, y, es))
    ensures y in d0.events
  {
    assert y in DrainStart(d0, y, es).stack;
  }

  lemma StepKeepsHistory(u: Universe, d0: Db, y: EventId, es: seq<ThreadEmit>, c: Cfg, c': Cfg, now: int)
    requires CfgOk(u, c) && Exact(u, c.db) && History(u, d0, y, now, c.db) && WorkOk(u, d0, y, c)
             && EmitsOk(u, d0, es, c)
    requires d0.events.Keys <= c.db.events.Keys && DrainStep(c, c', now)
    ensures History(u, d0, y, now, c'.db) && WorkOk(u, d0, y, c') && EmitsOk(u, d0, es, c')
  {
    hide DrainStep, CfgOk, Exact, History, WorkOk, EmitsOk;
    if c.batch == [] {
      PopKeepsWork(u, d0, y, es, c, c', now);
      PopKeepsDb(c, c', now);
    } else {
      TryKeepsHistory(u, d0, y, now, c, c');
      TryKeepsWork(u, d0, y, es, c, c', now);
    }
  }

  lemma PopKeepsDb(c: Cfg, c': Cfg, now: int)
    requires c.batch == [] && DrainStep(c, c', now)
    ensures c'.db == c.db
  {
  }

  // ---- two drains of the same tables ---------------------------------------

  lemma AncByLevel(u: Universe, db: Db, p: EventId)
    requires Exact(u, db) && p in db.events
    ensures AncOf(db, p) == (if IsReply(u(p)) then RootHintOf(u(p)) else p, Level(db, p) + 1)
  {
    assert EventOk(u, db, p) && RowOk(u, db, p);
  }

  lemma LevelOfReply(u: Universe, db: Db, id: EventId)
    requires Exact(u, db) && id in db.events && IsReply(u(id))
    ensures Level(db, id) == Level(db, ParentOf(u(id))) + 1 && Level(db, id) >= 1
  {
    assert EventOk(u, db, id) && RowOk(u, db, id) && ExactRow(db, id);
  }

  lemma JoinedUnder(u: Universe, d0: Db, y: EventId, now: int, db: Db, id: EventId)
    requires History(u, d0, y, now, db) && id in db.events && id !in d0.events
    ensures id in d0.pending && IsReply(u(id)) && Reached(d0, db, y, ParentOf(u(id))) && ParentOf(u(id)) in db.events
    ensures FitsUnder(u, id, AncOf(db, ParentOf(u(id)))) && db.events[id] == EventRow(u(id), Channel(u(id)), false)
  {
    assert JoinOk(u, d0, y, db, id);
  }

  /** A finished drain has dealt with every orphan of what it visited, as its ancestry demands. */
  lemma FinishedDecides(u: Universe, d0: Db, y: EventId, now: int, c: Cfg, id: EventId)
    requires Base(u, d0) && History(u, d0, y, now, c.db) && WorkOk(u, d0, y, c) && Finished(c)
    requires id in d0.pending && IsReply(u(id)) && Reached(d0, c.db, y, ParentOf(u(id)))
    ensures id !in c.db.pending
    ensures id !in c.db.events ==>
            && ParentOf(u(id)) in c.db.events
            && !FitsUnder(u, id, AncOf(c.db, ParentOf(u(id))))
  {
    assert PendingOk(u, d0, id) && KeptOk(d0, c.db, id) && SetAsideOk(u, d0, now, c.db, id);
  }

  /** Whatever one drain visited, a finished drain visited too, at the same level. */
  lemma {:induction false} VisitedByBoth(u: Universe, d0: Db, y: EventId, now: int, a: Db, c: Cfg, id: EventId)
    requires Base(u, d0) && History(u, d0, y, now, a)
    requires History(u, d0, y, now, c.db) && WorkOk(u, d0, y, c) && Finished(c)
    requires Reached(d0, a, y, id)
    ensures Reached(d0, c.db, y, id) && id in a.events && id in c.db.events && Level(a, id) == Level(c.db, id)
    decreases Level(a, id)
  {
    HistoryFacts(u, d0, y, now, a);
    HistoryFacts(u, d0, y, now, c.db);
    if id in d0.events {
      KeptLevel(u, d0, y, now, a, id);
      KeptLevel(u, d0, y, now, c.db, id);
      YIsKept(u, d0, y, now, a);
    } else {
      YIsKept(u, d0, y, now, a);
      JoinedUnder(u, d0, y, now, a, id);
      var p := ParentOf(u(id));
      LevelOfReply(u, a, id);
      hide History, Exact, WorkOk, Base, FitsUnder, AncOf, Level;
      VisitedByBoth(u, d0, y, now, a, c, p);
      FinishedDecides(u, d0, y, now, c, id);
      AncByLevel(u, a, p);
      AncByLevel(u, c.db, p);
      LevelOfReply(u, c.db, id);
    }
  }

  lemma YIsKept(u: Universe, d0: Db, y: EventId, now: int, db: Db)
    requires History(u, d0, y, now, db)
    ensures y in d0.events
  {
  }

  lemma KeptLevel(u: Universe, d0: Db, y: EventId, now: int, db: Db, id: EventId)
    requires Base(u, d0) && History(u, d0, y, now, db) && id in d0.events
    ensures id in db.events && Level(db, id) == Level(d0, id)
  {
    assert KeptOk(d0, db, id) && EventOk(u, d0, id) && RowOk(u, db, id);
    hide History, Exact, Base;
  }

  // ---- one outcome ---------------------------------------------------------

  /** When one drain finishes, no other gets stuck. */
  lemma NotOneStuck(u: Universe, d0: Db, y: EventId, now: int, a: Cfg, c: Cfg)
    requires Base(u, d0) && CfgOk(u, a) && History(u, d0, y, now, a.db) && WorkOk(u, d0, y, a)
    requires History(u, d0, y, now, c.db) && WorkOk(u, d0, y, c) && Finished(c)
    ensures !Stuck(a, now)
  {
    if a.batch != [] {
      var e := a.batch[0];
      assert Waiting(u, a.db, e) && e in a.batch;
      WaitsForBoth(u, d0, y, now, a.db, c, e);
      TryDoesNotFail(u, d0, y, now, a.db, c, e);
    }
  }

  /** A reply one drain is about to try was dealt with by the finished drain, on the same ancestry. */
  lemma WaitsForBoth(u: Universe, d0: Db, y: EventId, now: int, a: Db, c: Cfg, e: Event)
    requires Base(u, d0) && History(u, d0, y, now, a) && Waiting(u, a, e) && Reached(d0, a, y, ParentOf(e))
    requires History(u, d0, y, now, c.db) && WorkOk(u, d0, y, c) && Finished(c)
    ensures ParentOf(e) in c.db.events && AncOf(a, ParentOf(e)) == AncOf(c.db, ParentOf(e))
    ensures e.id !in c.db.events ==> !FitsUnder(u, e.id, AncOf(a, ParentOf(e)))
  {
    HistoryFacts(u, d0, y, now, a);
    HistoryFacts(u, d0, y, now, c.db);
    assert KeptOk(d0, a, e.id);
    hide History, WorkOk, Base, Exact, FitsUnder, AncOf, Level;
    VisitedByBoth(u, d0, y, now, a, c, ParentOf(e));
    AncByLevel(u, a, ParentOf(e));
    AncByLevel(u, c.db, ParentOf(e));
    FinishedDecides(u, d0, y, now, c, e.id);
  }

  lemma TryDoesNotFail(u: Universe, d0: Db, y: EventId, now: int, a: Db, c: Cfg, e: Event)
    requires Base(u, d0) && History(u, d0, y, now, a) && Waiting(u, a, e)
    requires History(u, d0, y, now, c.db) && Finished(c)
    requires ParentOf(e) in c.db.events && AncOf(a, ParentOf(e)) == AncOf(c.db, ParentOf(e))
    requires e.id !in c.db.events ==> !FitsUnder(u, e.id, AncOf(a, ParentOf(e)))
    ensures TryAttach(a, e, now).Ok?
  {
    HistoryFacts(u, d0, y, now, a);
    HistoryFacts(u, d0, y, now, c.db);
    WaitingIsSettled(u, a, e, now);
    if e.id !in a.events {
      FateByAnc(u, a, e, now);
      if FitsUnder(u, e.id, AncOf(a, ParentOf(e))) { RootStored(u, d0, y, now, a, c.db, e); }
    }
    hide History, Exact, FitsUnder, AncOf, Resolve, TryAttach;
  }

  /** A reply some drain of these tables has stored is in range, and its root was stored all along. */
  lemma RootStored(u: Universe, d0: Db, y: EventId, now: int, a: Db, db: Db, e: Event)
    requires History(u, d0, y, now, a) && History(u, d0, y, now, db)
    requires e == u(e.id) && IsReply(e) && e.id in db.events && e.id !in a.events && ParentOf(e) in a.events
    requires FitsUnder(u, e.id, AncOf(a, ParentOf(e)))
    ensures InRange(e) && AncOf(a, ParentOf(e)).0 in a.events
  {
    var r := RootHintOf(e);
    assert EventOk(u, db, e.id) && JoinOk(u, d0, y, db, e.id) && KeptOk(d0, a, e.id) && KeptOk(d0, a, r);
    RootIsNoReply(u, a, ParentOf(e));
    assert JoinOk(u, d0, y, db, r);
  }

  /** Two finished drains have stored, parked and quarantined the same. */
  lemma SameIds(u: Universe, d0: Db, y: EventId, now: int, a: Cfg, c: Cfg, id: EventId)
    requires Base(u, d0) && History(u, d0, y, now, a.db) && WorkOk(u, d0, y, a) && Finished(a)
    requires History(u, d0, y, now, c.db) && WorkOk(u, d0, y, c) && Finished(c)
    ensures id in a.db.events ==> id in c.db.events && a.db.events[id] == c.db.events[id]
    ensures id in a.db.pending ==> id in c.db.pending && a.db.pending[id] == c.db.pending[id]
  {
    assert KeptOk(d0, a.db, id) && KeptOk(d0, c.db, id) && DoneOk(u, d0, y, c.db, id) && PendingOk(u, d0, id);
    if id in a.db.events && id !in d0.events {
      VisitedByBoth(u, d0, y, now, a.db, c, id);
      JoinedUnder(u, d0, y, now, a.db, id);
      YIsKept(u, d0, y, now, a.db);
      JoinedUnder(u, d0, y, now, c.db, id);
    }
    if id in a.db.pending && id !in c.db.pending {
      VisitedByBoth(u, d0, y, now, c.db, a, ParentOf(u(id)));
      FinishedDecides(u, d0, y, now, a, id);
    }
    hide History, WorkOk, Base, Exact, FitsUnder;
  }

  lemma SameQuarantine(u: Universe, d0: Db, y: EventId, now: int, a: Cfg, c: Cfg, id: EventId)
    requires Base(u, d0) && History(u, d0, y, now, a.db) && WorkOk(u, d0, y, a) && Finished(a)
    requires History(u, d0, y, now, c.db) && WorkOk(u, d0, y, c) && Finished(c)
    ensures id in a.db.quarantine <==> id in c.db.quarantine
    ensures id in a.db.quarantine ==> a.db.quarantine[id] == c.db.quarantine[id]
  {
    SameIds(u, d0, y, now, a, c, id);
    SameIds(u, d0, y, now, c, a, id);
    assert SetAsideOk(u, d0, now, a.db, id) && SetAsideOk(u, d0, now, c.db, id) && DoneOk(u, d0, y, a.db, id);
    if SetAside(d0, a.db, id) {
      HistoryFacts(u, d0, y, now, a.db);
      HistoryFacts(u, d0, y, now, c.db);
      VisitedByBoth(u, d0, y, now, a.db, c, ParentOf(u(id)));
      AncByLevel(u, a.db, ParentOf(u(id)));
      AncByLevel(u, c.db, ParentOf(u(id)));
    }
    hide History, WorkOk, Base, Exact, FitsUnder, Refusal, AncOf;
  }

  /** The stored events agree, so every column of every thread row does. */
  ghost predicate SameEventRows(a: Db, c: Db) {
    a.events == c.events
  }

  lemma SameRowExists(u: Universe, d0: Db, y: EventId, now: int, a: Db, c: Db, x: EventId)
    requires Base(u, d0) && History(u, d0, y, now, a) && History(u, d0, y, now, c) && SameEventRows(a, c)
    ensures x in a.thread ==> x in c.thread
  {
    assert KeptOk(d0, c, x) && NewRowOk(u, d0, a, x) && EventOk(u, c, x) && JoinOk(u, d0, y, a, x);
    if x in a.thread && x !in d0.thread && Touched(u, d0, a, x) {
      var r :| r in a.events && r !in d0.events && IsReply(u(r)) && (ParentOf(u(r)) == x || RootHintOf(u(r)) == x);
      assert EventOk(u, c, r) && RowOk(u, c, r);
    }
  }

  lemma SameRowShape(u: Universe, d0: Db, y: EventId, now: int, a: Cfg, c: Cfg, x: EventId)
    requires Base(u, d0) && History(u, d0, y, now, a.db) && WorkOk(u, d0, y, a) && Finished(a)
    requires History(u, d0, y, now, c.db) && WorkOk(u, d0, y, c) && Finished(c)
    requires SameEventRows(a.db, c.db) && x in a.db.thread && x in c.db.thread
    ensures var r, q := a.db.thread[x], c.db.thread[x];
            && r.createdAt == q.createdAt && r.channel == q.channel && r.parent == q.parent && r.root == q.root
            && r.broadcast == q.broadcast && r.depth == q.depth
  {
    assert RowOk(u, a.db, x) && RowOk(u, c.db, x) && KeptOk(d0, a.db, x) && KeptOk(d0, c.db, x);
    assert NewRowOk(u, d0, a.db, x);
    if x !in d0.thread && x in a.db.events && x !in d0.events { VisitedByBoth(u, d0, y, now, a.db, c, x); }
    if x !in d0.thread && !(x in a.db.events && x !in d0.events) {
      TouchedIsStub(u, d0, y, now, a.db, x);
    }
    hide History, WorkOk, Base, Exact;
  }

  /** A row made for a parent or root that was there before has depth 0. */
  lemma TouchedIsStub(u: Universe, d0: Db, y: EventId, now: int, db: Db, x: EventId)
    requires Base(u, d0) && History(u, d0, y, now, db) && x !in d0.thread && Touched(u, d0, db, x)
    requires x in db.events ==> x in d0.events
    ensures !IsReply(u(x))
  {
    var r :| r in db.events && r !in d0.events && IsReply(u(r)) && (ParentOf(u(r)) == x || RootHintOf(u(r)) == x);
    assert JoinOk(u, d0, y, db, r) && EventOk(u, d0, x);
  }

  ghost predicate SameShapes(a: Db, c: Db) {
    && a.thread.Keys == c.thread.Keys
    && forall x :: x in a.thread ==> a.thread[x].parent == c.thread[x].parent && a.thread[x].root == c.thread[x].root
  }

  lemma SameLive(a: Db, c: Db, x: EventId)
    requires SameEventRows(a, c) && SameShapes(a, c)
    ensures LiveChildren(a, x) == LiveChildren(c, x) && LiveUnder(a, x) == LiveUnder(c, x)
  {
    forall r
      ensures r in LiveChildren(a, x) <==> r in LiveChildren(c, x)
      ensures r in LiveUnder(a, x) <==> r in LiveUnder(c, x)
    {
    }
  }

  lemma LastIsUnique(u: Universe, base: Option<int>, s: set<EventId>, last1: Option<int>, last2: Option<int>)
    requires LastOver(u, base, s, last1) && LastOver(u, base, s, last2)
    ensures last1 == last2
  {
    if s != {} && last1.value != base.GetOr(0) {
      var r :| r in s && u(r).createdAt == last1.value;
      assert last1.value <= last2.value;
    }
    if s != {} && last2.value != base.GetOr(0) {
      var r :| r in s && u(r).createdAt == last2.value;
      assert last2.value <= last1.value;
    }
  }

  lemma SameCounters(u: Universe, d0: Db, y: EventId, now: int, a: Db, c: Db, x: EventId)
    requires History(u, d0, y, now, a) && History(u, d0, y, now, c) && SameEventRows(a, c) && SameShapes(a, c)
    requires x in a.thread
    ensures a.thread[x].replyCount == c.thread[x].replyCount && a.thread[x].lastReplyAt == c.thread[x].lastReplyAt
    ensures a.thread[x].descendantCount == c.thread[x].descendantCount
  {
    SameLive(a, c, x);
    assert CountOk(a, x) && CountOk(c, x) && LastOk(u, d0, a, x) && LastOk(u, d0, c, x);
    assert NewChildren(u, d0, a, x) == NewChildren(u, d0, c, x);
    hide History, Exact, LastOver;
    LastIsUnique(u, LastOf(d0, x), NewChildren(u, d0, a, x), LastOf(a, x), LastOf(c, x));
  }

  lemma SameEvents(u: Universe, d0: Db, y: EventId, now: int, a: Cfg, c: Cfg)
    requires Base(u, d0) && History(u, d0, y, now, a.db) && WorkOk(u, d0, y, a) && Finished(a)
    requires History(u, d0, y, now, c.db) && WorkOk(u, d0, y, c) && Finished(c)
    ensures SameEventRows(a.db, c.db) && a.db.pending == c.db.pending && a.db.quarantine == c.db.quarantine
  {
    hide History, WorkOk, Base;
    forall id
      ensures id in a.db.events <==> id in c.db.events
      ensures id in a.db.events ==> a.db.events[id] == c.db.events[id]
      ensures id in a.db.pending <==> id in c.db.pending
      ensures id in a.db.pending ==> a.db.pending[id] == c.db.pending[id]
      ensures id in a.db.quarantine <==> id in c.db.quarantine
      ensures id in a.db.quarantine ==> a.db.quarantine[id] == c.db.quarantine[id]
    {
      SameIds(u, d0, y, now, a, c, id);
      SameIds(u, d0, y, now, c, a, id);
      SameQuarantine(u, d0, y, now, a, c, id);
    }
    assert a.db.events.Keys == c.db.events.Keys && a.db.pending.Keys == c.db.pending.Keys;
    assert a.db.quarantine.Keys == c.db.quarantine.Keys;
  }

  lemma SameTables(u: Universe, d0: Db, y: EventId, now: int, a: Cfg, c: Cfg)
    requires Base(u, d0) && History(u, d0, y, now, a.db) && WorkOk(u, d0, y, a) && Finished(a)
    requires History(u, d0, y, now, c.db) && WorkOk(u, d0, y, c) && Finished(c)
    ensures a.db == c.db
  {
    SameEvents(u, d0, y, now, a, c);
    SameSlots(u, d0, y, now, a.db, c.db);
    hide History, WorkOk, Base, Finished;
    forall x ensures x in a.db.thread <==> x in c.db.thread {
      SameRowExists(u, d0, y, now, a.db, c.db, x);
      SameRowExists(u, d0, y, now, c.db, a.db, x);
    }
    assert a.db.thread.Keys == c.db.thread.Keys;
    forall x | x in a.db.thread ensures SameButCounters(a.db.thread[x], c.db.thread[x]) {
      SameRowShape(u, d0, y, now, a, c, x);
    }
    assert SameShapes(a.db, c.db);
    forall x | x in a.db.thread ensures a.db.thread[x] == c.db.thread[x] {
      assert SameButCounters(a.db.thread[x], c.db.thread[x]);
      SameCounters(u, d0, y, now, a.db, c.db, x);
    }
  }

  predicate SameButCounters(r: ThreadRow, q: ThreadRow) {
    && r.createdAt == q.createdAt && r.channel == q.channel && r.parent == q.parent && r.root == q.root
    && r.broadcast == q.broadcast && r.depth == q.depth
  }

  lemma SameSlots(u: Universe, d0: Db, y: EventId, now: int, a: Db, c: Db)
    requires History(u, d0, y, now, a) && History(u, d0, y, now, c)
    ensures a.slots == c.slots
  {
  }

  ghost predicate SameEmits(es: seq<ThreadEmit>, fs: seq<ThreadEmit>) {
    forall t :: t in es <==> t in fs
  }

  /**
   The drain of one stored id from one set of plain tables, with the orphans of each parent in any
   two orders: both runs end in an error, or both finish with the same tables and tell of the same
   threads.
   */
  lemma DrainEndsOneWay(u: Universe, d0: Db, y: EventId, es: seq<ThreadEmit>, a: Cfg, n: nat, c: Cfg, m: nat, now: int)
    requires CfgOk(u, DrainStart(d0, y, es)) && Exact(u, d0)
    requires DrainsTo(DrainStart(d0, y, es), a, now, n) && (Finished(a) || Stuck(a, now))
    requires DrainsTo(DrainStart(d0, y, es), c, now, m) && (Finished(c) || Stuck(c, now))
    ensures Finished(a) <==> Finished(c)
    ensures Finished(a) ==> a.db == c.db && SameEmits(a.emits, c.emits)
  {
    DrainKeepsHistory(u, d0, y, es, a, now, n);
    DrainKeepsHistory(u, d0, y, es, c, now, m);
    ExactHasBase(u, d0);
    hide CfgOk, Exact, History, WorkOk, EmitsOk, Base, DrainsTo, Stuck;
    if Finished(c) {
      NotOneStuck(u, d0, y, now, a, c);
      SameTables(u, d0, y, now, a, c);
      SameThreadsTold(u, d0, es, a, c);
    } else if Finished(a) {
      NotOneStuck(u, d0, y, now, c, a);
    }
  }

  lemma ExactHasBase(u: Universe, db: Db)
    requires Exact(u, db)
    ensures Base(u, db)
  {
  }

  lemma SameThreadsTold(u: Universe, d0: Db, es: seq<ThreadEmit>, a: Cfg, c: Cfg)
    requires EmitsOk(u, d0, es, a) && EmitsOk(u, d0, es, c) && a.db == c.db
    ensures SameEmits(a.emits, c.emits)
  {
    forall t ensures t in a.emits <==> t in c.emits {
      assert t in a.emits <==> Announced(u, d0, a.db, es, t);
      assert t in c.emits <==> Announced(u, d0, c.db, es, t);
    }
  }

  // ---- one ingest ----------------------------------------------------------

  /** Equal reports, but for the order in which threads are told of. */
  ghost predicate SameReport(a: Outcome, b: Outcome) {
    if a.Accepted? && b.Accepted? then a.duplicate == b.duplicate && a.stale == b.stale && SameEmits(a.emits, b.emits)
    else a == b
  }

  /**
   Over plain tables an ingest has one outcome: whatever order the store returns orphans in, the new
   tables are the same and so is the report, up to the order of its emits.
   */
  lemma IngestHasOneOutcome(u: Universe, db: Db, ev: Event, door: Door, now: int, db1: Db, out1: Outcome,
        db2: Db, out2: Outcome)
    requires Exact(u, db) && ev == u(ev.id) && Plain(ev)
    requires Ingests(db, ev, door, now, db1, out1) && Ingests(db, ev, door, now, db2, out2)
    ensures db1 == db2 && SameReport(out1, out2)
  {
    var f := IngestFront(db, ev, door, now);
    if f.ThenDrain? {
      ExactHasBase(u, db);
      StartOk(u, db, ev, door, now);
      FrontKeepsExact(u, db, ev, door, now);
      var c0 := DrainStart(f.db, ev.id, f.emits);
      var a: Cfg, n: nat :| DrainsTo(c0, a, now, n) && DrainEnds(a, now, db, db1, out1);
      var c: Cfg, m: nat :| DrainsTo(c0, c, now, m) && DrainEnds(c, now, db, db2, out2);
      hide Exact, Base, IngestFront, CfgOk, DrainsTo, Stuck;
      NeverBoth(a, now);
      NeverBoth(c, now);
      DrainEndsOneWay(u, f.db, ev.id, f.emits, a, n, c, m, now);
    }
  }

  lemma NeverBoth(c: Cfg, now: int)
    ensures !(Finished(c) && Stuck(c, now))
  {
  }

  /**
   When either door accepts a plain event, every ingest of it through the other accepts it too, with
   the same report and the same tables but for the direct parent's `last_reply_at`.
   */
  lemma DoorsAgree(u: Universe, db: Db, ev: Event, door: Door, other: Door, now: int, db1: Db, out1: Outcome,
        db2: Db, out2: Outcome)
    requires Exact(u, db) && ev == u(ev.id) && Plain(ev)
    requires Ingests(db, ev, door, now, db1, out1) && Ingests(db, ev, other, now, db2, out2) && out1.Accepted?
    ensures SameReport(out1, out2) && out2.Accepted? && Alike(DirectParent(ev), db1, db2)
  {
    hide Exact, Ingests, Plain;
    var like := BothAccept(db, ev, door, other, now, db1, out1);
    IngestHasOneOutcome(u, db, ev, other, now, like, out1, db2, out2);
  }

  /** In particular after every run of plain events. */
  lemma RunsHaveOneOutcome(u: Universe, run: seq<Step>, db: Db, ev: Event, door: Door, other: Door, now: int,
        db1: Db, out1: Outcome, db2: Db, out2: Outcome)
    requires Authentic(u) && Reaches(u, run, db) && PlainRun(run) && ev == u(ev.id) && Plain(ev)
    requires Ingests(db, ev, door, now, db1, out1) && Ingests(db, ev, other, now, db2, out2)
    ensures door == other ==> db1 == db2 && SameReport(out1, out2)
    ensures out1.Accepted? ==> SameReport(out1, out2) && Alike(DirectParent(ev), db1, db2)
  {
    ReachableIsExact(u, run, db);
    hide Reaches, Exact, Ingests;
    if door == other { IngestHasOneOutcome(u, db, ev, door, now, db1, out1, db2, out2); }
    if out1.Accepted? { DoorsAgree(u, db, ev, door, other, now, db1, out1, db2, out2); }
  }
}
