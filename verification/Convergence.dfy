/**
 Mesh convergence. Gossip delivers events in any order, any number of times. For plain events that
 are neither deletions, replaceable nor relay-authored, the tables after a mesh run depend only on
 which events were delivered: they are the batch thread forest of that set.
 */
module Convergence {
  import opened Options
  import opened Ids
  import opened Events
  import opened Tables
  import opened Engine
  import opened Attach
  import opened Reachable
  import opened Forest

  /** The events convergence speaks about. */
  ghost predicate Admissible(u: Universe, id: EventId) {
    Plain(u(id)) && !IsRelayAuthored(u(id).kind) && !IsDeletionKind(u(id).kind) && !IsReplaceable(u(id).kind)
  }

  // ---- the batch definition ------------------------------------------------

  /** The ancestor `d` parents up. */
  ghost function RootAt(u: Universe, id: EventId, d: nat): EventId
    decreases d
  {
    if d == 0 || !IsReply(u(id)) then id else RootAt(u, ParentOf(u(id)), d - 1)
  }

  /** Would this reply resolve under a parent attached at level `d`? */
  ghost predicate Fits(u: Universe, id: EventId, d: nat)
    requires IsReply(u(id))
  {
    var p := ParentOf(u(id));
    && Channel(u(p)).Some? && Channel(u(p)) == Channel(u(id))
    && d + 1 <= DEPTH_CAP
    && RootHintOf(u(id)) == RootAt(u, p, d)
  }

  /** Why it would not, in the engine's order of checks. */
  ghost function WhyNot(u: Universe, id: EventId, d: nat): Reason
    requires IsReply(u(id))
  {
    var p := ParentOf(u(id));
    if Channel(u(p)).None? then ParentHasNoChannel
    else if Channel(u(p)) != Channel(u(id)) then ParentInOtherChannel
    else if d + 1 > DEPTH_CAP then DepthLimitExceeded
    else RootMismatch
  }

  /**
   Attached at level `d` in the batch forest of the delivered set: a non-reply at level 0, a reply
   one level below its attached parent, each with a timestamp that fits the column.
   */
  ghost predicate AttachedAt(u: Universe, delivered: set<EventId>, id: EventId, d: nat)
    decreases d
  {
    && id in delivered && InRange(u(id))
    && if d == 0 then !IsReply(u(id))
       else IsReply(u(id)) && AttachedAt(u, delivered, ParentOf(u(id)), d - 1) && Fits(u, id, d - 1)
  }

  /** Attached at some level. */
  ghost predicate AttachedSome(u: Universe, delivered: set<EventId>, id: EventId) {
    exists d: nat :: AttachedAt(u, delivered, id, d)
  }

  /** Parent attached, but the reply does not fit under it. */
  ghost predicate Refused(u: Universe, delivered: set<EventId>, id: EventId, reason: Reason) {
    && id in delivered && IsReply(u(id))
    && exists d: nat :: AttachedAt(u, delivered, ParentOf(u(id)), d) && !Fits(u, id, d) && reason == WhyNot(u, id, d)
  }

  /**
   A delivered reply that resolves under an attached parent although its own timestamp does not fit
   the column: it can wait in the parked table, which has no such limit, but never be stored.
   */
  ghost predicate Blocker(u: Universe, delivered: set<EventId>, id: EventId) {
    && id in delivered && IsReply(u(id)) && !InRange(u(id))
    && exists d: nat :: AttachedAt(u, delivered, ParentOf(u(id)), d) && Fits(u, id, d)
  }

  ghost predicate NoBlocker(u: Universe, delivered: set<EventId>) {
    forall id :: !Blocker(u, delivered, id)
  }

  lemma {:induction false} LevelIsUnique(u: Universe, delivered: set<EventId>, id: EventId, d: nat, e: nat)
    requires AttachedAt(u, delivered, id, d) && AttachedAt(u, delivered, id, e)
    ensures d == e
    decreases d
  {
    if d > 0 && e > 0 { LevelIsUnique(u, delivered, ParentOf(u(id)), d - 1, e - 1); }
  }

  lemma {:induction false} AttachedIsMonotone(u: Universe, small: set<EventId>, big: set<EventId>, id: EventId, d: nat)
    requires small <= big && AttachedAt(u, small, id, d)
    ensures AttachedAt(u, big, id, d)
    decreases d
  {
    if d > 0 { AttachedIsMonotone(u, small, big, ParentOf(u(id)), d - 1); }
  }

  /** The attachment rules hold in a set of (event, level) pairs. */
  ghost predicate Closed(u: Universe, delivered: set<EventId>, forest: iset<(EventId, nat)>) {
    && (forall id :: id in delivered && InRange(u(id)) && !IsReply(u(id)) ==> (id, 0) in forest)
    && (forall id, d: nat ::
          id in delivered && InRange(u(id)) && IsReply(u(id)) && (ParentOf(u(id)), d) in forest && Fits(u, id, d)
          ==> (id, d + 1) in forest)
  }

  /** `AttachedAt` is the least set closed under the attachment rules. */
  lemma {:induction false} AttachedIsLeast(u: Universe, delivered: set<EventId>, forest: iset<(EventId, nat)>,
        id: EventId, d: nat)
    requires Closed(u, delivered, forest) && AttachedAt(u, delivered, id, d)
    ensures (id, d) in forest
    ensures Closed(u, delivered, iset i: EventId, e: nat | AttachedAt(u, delivered, i, e) :: (i, e))
    decreases d
  {
    if d > 0 { AttachedIsLeast(u, delivered, forest, ParentOf(u(id)), d - 1); }
  }

  // ---- the tables against the batch forest ---------------------------------

  ghost predicate StoredOk(u: Universe, delivered: set<EventId>, db: Db, id: EventId) {
    id in db.events ==>
      && !db.events[id].deleted
      && Level(db, id) >= 0 && AttachedAt(u, delivered, id, Level(db, id))
      && (id in db.thread ==> db.thread[id].root.GetOr(id) == RootAt(u, id, Level(db, id)))
  }

  /** `last` is the largest timestamp in `s`. */
  ghost predicate Latest(u: Universe, s: set<EventId>, last: Option<int>) {
    if s == {} then last.None?
    else last.Some? && (exists r :: r in s && u(r).createdAt == last.value)
                    && (forall r :: r in s ==> u(r).createdAt <= last.value)
  }

  ghost predicate LatestOk(u: Universe, db: Db, x: EventId) {
    x in db.thread ==> Latest(u, LiveChildren(db, x), db.thread[x].lastReplyAt)
  }

  ghost predicate StubUsed(db: Db, x: EventId) {
    x in db.thread && db.thread[x].parent.None? ==> LiveChildren(db, x) != {}
  }

  ghost predicate ShelfOk(u: Universe, delivered: set<EventId>, db: Db, id: EventId) {
    id in db.quarantine ==> db.quarantine[id].raw == u(id) && Refused(u, delivered, id, db.quarantine[id].reason)
  }

  ghost predicate Sound(u: Universe, delivered: set<EventId>, db: Db) {
    && Exact(u, db) && Rooted(db)
    && db.pending.Keys <= delivered
    && (forall id :: id in delivered ==> Admissible(u, id))
    && (forall id :: StoredOk(u, delivered, db, id))
    && (forall x :: LatestOk(u, db, x) && StubUsed(db, x))
    && (forall id :: ShelfOk(u, delivered, db, id))
  }

  /** None of these events is lost: each is stored, parked or quarantined. */
  ghost predicate Covers(kept: set<EventId>, db: Db) {
    forall id :: id in kept ==> id in db.events || id in db.pending || id in db.quarantine
  }

  /** What a store of the delivered events can keep: a top-level event has no waiting room. */
  ghost function Keepable(u: Universe, delivered: set<EventId>): set<EventId> {
    set id | id in delivered && (InRange(u(id)) || IsReply(u(id)))
  }

  lemma SoundIsMonotone(u: Universe, small: set<EventId>, id: EventId, db: Db)
    requires Sound(u, small, db) && Admissible(u, id)
    ensures Sound(u, small + {id}, db)
  {
    var big := small + {id};
    forall x ensures StoredOk(u, big, db, x) && ShelfOk(u, big, db, x) {
      assert StoredOk(u, small, db, x) && ShelfOk(u, small, db, x);
      if x in db.events { AttachedIsMonotone(u, small, big, x, Level(db, x)); }
      if x in db.quarantine {
        var d: nat :| AttachedAt(u, small, ParentOf(u(x)), d) && !Fits(u, x, d)
          && db.quarantine[x].reason == WhyNot(u, x, d);
        AttachedIsMonotone(u, small, big, ParentOf(u(x)), d);
      }
    }
  }

  /** What the engine decides about a reply with a stored parent is what the batch rules decide. */
  lemma ResolveIsBatch(u: Universe, delivered: set<EventId>, db: Db, ev: Event)
    requires Sound(u, delivered, db) && ev == u(ev.id) && IsReply(ev) && ParentOf(ev) in db.events
    ensures var d := Level(db, ParentOf(ev));
            && d >= 0 && AttachedAt(u, delivered, ParentOf(ev), d)
            && Resolve(db, ev) == if Fits(u, ev.id, d) then Resolved(ParentOf(ev), RootAt(u, ParentOf(ev), d), d + 1)
                                  else Mismatch(WhyNot(u, ev.id, d))
  {
    var p := ParentOf(ev);
    assert StoredOk(u, delivered, db, p) && EventOk(u, db, p) && PlainOk(u, db, p) && RowOk(u, db, p);
    if p !in db.thread { PlainRootsItself(u(p)); }
  }

  lemma LatestGrows(u: Universe, s: set<EventId>, last: Option<int>, id: EventId)
    requires Latest(u, s, last)
    ensures Latest(u, s + {id}, Some(Max(last.GetOr(0), u(id).createdAt)))
  {
    var m := Max(last.GetOr(0), u(id).createdAt);
    if m == u(id).createdAt {
      assert id in s + {id};
    } else {
      var r :| r in s && u(r).createdAt == last.value;
      assert r in s + {id};
    }
  }

  lemma AttachKeepsSound(u: Universe, delivered: set<EventId>, db: Db, a: Attachment, db': Db)
    requires Sound(u, delivered, db) && a.ev == u(a.ev.id) && a.ev.id in delivered && IsReply(a.ev)
    requires InRange(a.ev) && Attached(db, a, db') && a.door == Mesh
             && Resolve(db, a.ev) == Resolved(a.parent, a.root, a.depth)
    ensures Sound(u, delivered, db')
  {
    assert Admissible(u, a.ev.id);
    AttachKeepsExact(u, db, a, db');
    ResolvedFacts(u, db, a.ev);
    PlainAncestry(u, db, a.ev);
    forall id ensures StoredOk(u, delivered, db', id) { AttachStored(u, delivered, db, a, db', id); }
    forall x ensures LatestOk(u, db', x) && StubUsed(db', x) { AttachLatest(u, delivered, db, a, db', x); }
    forall id ensures ShelfOk(u, delivered, db', id) { assert ShelfOk(u, delivered, db, id); }
  }

  lemma AttachStored(u: Universe, delivered: set<EventId>, db: Db, a: Attachment, db': Db, id: EventId)
    requires Sound(u, delivered, db) && a.ev == u(a.ev.id) && a.ev.id in delivered && IsReply(a.ev)
    requires InRange(a.ev) && Attached(db, a, db') && Resolve(db, a.ev) == Resolved(a.parent, a.root, a.depth)
    ensures StoredOk(u, delivered, db', id)
  {
    hide Exact, Rooted, Fits, WhyNot, Admissible, LatestOk, StubUsed, ShelfOk, Resolve;
    AttachedLevel(u, delivered, db, a);
    assert StoredOk(u, delivered, db, id);
    if id in db'.thread { AttachedShape(db, a, db', id); }
  }

  lemma AttachedLevel(u: Universe, delivered: set<EventId>, db: Db, a: Attachment)
    requires Sound(u, delivered, db) && a.ev == u(a.ev.id) && a.ev.id in delivered && IsReply(a.ev)
    requires InRange(a.ev) && Resolve(db, a.ev) == Resolved(a.parent, a.root, a.depth)
    ensures a.depth > 0 && AttachedAt(u, delivered, a.ev.id, a.depth) && a.root == RootAt(u, a.ev.id, a.depth)
    ensures !IsReply(u(a.parent)) || a.parent in db.thread
  {
    SoundHasBase(u, delivered, db);
    ResolvedFacts(u, db, a.ev);
    ResolveIsBatch(u, delivered, db, a.ev);
    hide Sound, Base, Resolve, Fits;
    var d: nat := Level(db, a.parent);
    assert a.depth == d + 1 && AttachedAt(u, delivered, a.parent, d);
  }

  lemma AttachLatest(u: Universe, delivered: set<EventId>, db: Db, a: Attachment, db': Db, x: EventId)
    requires Sound(u, delivered, db) && a.ev == u(a.ev.id) && IsReply(a.ev)
    requires Attached(db, a, db') && a.door == Mesh && (a.root == a.parent || a.root in db.thread)
    ensures LatestOk(u, db', x) && StubUsed(db', x)
  {
    if x in db'.thread {
      AttachChildren(db, a, db', x);
      AttachedShape(db, a, db', x);
      assert LatestOk(u, db, x) && StubUsed(db, x);
      if x !in db.thread { NobodyUnder(u, db, x); }
      if x == a.parent { LatestGrows(u, LiveChildren(db, x), RowCreated(db, a, x).lastReplyAt, a.ev.id); }
    }
  }

  /** Writes that change neither thread rows nor any stored event. */
  lemma ShelvingKeepsSound(u: Universe, delivered: set<EventId>, db: Db, db': Db)
    requires Sound(u, delivered, db) && Exact(u, db')
    requires db' == db.(pending := db'.pending, quarantine := db'.quarantine)
    requires db'.pending.Keys <= delivered && (forall id :: ShelfOk(u, delivered, db', id))
    ensures Sound(u, delivered, db')
  {
    forall id ensures StoredOk(u, delivered, db', id) { assert StoredOk(u, delivered, db, id); }
    forall o ensures PendingOk(u, db', o) {}
    ShelvingKeepsBase(u, db, db');
    forall x ensures LatestOk(u, db', x) && StubUsed(db', x) { assert LatestOk(u, db, x) && StubUsed(db, x); }
  }

  lemma RefuseKeepsSound(u: Universe, delivered: set<EventId>, db: Db, ev: Event, reason: Reason, now: int)
    requires Sound(u, delivered, db) && ev == u(ev.id) && ev.id in delivered && IsReply(ev)
    requires Resolve(db, ev) == Mismatch(reason)
    ensures Sound(u, delivered, Quarantine(db, ev, reason, now))
  {
    var q := Quarantine(db, ev, reason, now);
    ResolveIsBatch(u, delivered, db, ev);
    QuarantineKeepsBase(u, db, ev, reason, now);
    forall id ensures PlainOk(u, q, id) { assert PlainOk(u, db, id); }
    SameShapeKeepsExact(u, db, q);
    forall id ensures ShelfOk(u, delivered, q, id) { assert ShelfOk(u, delivered, db, id); }
    ShelvingKeepsSound(u, delivered, db, q);
  }

  lemma ParkKeepsSound(u: Universe, delivered: set<EventId>, db: Db, ev: Event, now: int)
    requires Sound(u, delivered, db) && ev == u(ev.id) && ev.id in delivered && IsReply(ev)
    ensures Sound(u, delivered, Park(db, ev, ParentOf(ev), now))
  {
    var d := Park(db, ev, ParentOf(ev), now);
    assert Admissible(u, ev.id);
    forall o ensures PendingOk(u, d, o) { assert PendingOk(u, db, o); }
    ShelvingKeepsBase(u, db, d);
    forall id ensures PlainOk(u, d, id) && ShelfOk(u, delivered, d, id) {
      assert PlainOk(u, db, id) && ShelfOk(u, delivered, db, id);
    }
    SameShapeKeepsExact(u, db, d);
    ShelvingKeepsSound(u, delivered, db, d);
  }

  lemma UnparkKeepsSound(u: Universe, delivered: set<EventId>, db: Db, id: EventId)
    requires Sound(u, delivered, db)
    ensures Sound(u, delivered, Unpark(db, id))
  {
    var d := Unpark(db, id);
    UnparkKeepsBase(u, db, id);
    forall x ensures PlainOk(u, d, x) && ShelfOk(u, delivered, d, x) {
      assert PlainOk(u, db, x) && ShelfOk(u, delivered, db, x);
    }
    SameShapeKeepsExact(u, db, d);
    ShelvingKeepsSound(u, delivered, db, d);
  }

  // ---- the drain -----------------------------------------------------------

  lemma JoinIsDelivered(u: Universe, delivered: set<EventId>, db: Db, ev: Event)
    requires Sound(u, delivered, db) && Waiting(u, db, ev)
    ensures ev.id in delivered
  {
  }

  lemma JoinKeepsSound(u: Universe, delivered: set<EventId>, db: Db, ev: Event, now: int, db': Db)
    requires Sound(u, delivered, db) && Waiting(u, db, ev) && Meets(db, ev, now, db')
    requires FateOf(db, ev, now).Joined?
    ensures Sound(u, delivered, db')
  {
    var d := Unpark(db, ev.id);
    UnparkKeepsSound(u, delivered, db, ev.id);
    assert Resolve(d, ev) == Resolve(db, ev);
    JoinIsDelivered(u, delivered, db, ev);
    hide Sound, Resolve, Attached;
    AttachKeepsSound(u, delivered, d, FateOf(db, ev, now).a, db');
  }

  lemma MeetKeepsSound(u: Universe, delivered: set<EventId>, db: Db, ev: Event, now: int, db': Db)
    requires Sound(u, delivered, db) && Waiting(u, db, ev) && Meets(db, ev, now, db')
    ensures Sound(u, delivered, db')
  {
    if FateOf(db, ev, now).Joined? {
      JoinKeepsSound(u, delivered, db, ev, now, db');
    } else {
      var d := Unpark(db, ev.id);
      UnparkKeepsSound(u, delivered, db, ev.id);
      assert ev.id !in db.events ==> Resolve(d, ev) == Resolve(db, ev);
      match FateOf(db, ev, now)
      case Shelved(reason) => RefuseKeepsSound(u, delivered, d, ev, reason, now);
      case _ =>
    }
  }

  /** A parked reply that met its fate is still in one of the tables. */
  lemma MeetKeepsCovers(u: Universe, kept: set<EventId>, db: Db, ev: Event, now: int, db': Db)
    requires Base(u, db) && Covers(kept, db) && Waiting(u, db, ev) && Meets(db, ev, now, db')
    ensures Covers(kept, db')
  {
    MeetsMoves(db, ev, now, db');
    MeetsKeepsShelf(db, ev, now, db');
    hide Base, Meets, FateOf;
  }

  lemma MeetsKeepsShelf(db: Db, ev: Event, now: int, db': Db)
    requires IsReply(ev) && Meets(db, ev, now, db')
    ensures db.quarantine.Keys <= db'.quarantine.Keys
    ensures ev.id in db'.events || ev.id in db'.quarantine
  {
    if FateOf(db, ev, now).Joined? {
      JoinedIsEvent(db, ev, now);
      AttachedMoves(Unpark(db, ev.id), FateOf(db, ev, now).a, db');
    }
    hide Attached, Resolve;
  }

  lemma StepKeepsSound(u: Universe, delivered: set<EventId>, kept: set<EventId>, c: Cfg, c': Cfg, now: int)
    requires CfgOk(u, c) && Sound(u, delivered, c.db) && Covers(kept, c.db) && DrainStep(c, c', now)
    ensures CfgOk(u, c') && Sound(u, delivered, c'.db) && Covers(kept, c'.db)
  {
    if c.batch == [] {
      PopKeepsCfg(u, c, c', now);
    } else {
      CfgHasBase(u, c);
      hide Sound, Covers, CfgOk;
      TryKeepsCfg(u, c, c', now);
      MeetKeepsSound(u, delivered, c.db, c.batch[0], now, c'.db);
      MeetKeepsCovers(u, kept, c.db, c.batch[0], now, c'.db);
    }
  }

  lemma CfgHasBase(u: Universe, c: Cfg)
    requires CfgOk(u, c)
    ensures Base(u, c.db)
  {
  }

  lemma {:induction false} DrainKeepsSound(u: Universe, delivered: set<EventId>, kept: set<EventId>, c0: Cfg, c: Cfg,
        now: int, n: nat)
    requires CfgOk(u, c0) && Sound(u, delivered, c0.db) && Covers(kept, c0.db) && DrainsTo(c0, c, now, n)
    ensures CfgOk(u, c) && Sound(u, delivered, c.db) && Covers(kept, c.db)
    decreases n
  {
    hide DrainStep, CfgOk, Sound, Covers;
    if n > 0 {
      var m :| DrainsTo(c0, m, now, n - 1) && DrainStep(m, c, now);
      DrainKeepsSound(u, delivered, kept, c0, m, now, n - 1);
      StepKeepsSound(u, delivered, kept, m, c, now);
    }
  }

  /** The only error a drain can meet is a blocker. */
  lemma StuckOnABlocker(u: Universe, delivered: set<EventId>, c: Cfg, now: int)
    requires CfgOk(u, c) && Sound(u, delivered, c.db) && Stuck(c, now)
    ensures Blocker(u, delivered, c.batch[0].id)
  {
    var ev := c.batch[0];
    StuckOnlyOnRange(u, c, now);
    assert Waiting(u, c.db, ev) && EventOk(u, c.db, ev.id);
    WaitingIsSettled(u, c.db, ev, now);
    ResolveIsBatch(u, delivered, c.db, ev);
  }

  // ---- one delivery --------------------------------------------------------

  lemma StoreKeepsSound(u: Universe, delivered: set<EventId>, db: Db, ev: Event, db': Db)
    requires Sound(u, delivered, db) && ev.id in delivered && StoresOther(u, db, ev, {}, db') && Base(u, db')
    ensures Sound(u, delivered, db')
  {
    OtherKeepsCounters(u, db, ev, {}, db');
    assert db.events - {} == db.events;
    forall id ensures PlainOk(u, db', id) && StoredOk(u, delivered, db', id) && ShelfOk(u, delivered, db', id) {
      assert PlainOk(u, db, id) && StoredOk(u, delivered, db, id) && ShelfOk(u, delivered, db, id);
      assert Admissible(u, ev.id);
    }
    SameShapeKeepsExact(u, db, db');
    forall x ensures LatestOk(u, db', x) && StubUsed(db', x) { assert LatestOk(u, db, x) && StubUsed(db, x); }
  }

  lemma FrontReplyKeepsSound(u: Universe, delivered: set<EventId>, db: Db, ev: Event, now: int)
    requires Sound(u, delivered, db) && ev == u(ev.id) && ev.id in delivered
    requires IsReply(ev) && ev.id !in db.events
    ensures var f := FrontReply(db, ev, Mesh, now);
            && Sound(u, delivered, f.db)
            && (f.Final? && f.outcome.Failed? ==> Blocker(u, delivered, ev.id))
  {
    assert Admissible(u, ev.id);
    FrontReplyKeepsBase(u, db, ev, Mesh, now);
    FrontReplyKeepsRooted(u, db, ev, Mesh, now);
    match Resolve(db, ev) {
      case ParentMissing => ParkKeepsSound(u, delivered, db, ev, now);
      case Mismatch(reason) => RefuseKeepsSound(u, delivered, db, ev, reason, now);
      case Resolved(p, r, k) =>
        ResolvedFacts(u, db, ev);
        ResolveIsBatch(u, delivered, db, ev);
        var f := FrontReply(db, ev, Mesh, now);
        if f.ThenDrain? { AttachKeepsSound(u, delivered, db, Attachment(ev, p, r, k, Mesh, now), f.db); }
    }
  }

  lemma FrontKeepsSound(u: Universe, delivered: set<EventId>, db: Db, ev: Event, now: int)
    requires Sound(u, delivered, db) && ev == u(ev.id) && ev.id in delivered
    ensures var f := IngestFront(db, ev, Mesh, now);
            && Sound(u, delivered, f.db)
            && (f.Final? && f.outcome.Failed? ==> Blocker(u, delivered, ev.id) || ev.id !in Keepable(u, delivered))
  {
    assert Admissible(u, ev.id);
    if ev.id in db.events {
    } else if IsReply(ev) {
      FrontReplyKeepsSound(u, delivered, db, ev, now);
    } else if InRange(ev) {
      InsertOther(u, db, ev);
      StoreKeepsSound(u, delivered, db, ev, InsertEventRow(db, ev).value);
    }
  }

  /** Before the drain nothing is lost, and the event itself is somewhere unless the ingest failed. */
  lemma FrontKeepsCovers(u: Universe, kept: set<EventId>, db: Db, ev: Event, now: int)
    requires Base(u, db) && Covers(kept, db) && ev == u(ev.id) && Admissible(u, ev.id)
    ensures var f := IngestFront(db, ev, Mesh, now);
            && db.events.Keys <= f.db.events.Keys && Covers(kept, f.db)
            && (!(f.Final? && f.outcome.Failed?) ==> Covers(kept + {ev.id}, f.db))
  {
    FrontKeepsBase(u, db, ev, Mesh, now);
    if IsReply(ev) && ev.id !in db.events { FrontReplyKeepsBase(u, db, ev, Mesh, now); }
  }

  /**
   One mesh delivery keeps the tables inside the batch forest and loses nothing it kept. It fails
   only on a top-level event whose timestamp does not fit, or when a blocker is delivered.
   */
  lemma DeliveryKeepsSound(u: Universe, delivered: set<EventId>, kept: set<EventId>, db: Db, ev: Event, now: int,
        db': Db, out: Outcome)
    requires Sound(u, delivered, db) && Covers(kept, db) && Drained(db)
    requires ev == u(ev.id) && Admissible(u, ev.id) && Ingests(db, ev, Mesh, now, db', out)
    ensures Sound(u, delivered + {ev.id}, db') && Covers(kept, db') && Drained(db')
    ensures db.events.Keys <= db'.events.Keys
    ensures !out.Failed? ==> Covers(kept + {ev.id}, db')
    ensures out.Failed? ==> ev.id !in Keepable(u, {ev.id}) || !NoBlocker(u, delivered + {ev.id})
  {
    var all := delivered + {ev.id};
    SoundIsMonotone(u, delivered, ev.id, db);
    FrontKeepsSound(u, all, db, ev, now);
    SoundHasBase(u, all, db);
    hide Sound, Covers, Drained, Blocker, Admissible, NoBlocker;
    FrontKeepsCovers(u, kept, db, ev, now);
    IngestDrains(u, db, ev, Mesh, now, db', out);
    if IngestFront(db, ev, Mesh, now).ThenDrain? {
      DrainOfDelivery(u, all, kept + {ev.id}, db, ev, now, db', out);
      CoversLess(kept, ev.id, IngestFront(db, ev, Mesh, now).db);
      if !out.Failed? { CoversLess(kept, ev.id, db'); }
    } else {
      FrontKeepsBase(u, db, ev, Mesh, now);
    }
    hide IngestFront, Base;
    if Blocker(u, all, ev.id) { BlockerIsOne(u, all, ev.id); }
    KeepableIsLocal(u, all, ev.id);
  }

  lemma KeepableIsLocal(u: Universe, all: set<EventId>, id: EventId)
    requires id in all
    ensures id in Keepable(u, all) <==> id in Keepable(u, {id})
  {
  }

  lemma BlockerIsOne(u: Universe, all: set<EventId>, id: EventId)
    requires Blocker(u, all, id)
    ensures !NoBlocker(u, all)
  {
  }

  lemma DrainOfDelivery(u: Universe, all: set<EventId>, kept: set<EventId>, db: Db, ev: Event, now: int,
        db': Db, out: Outcome)
    requires Sound(u, all, db) && ev == u(ev.id) && Ingests(db, ev, Mesh, now, db', out)
    requires IngestFront(db, ev, Mesh, now).ThenDrain?
    requires var d := IngestFront(db, ev, Mesh, now).db;
             Sound(u, all, d) && Covers(kept, d) && db.events.Keys <= d.events.Keys
    ensures Sound(u, all, db') && db.events.Keys <= db'.events.Keys
    ensures if out.Failed? then db' == db && !NoBlocker(u, all) else Covers(kept, db')
  {
    SoundHasBase(u, all, db);
    StartOk(u, db, ev, Mesh, now);
    var f := IngestFront(db, ev, Mesh, now);
    var c0 := DrainStart(f.db, ev.id, f.emits);
    var c: Cfg, n: nat :| DrainsTo(c0, c, now, n) && DrainEnds(c, now, db, db', out);
    hide Sound, Covers, Blocker, NoBlocker, IngestFront, Base, CfgOk;
    DrainKeepsSound(u, all, kept, c0, c, now, n);
    DrainGrows(u, c0, c, now, n);
    if out.Failed? {
      StuckOnABlocker(u, all, c, now);
      BlockerIsOne(u, all, c.batch[0].id);
    }
  }

  lemma SoundHasBase(u: Universe, delivered: set<EventId>, db: Db)
    requires Sound(u, delivered, db)
    ensures Base(u, db)
  {
  }

  lemma CoversLess(kept: set<EventId>, id: EventId, db: Db)
    requires Covers(kept + {id}, db)
    ensures Covers(kept, db)
  {
  }

  // ---- completeness --------------------------------------------------------

  /** Tables that hold exactly what the batch rules make of the delivered events. */
  ghost predicate IsBatch(u: Universe, delivered: set<EventId>, db: Db) {
    Sound(u, delivered, db) && Covers(Keepable(u, delivered), db) && Drained(db)
  }

  lemma StoredAtItsLevel(u: Universe, delivered: set<EventId>, db: Db, id: EventId, d: nat)
    requires Sound(u, delivered, db) && AttachedAt(u, delivered, id, d) && id in db.events
    ensures Level(db, id) == d
  {
    assert StoredOk(u, delivered, db, id);
    LevelIsUnique(u, delivered, id, Level(db, id), d);
  }

  lemma AttachedUnderParent(u: Universe, delivered: set<EventId>, id: EventId, d: nat)
    requires AttachedAt(u, delivered, id, d) && IsReply(u(id))
    ensures d > 0 && AttachedAt(u, delivered, ParentOf(u(id)), d - 1) && Fits(u, id, d - 1)
  {
  }

  /** An attached reply fits at the one level its parent has. */
  lemma AttachedFits(u: Universe, delivered: set<EventId>, id: EventId, d: nat, e: nat)
    requires AttachedAt(u, delivered, id, d) && IsReply(u(id)) && AttachedAt(u, delivered, ParentOf(u(id)), e)
    ensures Fits(u, id, e)
  {
    AttachedUnderParent(u, delivered, id, d);
    var above: nat := d - 1;
    hide AttachedAt, Fits;
    LevelIsUnique(u, delivered, ParentOf(u(id)), e, above);
  }

  lemma AttachedIsNotShelved(u: Universe, delivered: set<EventId>, db: Db, id: EventId, d: nat)
    requires Sound(u, delivered, db) && AttachedAt(u, delivered, id, d)
    ensures id !in db.quarantine
  {
    assert ShelfOk(u, delivered, db, id);
    hide Sound, AttachedAt, Fits;
    if id in db.quarantine {
      var e: nat :| AttachedAt(u, delivered, ParentOf(u(id)), e) && !Fits(u, id, e);
      AttachedFits(u, delivered, id, d, e);
    }
  }

  lemma AttachedIsKept(u: Universe, delivered: set<EventId>, db: Db, id: EventId, d: nat)
    requires IsBatch(u, delivered, db) && AttachedAt(u, delivered, id, d)
    ensures id in db.events || (id in db.pending && IsReply(u(id)) && ParentOf(u(id)) !in db.events)
  {
    AttachedIsNotShelved(u, delivered, db, id, d);
    ParkedFacts(u, delivered, db, id);
    hide Sound, Fits;
    assert id in Keepable(u, delivered);
  }

  /** Everything the batch rules attach is stored once the tables are drained. */
  lemma {:induction false} AttachedIsStored(u: Universe, delivered: set<EventId>, db: Db, id: EventId, d: nat)
    requires IsBatch(u, delivered, db) && AttachedAt(u, delivered, id, d)
    ensures id in db.events && Level(db, id) == d
    decreases d
  {
    AttachedIsKept(u, delivered, db, id, d);
    if d > 0 { AttachedIsStored(u, delivered, db, ParentOf(u(id)), d - 1); }
    hide Sound, Fits, Covers, Drained;
    StoredAtItsLevel(u, delivered, db, id, d);
  }

  lemma RefusedIsShelved(u: Universe, delivered: set<EventId>, db: Db, id: EventId, reason: Reason)
    requires IsBatch(u, delivered, db) && Refused(u, delivered, id, reason)
    ensures id in db.quarantine && db.quarantine[id].reason == reason
    ensures id !in db.events && id !in db.pending
  {
    hide Exact, Rooted, Fits, WhyNot, Admissible, LatestOk, StubUsed;
    var p := ParentOf(u(id));
    var d: nat :| AttachedAt(u, delivered, p, d) && !Fits(u, id, d) && reason == WhyNot(u, id, d);
    AttachedIsStored(u, delivered, db, p, d);
    assert StoredOk(u, delivered, db, id) && ShelfOk(u, delivered, db, id);
    ParkedFacts(u, delivered, db, id);
    if id in db.events { LevelIsUnique(u, delivered, p, d, Level(db, id) - 1); }
    if id in db.quarantine {
      var e: nat :| AttachedAt(u, delivered, p, e) && !Fits(u, id, e) && db.quarantine[id].reason == WhyNot(u, id, e);
      LevelIsUnique(u, delivered, p, d, e);
    }
  }

  lemma RefusedUnderStored(u: Universe, delivered: set<EventId>, id: EventId, reason: Reason)
    requires Refused(u, delivered, id, reason)
    ensures AttachedSome(u, delivered, ParentOf(u(id)))
  {
  }

  lemma ParkedFacts(u: Universe, delivered: set<EventId>, db: Db, id: EventId)
    requires Sound(u, delivered, db)
    ensures PendingOk(u, db, id)
  {
  }

  /**
   The tables after a mesh run are the batch forest of what was delivered: stored is attached,
   quarantined is refused (with that reason), parked is a reply whose parent is not attached.
   */
  lemma TablesAreBatch(u: Universe, delivered: set<EventId>, db: Db, id: EventId)
    requires IsBatch(u, delivered, db)
    ensures id in db.events <==> AttachedSome(u, delivered, id)
    ensures id in db.quarantine <==> exists reason :: Refused(u, delivered, id, reason)
    ensures id in db.quarantine ==> Refused(u, delivered, id, db.quarantine[id].reason)
    ensures id in db.pending <==>
            id in delivered && IsReply(u(id)) && !AttachedSome(u, delivered, ParentOf(u(id)))
  {
    hide Exact, Rooted, Fits, WhyNot, Admissible, LatestOk, StubUsed;
    StoredIffAttached(u, delivered, db, id);
    ParkedFacts(u, delivered, db, id);
    assert ShelfOk(u, delivered, db, id);
    if reason :| Refused(u, delivered, id, reason) { RefusedIsShelved(u, delivered, db, id, reason); }
    if IsReply(u(id)) {
      StoredIffAttached(u, delivered, db, ParentOf(u(id)));
      if id in db.quarantine { RefusedUnderStored(u, delivered, id, db.quarantine[id].reason); }
    }
  }

  lemma StoredIffAttached(u: Universe, delivered: set<EventId>, db: Db, id: EventId)
    requires IsBatch(u, delivered, db)
    ensures id in db.events <==> AttachedSome(u, delivered, id)
    ensures id in db.events && IsReply(u(id)) ==> AttachedSome(u, delivered, ParentOf(u(id)))
  {
    assert StoredOk(u, delivered, db, id);
    if AttachedSome(u, delivered, id) {
      var d: nat :| AttachedAt(u, delivered, id, d);
      AttachedIsStored(u, delivered, db, id, d);
    }
    if id in db.events {
      var n: nat := Level(db, id);
      assert AttachedAt(u, delivered, id, n);
      if IsReply(u(id)) { assert AttachedAt(u, delivered, ParentOf(u(id)), n - 1); }
    }
  }

  // ---- two runs ------------------------------------------------------------

  /** With nothing deleted, the live replies of `x` are the stored replies that name it as parent. */
  lemma ChildrenAreStored(u: Universe, delivered: set<EventId>, db: Db, x: EventId)
    requires Sound(u, delivered, db)
    ensures LiveChildren(db, x) == set r | r in db.events && IsReply(u(r)) && ParentOf(u(r)) == x
    ensures LiveUnder(db, x) == set r | r in db.events && IsReply(u(r)) && RootHintOf(u(r)) == x
  {
    forall r
      ensures r in LiveChildren(db, x) <==> r in db.events && IsReply(u(r)) && ParentOf(u(r)) == x
      ensures r in LiveUnder(db, x) <==> r in db.events && IsReply(u(r)) && RootHintOf(u(r)) == x
    {
      assert RowOk(u, db, r) && EventOk(u, db, r) && StoredOk(u, delivered, db, r);
    }
  }

  lemma LatestIsUnique(u: Universe, s: set<EventId>, a: Option<int>, b: Option<int>)
    requires Latest(u, s, a) && Latest(u, s, b)
    ensures a == b
  {
    if s != {} {
      var r :| r in s && u(r).createdAt == a.value;
      var q :| q in s && u(q).createdAt == b.value;
    }
  }

  /** A stored event has a thread row exactly when it is a reply or has replies. */
  lemma RowsOfBatch(u: Universe, delivered: set<EventId>, db: Db, x: EventId)
    requires Sound(u, delivered, db)
    ensures x in db.thread <==> x in db.events && (IsReply(u(x)) || LiveChildren(db, x) != {})
  {
    assert RowOk(u, db, x) && EventOk(u, db, x) && StubUsed(db, x);
    if x !in db.thread { NobodyUnder(u, db, x); }
    if r :| r in LiveChildren(db, x) { assert RowOk(u, db, r); }
  }

  lemma SameRow(u: Universe, delivered: set<EventId>, db1: Db, db2: Db, x: EventId)
    requires Sound(u, delivered, db1) && Sound(u, delivered, db2) && db1.events.Keys == db2.events.Keys
    requires x in db1.thread && x in db2.thread
    ensures db1.thread[x] == db2.thread[x]
  {
    ChildrenAreStored(u, delivered, db1, x);
    ChildrenAreStored(u, delivered, db2, x);
    assert LiveChildren(db1, x) == LiveChildren(db2, x) && LiveUnder(db1, x) == LiveUnder(db2, x);
    SameAncestry(u, delivered, db1, db2, x);
    assert CountOk(db1, x) && CountOk(db2, x) && LatestOk(u, db1, x) && LatestOk(u, db2, x);
    LatestIsUnique(u, LiveChildren(db1, x), db1.thread[x].lastReplyAt, db2.thread[x].lastReplyAt);
  }

  lemma SameAncestry(u: Universe, delivered: set<EventId>, db1: Db, db2: Db, x: EventId)
    requires Sound(u, delivered, db1) && Sound(u, delivered, db2) && x in db1.thread && x in db2.thread
    ensures var a, b := db1.thread[x], db2.thread[x];
            && a.parent == b.parent && a.root == b.root && a.depth == b.depth && a.broadcast == b.broadcast
            && a.createdAt == b.createdAt && a.channel == b.channel
  {
    assert RowOk(u, db1, x) && RowOk(u, db2, x);
    assert StoredOk(u, delivered, db1, x) && StoredOk(u, delivered, db2, x);
    LevelIsUnique(u, delivered, x, Level(db1, x), Level(db2, x));
  }

  /** Both tables describe the same forest, down to every column the clock does not write. */
  ghost predicate SameForest(db1: Db, db2: Db) {
    && db1.events == db2.events
    && db1.thread == db2.thread
    && db1.pending.Keys == db2.pending.Keys
    && (forall o :: o in db1.pending ==>
        db1.pending[o].parent == db2.pending[o].parent && db1.pending[o].raw == db2.pending[o].raw)
    && db1.quarantine.Keys == db2.quarantine.Keys
    && (forall q :: q in db1.quarantine ==>
        db1.quarantine[q].reason == db2.quarantine[q].reason && db1.quarantine[q].raw == db2.quarantine[q].raw)
    && db1.slots == db2.slots
  }

  lemma SlotNamesStored(u: Universe, db: Db, s: Slot)
    requires Base(u, db) && s in db.slots
    ensures db.slots[s].eventId in db.events && IsReplaceable(u(db.slots[s].eventId).kind)
  {
    assert SlotOk(u, db, s);
  }

  lemma StoredIsAdmissible(u: Universe, delivered: set<EventId>, db: Db, id: EventId)
    requires Sound(u, delivered, db) && id in db.events
    ensures Admissible(u, id)
  {
    assert StoredOk(u, delivered, db, id);
  }

  lemma NoSlots(u: Universe, delivered: set<EventId>, db: Db)
    requires Sound(u, delivered, db)
    ensures db.slots == map[]
  {
    forall s ensures s !in db.slots {
      if s in db.slots {
        SlotNamesStored(u, db, s);
        StoredIsAdmissible(u, delivered, db, db.slots[s].eventId);
      }
    }
  }

  lemma BatchIsDetermined(u: Universe, delivered: set<EventId>, db1: Db, db2: Db)
    requires IsBatch(u, delivered, db1)
    requires IsBatch(u, delivered, db2)
    ensures SameForest(db1, db2)
  {
    SameStored(u, delivered, db1, db2);
    NoSlots(u, delivered, db1);
    NoSlots(u, delivered, db2);
    forall x ensures x in db1.thread <==> x in db2.thread {
      RowsOfBatch(u, delivered, db1, x);
      RowsOfBatch(u, delivered, db2, x);
      ChildrenAreStored(u, delivered, db1, x);
      ChildrenAreStored(u, delivered, db2, x);
    }
    forall x | x in db1.thread ensures db1.thread[x] == db2.thread[x] { SameRow(u, delivered, db1, db2, x); }
    assert db1.thread.Keys == db2.thread.Keys;
    SameShelves(u, delivered, db1, db2);
  }

  lemma SameStored(u: Universe, delivered: set<EventId>, db1: Db, db2: Db)
    requires IsBatch(u, delivered, db1)
    requires IsBatch(u, delivered, db2)
    ensures db1.events == db2.events
  {
    forall id ensures id in db1.events <==> id in db2.events {
      StoredIffAttached(u, delivered, db1, id);
      StoredIffAttached(u, delivered, db2, id);
    }
    forall id | id in db1.events ensures db1.events[id] == db2.events[id] {
      assert EventOk(u, db1, id) && EventOk(u, db2, id);
      assert StoredOk(u, delivered, db1, id) && StoredOk(u, delivered, db2, id);
    }
    assert db1.events.Keys == db2.events.Keys;
  }

  lemma SameShelves(u: Universe, delivered: set<EventId>, db1: Db, db2: Db)
    requires IsBatch(u, delivered, db1)
    requires IsBatch(u, delivered, db2)
    ensures db1.pending.Keys == db2.pending.Keys && db1.quarantine.Keys == db2.quarantine.Keys
    ensures forall o :: o in db1.pending ==>
            db1.pending[o].parent == db2.pending[o].parent && db1.pending[o].raw == db2.pending[o].raw
    ensures forall q :: q in db1.quarantine ==>
      db1.quarantine[q].reason == db2.quarantine[q].reason && db1.quarantine[q].raw == db2.quarantine[q].raw
  {
    forall id
      ensures id in db1.pending <==> id in db2.pending
      ensures id in db1.quarantine <==> id in db2.quarantine
      ensures id in db1.pending ==>
              db1.pending[id].parent == db2.pending[id].parent && db1.pending[id].raw == db2.pending[id].raw
      ensures id in db1.quarantine ==>
              db1.quarantine[id].reason == db2.quarantine[id].reason && db1.quarantine[id].raw == db2.quarantine[id].raw
    {
      SameShelf(u, delivered, db1, db2, id);
    }
  }

  lemma SameShelf(u: Universe, delivered: set<EventId>, db1: Db, db2: Db, id: EventId)
    requires IsBatch(u, delivered, db1)
    requires IsBatch(u, delivered, db2)
    ensures id in db1.pending <==> id in db2.pending
    ensures id in db1.quarantine <==> id in db2.quarantine
    ensures id in db1.pending ==>
            db1.pending[id].parent == db2.pending[id].parent && db1.pending[id].raw == db2.pending[id].raw
    ensures id in db1.quarantine ==>
            db1.quarantine[id].reason == db2.quarantine[id].reason && db1.quarantine[id].raw == db2.quarantine[id].raw
  {
    TablesAreBatch(u, delivered, db1, id);
    TablesAreBatch(u, delivered, db2, id);
    ParkedFacts(u, delivered, db1, id);
    ParkedFacts(u, delivered, db2, id);
    if id in db1.quarantine { RefusedIsShelved(u, delivered, db2, id, db1.quarantine[id].reason); }
    assert ShelfOk(u, delivered, db1, id) && ShelfOk(u, delivered, db2, id);
  }
}
