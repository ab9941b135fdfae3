/**
 What one ingest answers and writes (src/history/engine.rs `ingest_event`), in terms of the event's
 kind and tags and of the rows found: which door turns which event away, and for which reason, what a
 stored event looks like, and what attaching a reply does to the rows of its parent and its root.
 */
module IngestRules {
  import opened Options
  import opened Ids
  import opened Events
  import opened Tables
  import opened Engine
  import opened Attach
  import opened Reachable
  import opened Forest

  // ---- the verdict ---------------------------------------------------------

  /** The kinds only the relay itself may author. */
  predicate RelayKind(kind: nat) {
    kind in {13534, 39000, 39001, 39002, 39003, 39005, 39006}
  }

  /** A message kind with a `reply` marker that names this parent. */
  ghost predicate RepliesTo(ev: Event, p: EventId) {
    (ev.kind == 9 || 40002 <= ev.kind <= 40008) && FirstMark(ev.tags, "reply", p)
  }

  /** The root a reply claims: its first `root` marker, or its parent. */
  ghost predicate ClaimsRoot(ev: Event, p: EventId, r: EventId) {
    FirstMark(ev.tags, "root", r) || (NoMark(ev.tags, "root") && r == p)
  }

  /** The root of the thread a stored event is in: by its thread row, or else by its own markers. */
  ghost predicate RootedAt(db: Db, p: EventId, r: EventId)
    requires p in db.events
  {
    if p in db.thread then r == (if db.thread[p].root.Some? then db.thread[p].root.value else p)
    else
      var tags := db.events[p].ev.tags;
      if NoMark(tags, "root") then FirstMark(tags, "reply", r) || (NoMark(tags, "reply") && r == p)
      else FirstMark(tags, "root", r)
  }

  /** How deep a reply to a stored event is. */
  ghost predicate DepthUnder(db: Db, p: EventId, depth: int)
    requires p in db.events
  {
    if p in db.thread then depth == db.thread[p].depth + 1 else depth == if RootedAt(db, p, p) then 1 else 2
  }

  /** The first objection to a reply whose parent is stored. */
  ghost predicate Objection(db: Db, ev: Event, p: EventId, reason: Reason)
    requires p in db.events
  {
    match db.events[p].channel
    case None => reason == ParentHasNoChannel
    case Some(c) =>
      if Channel(ev) != Some(c) then reason == ParentInOtherChannel
      else if p in db.thread && db.thread[p].depth >= 100 then reason == DepthLimitExceeded
      else reason == RootMismatch && !exists r :: ClaimsRoot(ev, p, r) && RootedAt(db, p, r)
  }

  /** Nothing speaks against the event: it is no relay kind, and a reply fits under a stored parent. */
  ghost predicate Welcome(db: Db, ev: Event) {
    !RelayKind(ev.kind) && forall p :: RepliesTo(ev, p) ==> p in db.events && forall why :: !Objection(db, ev, p, why)
  }

  lemma KindsAgree(ev: Event, p: EventId)
    ensures IsRelayAuthored(ev.kind) <==> RelayKind(ev.kind)
    ensures RepliesTo(ev, p) <==> IsReply(ev) && ParentOf(ev) == p
    ensures IsReply(ev) ==> (ClaimsRoot(ev, ParentOf(ev), p) <==> RootHintOf(ev) == p)
    ensures RelayKind(ev.kind) ==> !IsReply(ev)
  {
    ReplyReads(ev, p);
    if IsReply(ev) {
      ReplyReads(ev, ParentOf(ev));
      ReplyReads(ev, RootHintOf(ev));
      MarkedIsFirst(ev.tags, "root", p);
      MarkedIsFirst(ev.tags, "reply", p);
    }
    hide FirstMark, NoMark;
  }

  lemma RootIsDerived(u: Universe, db: Db, p: EventId, r: EventId)
    requires Base(u, db) && p in db.events
    ensures RootedAt(db, p, r) <==> r == Ancestry(db, p).0
    ensures DepthUnder(db, p, Ancestry(db, p).1)
  {
    var tags := db.events[p].ev.tags;
    hide Base, FirstMark, NoMark, Marked;
    forall x: EventId
      ensures Marked(tags, "root") == Some(x) <==> FirstMark(tags, "root", x)
      ensures Marked(tags, "reply") == Some(x) <==> FirstMark(tags, "reply", x)
      ensures Marked(tags, "root").None? <==> NoMark(tags, "root")
      ensures Marked(tags, "reply").None? <==> NoMark(tags, "reply")
    {
      MarkedIsFirst(tags, "root", x);
      MarkedIsFirst(tags, "reply", x);
    }
  }

  lemma ObjectionsAgree(u: Universe, db: Db, ev: Event, reason: Reason)
    requires Base(u, db) && ev == u(ev.id) && IsReply(ev) && ParentOf(ev) in db.events
    ensures Resolve(db, ev) == Mismatch(reason) <==> Objection(db, ev, ParentOf(ev), reason)
    ensures !Resolve(db, ev).ParentMissing?
    ensures Resolve(db, ev).Resolved? ==>
            && Resolve(db, ev).root == RootHintOf(ev) && DepthUnder(db, ParentOf(ev), Resolve(db, ev).depth)
            && RootedAt(db, ParentOf(ev), RootHintOf(ev)) && Resolve(db, ev).parent == ParentOf(ev)
  {
    var p, hint := ParentOf(ev), RootHintOf(ev);
    KindsAgree(ev, hint);
    RootIsDerived(u, db, p, hint);
    forall r ensures ClaimsRoot(ev, p, r) <==> r == hint { KindsAgree(ev, r); }
    hide Base, RootedAt, ClaimsRoot, IsReply, DepthUnder, Ancestry;
    AncestryDepth(db, p);
  }

  lemma AncestryDepth(db: Db, p: EventId)
    requires p in db.events
    ensures p in db.thread ==> Ancestry(db, p).1 == db.thread[p].depth + 1
  {
  }

  /**
   The event is turned away before anything is stored: by its kind, because its parent is unknown, or
   for the first objection to its parent. The local door rejects it and writes nothing; the mesh door
   parks a reply whose parent is unknown and quarantines the rest, as a row that keeps the event, the
   reason and the time.
   */
  lemma TurnedAway(u: Universe, db: Db, ev: Event, door: Door, now: int, db': Db, out: Outcome, p: EventId,
        reason: Reason)
    requires Base(u, db) && ev == u(ev.id) && ev.id !in db.events && Ingests(db, ev, door, now, db', out)
    ensures RelayKind(ev.kind) ==> Shelves(db, ev, door, now, RelayAuthoredKind, db', out)
    ensures RepliesTo(ev, p) && p !in db.events ==>
            if door == Local then out == Rejected(ParentNotFound) && db' == db
            else out == Parked && db' == db.(pending := db.pending[ev.id := PendingRow(p, ev, now)])
    ensures RepliesTo(ev, p) && p in db.events && Objection(db, ev, p, reason) ==>
            Shelves(db, ev, door, now, reason, db', out)
    ensures Welcome(db, ev) ==> out.Accepted? || out.Failed?
  {
    KindsAgree(ev, p);
    if IsReply(ev) {
      KindsAgree(ev, ParentOf(ev));
      if ParentOf(ev) in db.events {
        ObjectionsAgree(u, db, ev, reason);
        if Resolve(db, ev).Mismatch? { ObjectionsAgree(u, db, ev, Resolve(db, ev).reason); }
      }
      ReplyAnswers(db, ev, door, now, db', out);
    } else {
      OtherAnswers(db, ev, door, now, db', out);
    }
    hide Base, IngestFront, FrontReply, Ingests, RelayKind, RepliesTo, Objection, Resolve, IsReply;
  }

  /** Rejected by the local door, quarantined by the mesh door, for this reason. */
  ghost predicate Shelves(db: Db, ev: Event, door: Door, now: int, reason: Reason, db': Db, out: Outcome) {
    if door == Local then out == Rejected(reason) && db' == db
    else out == Quarantined(reason) && db' == db.(quarantine := db.quarantine[ev.id := QuarantineRow(ev, reason, now)])
  }

  lemma ReplyAnswers(db: Db, ev: Event, door: Door, now: int, db': Db, out: Outcome)
    requires IsReply(ev) && ev.id !in db.events && Ingests(db, ev, door, now, db', out)
    ensures match Resolve(db, ev)
            case ParentMissing =>
              if door == Local then out == Rejected(ParentNotFound) && db' == db
              else out == Parked && db' == db.(pending := db.pending[ev.id := PendingRow(ParentOf(ev), ev, now)])
            case Mismatch(reason) => Shelves(db, ev, door, now, reason, db', out)
            case Resolved(_, _, _) => out.Accepted? || out.Failed?
    ensures Resolve(db, ev).ParentMissing? <==> ParentOf(ev) !in db.events
  {
  }

  lemma OtherAnswers(db: Db, ev: Event, door: Door, now: int, db': Db, out: Outcome)
    requires !IsReply(ev) && ev.id !in db.events && Ingests(db, ev, door, now, db', out)
    ensures IsRelayAuthored(ev.kind) ==> Shelves(db, ev, door, now, RelayAuthoredKind, db', out)
    ensures !IsRelayAuthored(ev.kind) ==> out.Accepted? || out.Failed?
  {
  }

  /** A redelivery is reported as a duplicate and changes nothing. */
  lemma DuplicateChangesNothing(db: Db, ev: Event, door: Door, now: int, db': Db, out: Outcome)
    requires ev.id in db.events && Ingests(db, ev, door, now, db', out)
    ensures out == Accepted(true, false, []) && db' == db
  {
  }

  // ---- what attaching a reply writes ---------------------------------------

  /** A `["broadcast", "1", ..]` tag. */
  ghost predicate Broadcasts(ev: Event) {
    exists i :: 0 <= i < |ev.tags| && |ev.tags[i]| >= 2 && ev.tags[i][0] == "broadcast" && ev.tags[i][1] == "1"
  }

  /** A thread row before the counters move: the reply's own, one that was there, or a new depth-0 row. */
  ghost predicate StartsAs(u: Universe, db: Db, ev: Event, p: EventId, r: EventId, depth: int, x: EventId,
                           row: ThreadRow)
  {
    if x == ev.id then
      row.broadcast == Broadcasts(ev)
      && row == ThreadRow(ev.createdAt, Channel(ev), Some(p), Some(r), depth, 0, 0, None, row.broadcast)
    else if x in db.thread then row == db.thread[x]
    else row == ThreadRow(u(x).createdAt, Channel(u(x)), None, None, 0, 0, 0, None, false)
  }

  /**
   The row after it: one more direct reply for the parent, one more reply for the root, and the time of
   the parent's last reply, by the clock of the local door or the latest timestamp on the mesh door.
   */
  predicate EndsAs(ev: Event, p: EventId, r: EventId, door: Door, now: int, x: EventId, was: ThreadRow,
        row: ThreadRow) {
    row == was.(
      replyCount := was.replyCount + (if x == p then 1 else 0),
      descendantCount := was.descendantCount + (if x == r then 1 else 0),
      lastReplyAt :=
        if x != p then was.lastReplyAt
        else if door == Local then Some(now)
        else if was.lastReplyAt.Some? && was.lastReplyAt.value > ev.createdAt then was.lastReplyAt
        else Some(ev.createdAt))
  }

  ghost predicate RowWritten(u: Universe, db: Db, ev: Event, p: EventId, r: EventId, depth: int, door: Door, now: int,
                             x: EventId, row: ThreadRow)
  {
    exists was :: StartsAs(u, db, ev, p, r, depth, x, was) && EndsAs(ev, p, r, door, now, x, was, row)
  }

  /** Everything that attaching a reply writes. */
  ghost predicate ReplyWritten(u: Universe, db: Db, ev: Event, p: EventId, r: EventId, depth: int, door: Door, now: int,
                               db': Db)
  {
    && db'.events == db.events[ev.id := EventRow(ev, Channel(ev), false)]
    && db'.quarantine == db.quarantine && db'.slots == db.slots && db'.pending == db.pending
    && db'.thread.Keys == db.thread.Keys + {ev.id, p, r}
    && forall x :: x in db'.thread ==> RowWritten(u, db, ev, p, r, depth, door, now, x, db'.thread[x])
  }

  lemma AttachedIsWritten(u: Universe, db: Db, a: Attachment, db': Db)
    requires Base(u, db) && a.ev == u(a.ev.id) && Attached(db, a, db')
    requires a.root == a.ev.id || a.root in db.events || a.root in db.thread
    ensures ReplyWritten(u, db, a.ev, a.parent, a.root, a.depth, a.door, a.now, db')
  {
    AttachedMoves(db, a, db');
    forall x | x in db'.thread
      ensures RowWritten(u, db, a.ev, a.parent, a.root, a.depth, a.door, a.now, x, db'.thread[x])
    {
      var was := RowCreated(db, a, x);
      assert EventOk(u, db, x) && RowOk(u, db, x);
      assert StartsAs(u, db, a.ev, a.parent, a.root, a.depth, x, was);
      assert db'.thread[x] == RowAttached(db, a, x);
      LastReplyIsLatest(was.lastReplyAt, a);
      assert EndsAs(a.ev, a.parent, a.root, a.door, a.now, x, was, db'.thread[x]);
    }
  }

  lemma LastReplyIsLatest(last: Option<int>, a: Attachment)
    ensures LastReply(last, a.door, a.ev.createdAt, a.now) ==
            if a.door == Local then Some(a.now)
            else if last.Some? && last.value > a.ev.createdAt then last else Some(a.ev.createdAt)
  {
  }

  /** What the reply branch stores before the drain, and the thread it tells about. */
  lemma ReplyIsWritten(u: Universe, db: Db, ev: Event, door: Door, now: int)
    returns (p: EventId, r: EventId, depth: int)
    requires Base(u, db) && ev == u(ev.id) && ev.id !in db.events && IsReply(ev)
    requires FrontReply(db, ev, door, now).ThenDrain?
    ensures RepliesTo(ev, p) && ClaimsRoot(ev, p, r) && p in db.events && RootedAt(db, p, r) && DepthUnder(db, p, depth)
    ensures ReplyWritten(u, db, ev, p, r, depth, door, now, FrontReply(db, ev, door, now).db)
    ensures FrontReply(db, ev, door, now).emits == [ThreadEmit(r, Channel(ev))]
  {
    p, r, depth := ParentOf(ev), RootHintOf(ev), Resolve(db, ev).depth;
    KindsAgree(ev, p);
    KindsAgree(ev, r);
    FrontReplyKeepsBase(u, db, ev, door, now);
    ResolvedFacts(u, db, ev);
    ObjectionsAgree(u, db, ev, RootMismatch);
    AttachedRoot(db, Attachment(ev, p, r, depth, door, now), FrontReply(db, ev, door, now).db);
    hide Base, FrontReply, Resolve, RepliesTo, ClaimsRoot, RootedAt, DepthUnder, Attached, ReplyWritten, IsReply;
    AttachedIsWritten(u, db, Attachment(ev, p, r, depth, door, now), FrontReply(db, ev, door, now).db);
  }

  lemma AttachedRoot(db: Db, a: Attachment, db': Db)
    requires Attached(db, a, db')
    ensures a.root == a.ev.id || a.root in db.events || a.root in db.thread
  {
  }

  /** What the drain stores for a parked reply is what the mesh door would store for it. */
  lemma DrainedIsWritten(u: Universe, c: Cfg, c': Cfg, now: int) returns (r: EventId, depth: int)
    requires CfgOk(u, c) && DrainStep(c, c', now) && c.batch != [] && c.batch[0].id !in c.db.events
    ensures var e := c.batch[0];
            e.id in c'.db.events ==>
              && IsReply(e) && ClaimsRoot(e, ParentOf(e), r)
              && ReplyWritten(u, Unpark(c.db, e.id), e, ParentOf(e), r, depth, Mesh, now, c'.db)
              && c'.emits == c.emits + [ThreadEmit(r, Channel(e))] && c'.stack == c.stack + [e.id]
  {
    var e := c.batch[0];
    TryKeepsCfg(u, c, c', now);
    WaitingIsSettled(u, c.db, e, now);
    MeetsMoves(c.db, e, now, c'.db);
    UnparkKeepsBase(u, c.db, e.id);
    r, depth := RootHintOf(e), 0;
    KindsAgree(e, r);
    if FateOf(c.db, e, now).Joined? {
      var a := FateOf(c.db, e, now).a;
      ResolvedFacts(u, c.db, e);
      assert a == Attachment(e, ParentOf(e), r, a.depth, Mesh, now);
      depth := a.depth;
      hide Base, Attached, ReplyWritten, ClaimsRoot, IsReply, Meets, CfgOk;
      AttachedRoot(Unpark(c.db, e.id), a, c'.db);
      AttachedIsWritten(u, Unpark(c.db, e.id), a, c'.db);
    }
  }

  // ---- what a deletion tells -----------------------------------------------

  /**
   Deleting a live reply tells of its root and its channel; deleting any other live event tells of
   nothing; a target that is not stored or already deleted changes nothing and tells of nothing.
   */
  lemma DeletionTells(u: Universe, db: Db, t: EventId, p: EventId, r: EventId)
    requires Base(u, db)
    ensures var (d, es) := DeleteOne(db, t);
            && (t !in db.events || db.events[t].deleted ==> d == db && es == [])
            && (Live(db, t) && RepliesTo(u(t), p) && ClaimsRoot(u(t), p, r) ==> es == [ThreadEmit(r, Channel(u(t)))])
            && (Live(db, t) && (forall q :: !RepliesTo(u(t), q)) ==> es == [])
  {
    assert EventOk(u, db, t) && RowOk(u, db, t);
    KindsAgree(u(t), p);
    if IsReply(u(t)) {
      KindsAgree(u(t), ParentOf(u(t)));
      KindsAgree(u(t), r);
    }
    hide Base, RepliesTo, ClaimsRoot, IsReply, DropParent, DropRoot;
  }
}
