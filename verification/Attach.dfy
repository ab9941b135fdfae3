/**
 The invariant every reachable state of the store keeps, and what the two writes that touch thread
 rows (attaching a reply, deleting an event) do to each row.

 The parts of the invariant are stated one key at a time (`EventOk`, `RowOk`, ..), so that a proof
 names the rows it uses.
 */
module Attach {
  import opened Options
  import opened Ids
  import opened Events
  import opened Tables
  import opened Engine

  // ---- counters ------------------------------------------------------------

  predicate Live(db: Db, id: EventId) {
    id in db.events && !db.events[id].deleted
  }

  predicate HasParent(db: Db, r: EventId, x: EventId) {
    r in db.thread && db.thread[r].parent == Some(x)
  }

  predicate HasRoot(db: Db, r: EventId, x: EventId) {
    r in db.thread && db.thread[r].root == Some(x)
  }

  /** Replies to `x` that are not deleted. */
  ghost function LiveChildren(db: Db, x: EventId): set<EventId> {
    set r | r in db.thread && HasParent(db, r, x) && Live(db, r)
  }

  /** Replies in the thread rooted at `x` that are not deleted. */
  ghost function LiveUnder(db: Db, x: EventId): set<EventId> {
    set r | r in db.thread && HasRoot(db, r, x) && Live(db, r)
  }

  ghost predicate CountOk(db: Db, x: EventId) {
    x in db.thread ==>
      && db.thread[x].replyCount == |LiveChildren(db, x)|
      && db.thread[x].descendantCount == |LiveUnder(db, x)|
  }

  ghost predicate CountersExact(db: Db) {
    forall x :: CountOk(db, x)
  }

  // ---- the invariant -------------------------------------------------------

  ghost predicate EventOk(u: Universe, db: Db, id: EventId) {
    id in db.events ==>
      && db.events[id].ev == u(id) && db.events[id].channel == Channel(u(id)) && InRange(u(id))
      && (IsReply(u(id)) ==> id in db.thread)
  }

  ghost predicate PendingOk(u: Universe, db: Db, o: EventId) {
    o in db.pending ==>
      db.pending[o].raw == u(o) && IsReply(u(o)) && db.pending[o].parent == ParentOf(u(o))
  }

  predicate StubOk(ev: Event, row: ThreadRow) {
    row.parent.None? && row.root.None? && row.depth == 0 && !row.broadcast && !IsReply(ev)
  }

  ghost predicate ReplyOk(ev: Event, db: Db, row: ThreadRow) {
    && IsReply(ev) && ev.id in db.events
    && row.parent == Some(ParentOf(ev)) && row.root == Some(RootHintOf(ev))
    && row.broadcast == HasBroadcast(ev.tags)
    && row.parent.value in db.thread && row.root.value in db.thread
    && db.thread[row.parent.value].depth < row.depth
    && 1 <= row.depth <= DEPTH_CAP
  }

  ghost predicate RowOk(u: Universe, db: Db, x: EventId) {
    x in db.thread ==>
      && db.thread[x].createdAt == u(x).createdAt
      && db.thread[x].channel == Channel(u(x))
      && (StubOk(u(x), db.thread[x]) || ReplyOk(u(x), db, db.thread[x]))
  }

  /** A slot points at a stored event of that slot. */
  ghost predicate SlotOk(u: Universe, db: Db, s: Slot) {
    s in db.slots ==>
      var w := db.slots[s].eventId;
      w in db.events && IsReplaceable(u(w).kind) && SlotOf(u(w)) == s && db.slots[s].createdAt == u(w).createdAt
  }

  /** A stored replaceable event holds its slot. */
  ghost predicate HolderOk(u: Universe, db: Db, id: EventId) {
    id in db.events && IsReplaceable(u(id).kind) ==>
      SlotOf(u(id)) in db.slots && db.slots[SlotOf(u(id))].eventId == id
  }

  ghost predicate SlotsOk(u: Universe, db: Db) {
    && (forall s :: SlotOk(u, db, s))
    && (forall id :: HolderOk(u, db, id))
  }

  ghost predicate Base(u: Universe, db: Db) {
    && Authentic(u)
    && (forall id :: EventOk(u, db, id))
    && (forall o :: PendingOk(u, db, o))
    && (forall x :: RowOk(u, db, x))
    && SlotsOk(u, db)
    && CountersExact(db)
  }

  /** A reply event outside `events` has no thread row. */
  lemma Unattached(u: Universe, db: Db, id: EventId)
    requires Base(u, db) && id !in db.events && IsReply(u(id))
    ensures id !in db.thread
  {
    assert RowOk(u, db, id);
  }

  /** An id without a thread row is nobody's parent and nobody's root. */
  lemma NobodyUnder(u: Universe, db: Db, x: EventId)
    requires Base(u, db) && x !in db.thread
    ensures LiveChildren(db, x) == {} && LiveUnder(db, x) == {}
  {
    forall r | r in db.thread ensures !HasParent(db, r, x) && !HasRoot(db, r, x) {
      assert RowOk(u, db, r);
    }
  }

  // ---- attaching one reply -------------------------------------------------

  /** The thread row of `x` before the counters move: new for the reply, lazily created for others. */
  function RowCreated(db: Db, a: Attachment, x: EventId): ThreadRow
    requires x == a.ev.id || x in db.thread || x in db.events
  {
    if x == a.ev.id then ReplyRow(a.ev, a.parent, a.root, a.depth)
    else if x in db.thread then db.thread[x]
    else StubRow(db.events[x])
  }

  /** The thread row of `x` after the attachment. */
  function RowAttached(db: Db, a: Attachment, x: EventId): ThreadRow
    requires x == a.ev.id || x in db.thread || x in db.events
  {
    var was := RowCreated(db, a, x);
    was.(
      replyCount := was.replyCount + (if x == a.parent then 1 else 0),
      lastReplyAt := if x == a.parent then LastReply(was.lastReplyAt, a.door, a.ev.createdAt, a.now)
        else was.lastReplyAt,
      descendantCount := was.descendantCount + (if x == a.root then 1 else 0))
  }

  ghost predicate Attachable(db: Db, a: Attachment) {
    && a.ev.id !in db.thread && a.ev.id !in db.events
    && a.parent in db.events
    && (a.root == a.ev.id || a.root in db.events || a.root in db.thread)
  }

  ghost predicate SameElsewhere(db: Db, a: Attachment, db': Db) {
    && db'.events == db.events[a.ev.id := EventRow(a.ev, Channel(a.ev), false)]
    && db'.pending == db.pending && db'.quarantine == db.quarantine && db'.slots == db.slots
    && db'.thread.Keys == db.thread.Keys + {a.ev.id, a.parent, a.root}
  }

  /** Everything `insert_reply` does to the tables, row by row. */
  ghost predicate Attached(db: Db, a: Attachment, db': Db) {
    && Attachable(db, a)
    && SameElsewhere(db, a, db')
    && forall x :: x in db'.thread ==> db'.thread[x] == RowAttached(db, a, x)
  }

  lemma AttachedMoves(db: Db, a: Attachment, db': Db)
    requires Attached(db, a, db')
    ensures db'.events.Keys == db.events.Keys + {a.ev.id} && db'.pending == db.pending
    ensures db'.thread.Keys == db.thread.Keys + {a.ev.id, a.parent, a.root}
    ensures db'.quarantine == db.quarantine && db'.slots == db.slots
    ensures db'.events == db.events[a.ev.id := EventRow(a.ev, Channel(a.ev), false)]
  {
  }

  lemma StubsInserted(db: Db, parent: EventId, root: EventId)
    ensures InsertStubs(db, parent, root).Ok? <==> parent in db.events && root in db.events
    ensures InsertStubs(db, parent, root).Ok? ==>
            var d := InsertStubs(db, parent, root).value;
            && d == db.(thread := d.thread) && d.thread.Keys == db.thread.Keys + {parent, root}
            && forall x :: x in d.thread ==>
               d.thread[x] == if x in db.thread then db.thread[x] else StubRow(db.events[x])
  {
  }

  lemma RowsCreated(db: Db, a: Attachment)
    requires a.ev.id !in db.thread && a.ev.id !in db.events && a.parent in db.events
    ensures InsertRows(db, a).Ok? <==> InRange(a.ev) && (a.root == a.ev.id || a.root in db.events)
    ensures InsertRows(db, a).Ok? ==>
            && Attachable(db, a)
            && SameElsewhere(db, a, InsertRows(db, a).value)
            && forall x :: x in InsertRows(db, a).value.thread ==>
               InsertRows(db, a).value.thread[x] == RowCreated(db, a, x)
  {
    if CanInsert(db, a.ev) {
      var db1 := InsertEventRow(db, a.ev).value;
      var db2 := db1.(thread := db1.thread[a.ev.id := ReplyRow(a.ev, a.parent, a.root, a.depth)]);
      StubsInserted(db2, a.parent, a.root);
    }
  }

  lemma BumpRows(db: Db, a: Attachment)
    requires a.parent in db.thread && a.root in db.thread
    ensures Bump(db, a).thread.Keys == db.thread.Keys && Bump(db, a) == db.(thread := Bump(db, a).thread)
    ensures forall x :: x in db.thread ==> Bump(db, a).thread[x] == db.thread[x].(
      replyCount := db.thread[x].replyCount + (if x == a.parent then 1 else 0),
      lastReplyAt := if x == a.parent then LastReply(db.thread[x].lastReplyAt, a.door, a.ev.createdAt, a.now)
        else db.thread[x].lastReplyAt,
      descendantCount := db.thread[x].descendantCount + (if x == a.root then 1 else 0))
  {
  }

  lemma BumpsAttach(db: Db, a: Attachment, d: Db)
    requires Attachable(db, a) && SameElsewhere(db, a, d)
    requires forall x :: x in d.thread ==> d.thread[x] == RowCreated(db, a, x)
    ensures Attached(db, a, Bump(d, a))
  {
    BumpRows(d, a);
    hide Bump;
  }

  /** A new reply's own row, its parent's and root's lazily created rows, and the bumps. */
  lemma InsertReplyAttaches(db: Db, a: Attachment)
    requires a.ev.id !in db.thread && a.ev.id !in db.events && a.parent in db.events
    ensures InsertReply(db, a).Ok? <==> InRange(a.ev) && (a.root == a.ev.id || a.root in db.events)
    ensures InsertReply(db, a).Ok? ==> Attached(db, a, InsertReply(db, a).value)
  {
    RowsCreated(db, a);
    if InsertRows(db, a).Ok? {
      BumpsAttach(db, a, InsertRows(db, a).value);
      hide InsertRows, Bump, Attached, SameElsewhere;
    }
  }

  /** What a successful resolution guarantees about the parent, root and depth. */
  lemma ResolvedFacts(u: Universe, db: Db, ev: Event)
    requires Base(u, db) && ev == u(ev.id) && IsReply(ev) && Resolve(db, ev).Resolved?
    ensures var r := Resolve(db, ev);
            && r.parent == ParentOf(ev) && r.parent in db.events && r.root == RootHintOf(ev)
            && 1 <= r.depth <= DEPTH_CAP
            && (r.parent in db.thread ==> db.thread[r.parent].depth < r.depth && r.root in db.thread)
            && (r.parent !in db.thread ==> !IsReply(u(r.parent)))
            && Channel(ev).Some? && Channel(u(r.parent)) == Channel(ev)
  {
    assert EventOk(u, db, ParentOf(ev)) && RowOk(u, db, ParentOf(ev));
  }

  /** The columns of a thread row that no bump touches. */
  lemma AttachedShape(db: Db, a: Attachment, db': Db, x: EventId)
    requires Attached(db, a, db') && x in db'.thread
    ensures var row := db'.thread[x]; var was := RowCreated(db, a, x);
            && row.parent == was.parent && row.root == was.root && row.depth == was.depth
            && row.createdAt == was.createdAt && row.channel == was.channel && row.broadcast == was.broadcast
  {
  }

  lemma AttachChild(db: Db, a: Attachment, db': Db, x: EventId, r: EventId)
    requires Attached(db, a, db')
    ensures r in LiveChildren(db', x) <==> r in LiveChildren(db, x) || (x == a.parent && r == a.ev.id)
    ensures r in LiveUnder(db', x) <==> r in LiveUnder(db, x) || (x == a.root && r == a.ev.id)
  {
    if r in db'.thread { AttachedShape(db, a, db', r); }
  }

  lemma AttachChildren(db: Db, a: Attachment, db': Db, x: EventId)
    requires Attached(db, a, db')
    ensures LiveChildren(db', x) == LiveChildren(db, x) + (if x == a.parent then {a.ev.id} else {})
    ensures LiveUnder(db', x) == LiveUnder(db, x) + (if x == a.root then {a.ev.id} else {})
    ensures a.ev.id !in LiveChildren(db, x) && a.ev.id !in LiveUnder(db, x)
  {
    forall r
      ensures r in LiveChildren(db', x) <==> r in LiveChildren(db, x) || (x == a.parent && r == a.ev.id)
      ensures r in LiveUnder(db', x) <==> r in LiveUnder(db, x) || (x == a.root && r == a.ev.id)
    {
      AttachChild(db, a, db', x, r);
    }
    hide SameElsewhere, RowAttached, LiveChildren, LiveUnder;
    NewInNoThread(db, a, db', x);
  }

  lemma NewInNoThread(db: Db, a: Attachment, db': Db, x: EventId)
    requires Attached(db, a, db')
    ensures a.ev.id !in LiveChildren(db, x) && a.ev.id !in LiveUnder(db, x)
  {
  }

  lemma CountCreated(u: Universe, db: Db, a: Attachment, x: EventId)
    requires Base(u, db) && Attachable(db, a) && (x == a.ev.id || x in db.thread || x in db.events)
    ensures RowCreated(db, a, x).replyCount == |LiveChildren(db, x)|
    ensures RowCreated(db, a, x).descendantCount == |LiveUnder(db, x)|
  {
    assert CountOk(db, x);
    if x !in db.thread { NobodyUnder(u, db, x); }
  }

  lemma AttachCount(u: Universe, db: Db, a: Attachment, db': Db, x: EventId)
    requires Base(u, db) && Attached(db, a, db') && x in db'.thread
    ensures CountOk(db', x)
  {
    CountCreated(u, db, a, x);
    AttachChildren(db, a, db', x);
    hide Base, LiveChildren, LiveUnder, RowCreated, SameElsewhere;
    assert db'.thread[x] == RowAttached(db, a, x);
  }

  lemma NoCount(db: Db, x: EventId)
    requires x !in db.thread
    ensures CountOk(db, x)
  {
  }

  lemma AttachCounters(u: Universe, db: Db, a: Attachment, db': Db)
    requires Base(u, db) && Attached(db, a, db')
    ensures CountersExact(db')
  {
    hide Base, Attached, CountOk;
    forall x ensures CountOk(db', x) {
      if x in db'.thread { AttachCount(u, db, a, db', x); } else { NoCount(db', x); }
    }
  }

  lemma AttachOwnRowOk(u: Universe, db: Db, a: Attachment, db': Db)
    requires Base(u, db) && a.ev == u(a.ev.id) && IsReply(a.ev) && Attached(db, a, db')
    requires Resolve(db, a.ev) == Resolved(a.parent, a.root, a.depth)
    ensures RowOk(u, db', a.ev.id)
  {
    ResolvedFacts(u, db, a.ev);
    AttachedShape(db, a, db', a.ev.id);
    AttachedShape(db, a, db', a.parent);
    hide Base, Resolve;
    assert ReplyOk(a.ev, db', db'.thread[a.ev.id]);
  }

  lemma AttachRowOk(u: Universe, db: Db, a: Attachment, db': Db, x: EventId)
    requires Base(u, db) && a.ev == u(a.ev.id) && IsReply(a.ev) && Attached(db, a, db') && x in db'.thread
    requires Resolve(db, a.ev) == Resolved(a.parent, a.root, a.depth)
    ensures RowOk(u, db', x)
  {
    if x == a.ev.id {
      AttachOwnRowOk(u, db, a, db');
    } else {
      ResolvedFacts(u, db, a.ev);
      AttachedShape(db, a, db', x);
      assert RowOk(u, db, x) && EventOk(u, db, x);
      if x in db.thread && ReplyOk(u(x), db, db.thread[x]) {
        AttachedShape(db, a, db', db.thread[x].parent.value);
        assert ReplyOk(u(x), db', db'.thread[x]);
      } else {
        assert StubOk(u(x), db'.thread[x]);
      }
    }
  }

  lemma AttachKeepsBase(u: Universe, db: Db, a: Attachment, db': Db)
    requires Base(u, db) && a.ev == u(a.ev.id) && IsReply(a.ev) && InRange(a.ev) && Attached(db, a, db')
    requires Resolve(db, a.ev) == Resolved(a.parent, a.root, a.depth)
    ensures Base(u, db')
  {
    AttachCounters(u, db, a, db');
    forall x ensures RowOk(u, db', x) {
      if x in db'.thread { AttachRowOk(u, db, a, db', x); }
    }
    forall id ensures EventOk(u, db', id) && HolderOk(u, db', id) {
      assert EventOk(u, db, id) && HolderOk(u, db, id);
    }
    forall o ensures PendingOk(u, db', o) { assert PendingOk(u, db, o); }
    forall s ensures SlotOk(u, db', s) { assert SlotOk(u, db, s); }
  }

  // ---- deleting one event --------------------------------------------------

  /** The thread row of `x` after the live event `t` is deleted. */
  function RowDeleted(db: Db, t: EventId, x: EventId): ThreadRow
    requires x in db.thread
  {
    var row := db.thread[x];
    row.(
      replyCount := if HasParent(db, t, x) then Max(row.replyCount - 1, 0) else row.replyCount,
      descendantCount := if HasRoot(db, t, x) then Max(row.descendantCount - 1, 0) else row.descendantCount)
  }

  /** Everything the deletion of one live event does to the tables. */
  ghost predicate Deleted(db: Db, t: EventId, d: Db) {
    && Live(db, t)
    && d.events == db.events[t := db.events[t].(deleted := true)]
    && d.pending == db.pending && d.quarantine == db.quarantine && d.slots == db.slots
    && d.thread.Keys == db.thread.Keys
    && forall x :: x in db.thread ==> d.thread[x] == RowDeleted(db, t, x)
  }

  /** Both counters of one deleted reply go down by one, and nothing else moves. */
  lemma DropBoth(db: Db, p: EventId, q: EventId)
    ensures var d := DropRoot(DropParent(db, p), q);
            && d == db.(thread := d.thread) && d.thread.Keys == db.thread.Keys
            && forall x :: x in db.thread ==> d.thread[x] == db.thread[x].(
                 replyCount := if x == p then Max(db.thread[x].replyCount - 1, 0) else db.thread[x].replyCount,
                 descendantCount :=
                   if x == q then Max(db.thread[x].descendantCount - 1, 0) else db.thread[x].descendantCount)
  {
  }

  lemma DropRows(db: Db, t: EventId)
    requires t in db.thread
    requires db.thread[t].parent.Some? <==> db.thread[t].root.Some?
    requires Live(db, t)
    ensures Deleted(db, t, DeleteOne(db, t).0)
  {
    var tm := db.thread[t];
    if tm.parent.Some? {
      var flipped := db.(events := db.events[t := db.events[t].(deleted := true)]);
      DropBoth(flipped, tm.parent.value, tm.root.value);
      hide DropParent, DropRoot;
    }
  }

  lemma DeleteEffect(u: Universe, db: Db, t: EventId)
    requires Base(u, db) && Live(db, t)
    ensures Deleted(db, t, DeleteOne(db, t).0)
  {
    assert RowOk(u, db, t);
    if t in db.thread { DropRows(db, t); }
  }

  lemma DeleteChildren(db: Db, t: EventId, d: Db, x: EventId)
    requires Deleted(db, t, d)
    ensures LiveChildren(d, x) == LiveChildren(db, x) - {t}
    ensures LiveUnder(d, x) == LiveUnder(db, x) - {t}
  {
    forall r | r in db.thread
      ensures HasParent(d, r, x) <==> HasParent(db, r, x)
      ensures HasRoot(d, r, x) <==> HasRoot(db, r, x)
      ensures Live(d, r) <==> Live(db, r) && r != t
    {
    }
  }

  /** Deleting keeps the counters exact, and `MAX(.. - 1, 0)` never clips. */
  lemma DeleteCounters(db: Db, t: EventId, d: Db)
    requires CountersExact(db) && Deleted(db, t, d)
    ensures CountersExact(d)
    ensures forall x :: x in db.thread && HasParent(db, t, x) ==> db.thread[x].replyCount >= 1
    ensures forall x :: x in db.thread && HasRoot(db, t, x) ==> db.thread[x].descendantCount >= 1
  {
    forall x
      ensures x in db.thread && HasParent(db, t, x) ==> db.thread[x].replyCount >= 1
      ensures x in db.thread && HasRoot(db, t, x) ==> db.thread[x].descendantCount >= 1
      ensures CountOk(d, x)
    {
      DeleteChildren(db, t, d, x);
      assert CountOk(db, x);
      if t in LiveChildren(db, x) { assert |LiveChildren(db, x) - {t}| == |LiveChildren(db, x)| - 1; }
      if t in LiveUnder(db, x) { assert |LiveUnder(db, x) - {t}| == |LiveUnder(db, x)| - 1; }
    }
  }

  lemma DeleteKeepsBase(u: Universe, db: Db, target: EventId)
    requires Base(u, db)
    ensures Base(u, DeleteOne(db, target).0)
  {
    if Live(db, target) {
      var d := DeleteOne(db, target).0;
      DeleteEffect(u, db, target);
      DeleteCounters(db, target, d);
      forall x ensures RowOk(u, d, x) {
        assert RowOk(u, db, x);
        if x in db.thread && db.thread[x].parent.Some? { assert db.thread[x].parent.value in d.thread; }
      }
      forall id ensures EventOk(u, d, id) && HolderOk(u, d, id) {
        assert EventOk(u, db, id) && HolderOk(u, db, id);
      }
      forall o ensures PendingOk(u, d, o) { assert PendingOk(u, db, o); }
      forall s ensures SlotOk(u, d, s) { assert SlotOk(u, db, s); }
    }
  }
}
