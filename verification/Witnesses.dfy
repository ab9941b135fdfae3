/**
 Reachable runs that show why the conditions elsewhere are needed: a reply with a timestamp out of
 range turns its parent away, a reply under a superseded root is an error, and of two replies to a
 parent that carries markers of its own only the first is stored.
 */
module Witnesses {
  import opened Options
  import opened Ids
  import opened Events
  import opened Tables
  import opened Engine
  import opened Attach
  import opened Reachable
  import opened Convergence
  import opened MeshRuns
  import F = Forest
  import L = Limits

  // ---- the events of the runs ----------------------------------------------

  /** The text of the id 1. */
  function One64(): string {
    L.Zeros(63) + ['1']
  }

  lemma IdTexts()
    ensures Is64Hex(L.Zeros(64)) && HexValue(L.Zeros(64)) == 0
    ensures Is64Hex(One64()) && HexValue(One64()) == 1
  {
    L.ZerosSpellZero(64);
    L.ZerosSpellZero(63);
    assert One64()[..63] == L.Zeros(63);
  }

  const LIST_KIND := 10002

  function Mark(hex: string, marker: string): Tag {
    ["e", hex, "", marker]
  }

  /** Tags of an event in one fixed channel. */
  function InRoom(marks: seq<Tag>): seq<Tag> {
    [["h", "room"]] + marks
  }

  const ROOM := Some(Lower("room"))

  lemma {:induction false} NoChannelTags(marks: seq<Tag>)
    requires forall t :: t in marks ==> !Named(t, "h")
    ensures ChannelValues(marks) == []
  {
    if marks != [] { NoChannelTags(marks[1..]); }
  }

  lemma RoomChannel(ev: Event, marks: seq<Tag>)
    requires ev.tags == InRoom(marks) && forall t :: t in marks ==> !Named(t, "h")
    ensures Channel(ev) == ROOM
  {
    NoChannelTags(marks);
    assert InRoom(marks)[1..] == marks && Named(InRoom(marks)[0], "h");
    assert [Lower("room")] + [] == [Lower("room")];
  }

  lemma MarkedCons(t: Tag, rest: seq<Tag>, marker: string)
    ensures Marked([t] + rest, marker) == if IsMarker(t, marker) then Some(HexValue(t[1])) else Marked(rest, marker)
  {
    assert ([t] + rest)[1..] == rest;
  }

  lemma RoomMarkers(marks: seq<Tag>, marker: string)
    ensures Marked(InRoom(marks), marker) == Marked(marks, marker)
  {
    MarkedCons(["h", "room"], marks, marker);
  }

  /** No marker, one marker, or a root and a reply marker. */
  lemma MarkersOf(hex: string, other: string, kind: string, marker: string)
    requires Is64Hex(hex) && Is64Hex(other)
    ensures Marked(InRoom([]), marker) == None
    ensures Marked(InRoom([Mark(hex, kind)]), marker) == if marker == kind then Some(HexValue(hex)) else None
    ensures Marked(InRoom([Mark(hex, "root"), Mark(other, "reply")]), marker) ==
            if marker == "root" then Some(HexValue(hex)) else if marker == "reply" then Some(HexValue(other)) else None
  {
    RoomMarkers([], marker);
    RoomMarkers([Mark(hex, kind)], marker);
    RoomMarkers([Mark(hex, "root"), Mark(other, "reply")], marker);
    MarkedCons(Mark(hex, kind), [], marker);
    assert [Mark(hex, kind)] + [] == [Mark(hex, kind)];
    MarkedCons(Mark(hex, "root"), [Mark(other, "reply")], marker);
    MarkedCons(Mark(other, "reply"), [], marker);
    assert [Mark(hex, "root")] + [Mark(other, "reply")] == [Mark(hex, "root"), Mark(other, "reply")];
    assert [Mark(other, "reply")] + [] == [Mark(other, "reply")];
  }

  function Top(id: EventId, kind: nat, createdAt: nat): Event {
    Event(id, "author", createdAt, kind, InRoom([]), "")
  }

  /** A reply to event 0 that names it as its root too. */
  function DirectReply(id: EventId, createdAt: nat): Event {
    Event(id, "author", createdAt, 9, InRoom([Mark(L.Zeros(64), "reply")]), "")
  }

  lemma DirectReplyFacts(id: EventId, createdAt: nat)
    ensures var ev := DirectReply(id, createdAt);
            IsReply(ev) && Plain(ev) && ParentOf(ev) == 0 && RootHintOf(ev) == 0 && Channel(ev) == ROOM
  {
    IdTexts();
    MarkersOf(L.Zeros(64), One64(), "reply", "root");
    MarkersOf(L.Zeros(64), One64(), "reply", "reply");
    RoomChannel(DirectReply(id, createdAt), [Mark(L.Zeros(64), "reply")]);
  }

  lemma TopFacts(id: EventId, kind: nat, createdAt: nat)
    ensures var ev := Top(id, kind, createdAt); !IsReply(ev) && Plain(ev) && Channel(ev) == ROOM
    ensures DeriveOwnRoot(InRoom([]), id) == id
  {
    IdTexts();
    MarkersOf(L.Zeros(64), One64(), "reply", "root");
    MarkersOf(L.Zeros(64), One64(), "reply", "reply");
    RoomChannel(Top(id, kind, createdAt), []);
  }

  /** A reply to `parent` in the thread of `root`. */
  function DeepReply(id: EventId, root: string, parent: string): Event {
    Event(id, "author", 8, 9, InRoom([Mark(root, "root"), Mark(parent, "reply")]), "")
  }

  lemma DeepReplyFacts(id: EventId, root: string, parent: string)
    requires Is64Hex(root) && Is64Hex(parent)
    ensures var ev := DeepReply(id, root, parent);
            && IsReply(ev) && ParentOf(ev) == HexValue(parent) && RootHintOf(ev) == HexValue(root)
            && Channel(ev) == ROOM
  {
    MarkersOf(root, parent, "reply", "root");
    MarkersOf(root, parent, "reply", "reply");
    RoomChannel(DeepReply(id, root, parent), [Mark(root, "root"), Mark(parent, "reply")]);
  }

  // ---- steps of the runs ---------------------------------------------------

  /** The front of an event that is only inserted. */
  lemma InsertFront(db: Db, ev: Event)
    requires !IsReply(ev) && !IsRelayAuthored(ev.kind) && !IsDeletionKind(ev.kind) && !IsReplaceable(ev.kind)
    requires CanInsert(db, ev)
    ensures IngestFront(db, ev, Mesh, 8) ==
            ThenDrain(db.(events := db.events[ev.id := EventRow(ev, Channel(ev), false)]), [])
  {
  }

  /** The front of a replaceable event that takes its slot from `gone`. */
  lemma ListFront(db: Db, ev: Event, gone: set<EventId>)
    requires ev.kind == LIST_KIND && CanInsert(db, ev) && gone <= db.events.Keys
    requires SlotOf(ev) in db.slots ==> !StoredWins(db.slots[SlotOf(ev)], ev)
    requires gone == if SlotOf(ev) in db.slots then {db.slots[SlotOf(ev)].eventId} else {}
    ensures IngestFront(db, ev, Mesh, 8) == ThenDrain(
              db.(events := (db.events - gone)[ev.id := EventRow(ev, Channel(ev), false)],
                  slots := db.slots[SlotOf(ev) := SlotRow(ev.id, ev.createdAt)]), [])
  {
    assert db.events - {} == db.events;
  }

  /** Storing an event nobody waits for. */
  lemma StoresTop(u: Universe, run: seq<Step>, db: Db, id: EventId, d: Db) returns (more: seq<Step>)
    requires Reaches(u, run, db) && u(id).id == id && d.pending == map[]
    requires IngestFront(db, u(id), Mesh, 8) == ThenDrain(d, [])
    ensures Reaches(u, more, d)
  {
    assert !L.Awaited(d, id);
    more := L.StoresUnawaited(u, run, db, id, d, []);
  }

  lemma ReplyStores(u: Universe, db: Db, id: EventId, a: Attachment)
    requires Base(u, db) && id !in db.events && IsReply(u(id)) && InRange(u(id)) && a.root in db.events
    requires a == Attachment(u(id), a.parent, a.root, a.depth, Mesh, 8)
    requires Resolve(db, u(id)) == Resolved(a.parent, a.root, a.depth)
    ensures InsertReply(db, a).Ok? && Attached(db, a, InsertReply(db, a).value)
  {
    assert u(id).id == id;
    Unattached(u, db, id);
    ResolvedFacts(u, db, u(id));
    hide Base, Attached, Resolve, IsReply;
    InsertReplyAttaches(db, a);
  }

  lemma ReplyFront(db: Db, ev: Event, a: Attachment)
    requires ev.id !in db.events && IsReply(ev) && InsertReply(db, a).Ok?
    requires a == Attachment(ev, a.parent, a.root, a.depth, Mesh, 8)
    requires Resolve(db, ev) == Resolved(a.parent, a.root, a.depth)
    ensures IngestFront(db, ev, Mesh, 8) == ThenDrain(InsertReply(db, a).value, [EmitFor(ev, a.root)])
  {
    hide Resolve, InsertReply;
  }

  /** Storing a reply nobody waits for. */
  lemma StoresReply(u: Universe, run: seq<Step>, db: Db, id: EventId, a: Attachment) returns (more: seq<Step>, d: Db)
    requires Authentic(u) && Reaches(u, run, db) && db.pending == map[]
    requires id !in db.events && IsReply(u(id)) && a == Attachment(u(id), a.parent, a.root, a.depth, Mesh, 8)
    requires Resolve(db, u(id)) == Resolved(a.parent, a.root, a.depth) && InRange(u(id)) && a.root in db.events
    ensures Reaches(u, more, d) && Attached(db, a, d) && d.pending == map[]
  {
    hide Base, Reaches, Attached, IngestFront, Resolve, InsertReply, IsReply, InRange;
    assert u(id).id == id;
    ReachableBase(u, run, db);
    ReplyStores(u, db, id, a);
    ReplyFront(db, u(id), a);
    d := InsertReply(db, a).value;
    AttachedMoves(db, a, d);
    more := L.StoresUnawaited(u, run, db, id, d, [EmitFor(u(id), a.root)]);
  }

  // ---- a timestamp out of range --------------------------------------------

  /** Event 0 is a top-level event of this kind, event 1 a reply to it from beyond 64 signed bits. */
  function LateEvent(kind: nat, id: EventId): (ev: Event)
    ensures ev.id == id
  {
    if id == 0 then Top(0, kind, 5) else if id == 1 then DirectReply(1, I64_MAX + 1) else Event(id, "", 0, 1, [], "")
  }

  function LateUniverse(kind: nat): (u: Universe)
    ensures forall id :: u(id) == LateEvent(kind, id)
  {
    (id: EventId) => LateEvent(kind, id)
  }

  lemma LateIsAuthentic(kind: nat)
    ensures Authentic(LateUniverse(kind))
  {
    forall id ensures LateUniverse(kind)(id).id == id { assert LateUniverse(kind)(id) == LateEvent(kind, id); }
  }

  /** The front of event 0 on tables that hold no event. */
  lemma LateTopFront(kind: nat, db: Db)
    requires !IsRelayAuthored(kind) && !IsDeletionKind(kind) && db.events == map[] && db.thread == map[]
             && db.slots == map[]
    ensures var f := IngestFront(db, Top(0, kind, 5), Mesh, 8);
            && f.ThenDrain? && f.emits == [] && f.db.events == map[0 := EventRow(Top(0, kind, 5), ROOM, false)]
            && f.db.pending == db.pending && f.db.thread == map[]
  {
    TopFacts(0, kind, 5);
  }

  lemma LateReplyFails(kind: nat, d: Db)
    requires d.events == map[0 := EventRow(Top(0, kind, 5), ROOM, false)] && d.thread == map[]
    ensures var r := DirectReply(1, I64_MAX + 1);
            FrontReply(d, r, Mesh, 8) == Final(d, Outcome.Failed) && TryAttach(d, r, 8).Failed?
  {
    TopFacts(0, kind, 5);
    DirectReplyFacts(1, I64_MAX + 1);
    var r := DirectReply(1, I64_MAX + 1);
    assert Resolve(d, r) == Resolved(0, 0, 1) && Resolve(Unpark(d, 1), r) == Resolved(0, 0, 1);
  }

  lemma IngestedAlone(db: Db, ev: Event, d: Db)
    requires IngestFront(db, ev, Mesh, 8) == ThenDrain(d, []) && d.pending == map[]
    ensures Ingests(db, ev, Mesh, 8, d, Accepted(false, false, []))
  {
    assert !L.Awaited(d, ev.id);
    L.NothingWaits(d, ev.id, [], 8);
    assert DrainEnds(Cfg(d, [], [], []), 8, db, d, Accepted(false, false, []));
  }

  lemma IngestedFailing(db: Db, ev: Event)
    requires IsReply(ev) && ev.id !in db.events && FrontReply(db, ev, Mesh, 8) == Final(db, Outcome.Failed)
    ensures Ingests(db, ev, Mesh, 8, db, Outcome.Failed)
  {
  }

  /** Top-level event first: it is stored, and the late reply is an error. */
  lemma LateReplySecond(kind: nat) returns (run: seq<Step>, db: Db)
    requires !IsRelayAuthored(kind) && !IsDeletionKind(kind)
    ensures MeshRun(LateUniverse(kind), run, db) && Delivered(run) == {0, 1}
    ensures db.events.Keys == {0} && db.pending == map[]
  {
    var u := LateUniverse(kind);
    LateTopFront(kind, EMPTY_DB);
    db := IngestFront(EMPTY_DB, u(0), Mesh, 8).db;
    LateReplyFails(kind, db);
    DirectReplyFacts(1, I64_MAX + 1);
    assert u(0) == Top(0, kind, 5) && u(1) == DirectReply(1, I64_MAX + 1);
    EmptyRun(u);
    var first, second := Accepted(false, false, []), Outcome.Failed;
    hide Ingests, IngestFront, FrontReply, MeshRun, Delivered, LateEvent, DirectReply, Top;
    IngestedAlone(EMPTY_DB, u(0), db);
    IngestedFailing(db, u(1));
    run := OneMoreDelivery(u, [], EMPTY_DB, 0, 8, db, first);
    run := OneMoreDelivery(u, run, db, 1, 8, db, second);
    assert {} + {0} + {1} == {0, 1};
  }

  /** Late reply first: it parks, and the event it waits for is turned away. */
  lemma LateReplyFirst(kind: nat) returns (run: seq<Step>, db: Db)
    requires !IsRelayAuthored(kind) && !IsDeletionKind(kind)
    ensures MeshRun(LateUniverse(kind), run, db) && Delivered(run) == {0, 1}
    ensures db.events == map[] && db.pending.Keys == {1}
  {
    var u := LateUniverse(kind);
    DirectReplyFacts(1, I64_MAX + 1);
    db := Park(EMPTY_DB, u(1), 0, 8);
    assert IngestFront(EMPTY_DB, u(1), Mesh, 8) == Final(db, Parked);
    EmptyRun(u);
    run := OneMoreDelivery(u, [], EMPTY_DB, 1, 8, db, Parked);
    LateTopFront(kind, db);
    var d := IngestFront(db, u(0), Mesh, 8).db;
    TurnedAway(kind, db, d);
    run := OneMoreDelivery(u, run, db, 0, 8, db, Outcome.Failed);
    assert {} + {1} + {0} == {0, 1};
  }

  lemma TurnedAway(kind: nat, db: Db, d: Db)
    requires IngestFront(db, Top(0, kind, 5), Mesh, 8) == ThenDrain(d, [])
    requires d.events == map[0 := EventRow(Top(0, kind, 5), ROOM, false)] && d.thread == map[]
    requires d.pending == map[1 := PendingRow(0, DirectReply(1, I64_MAX + 1), 8)]
    ensures Ingests(db, Top(0, kind, 5), Mesh, 8, db, Outcome.Failed)
  {
    LateReplyFails(kind, d);
    var r := DirectReply(1, I64_MAX + 1);
    var c0, c := DrainStart(d, 0, []), Cfg(d, [], [r], []);
    assert c0.stack[..0] == [] && Children(d, 0, [r]);
    assert DrainsTo(c0, c0, 8, 0) && DrainStep(c0, c, 8);
    assert DrainsTo(c0, c, 8, 1) && DrainEnds(c, 8, db, db, Outcome.Failed);
  }

  /**
   The same two events in the two orders: event 0 is stored in one and never in the other. Event 0
   may be of any kind that gossip may store, a replaceable event included.
   */
  lemma LateReplyTurnsItsParentAway(kind: nat)
    returns (u: Universe, run1: seq<Step>, db1: Db, run2: seq<Step>, db2: Db)
    requires !IsRelayAuthored(kind) && !IsDeletionKind(kind)
    ensures Authentic(u) && u(0).kind == kind && Plain(u(0)) && InRange(u(0)) && Plain(u(1)) && !InRange(u(1))
    ensures MeshRun(u, run1, db1) && MeshRun(u, run2, db2) && Delivered(run1) == Delivered(run2) == {0, 1}
    ensures 0 in db1.events && 0 !in db2.events && 1 !in db1.pending && 1 in db2.pending
  {
    u := LateUniverse(kind);
    LateIsAuthentic(kind);
    TopFacts(0, kind, 5);
    DirectReplyFacts(1, I64_MAX + 1);
    run1, db1 := LateReplySecond(kind);
    run2, db2 := LateReplyFirst(kind);
  }

  // ---- a superseded root ---------------------------------------------------

  /** A replaceable event 0, a reply 1 to it, the event 2 that supersedes it, a reply 3 to the reply. */
  ghost predicate Revised(u: Universe) {
    && Authentic(u)
    && u(0).kind == LIST_KIND && u(2).kind == LIST_KIND && SlotOf(u(0)) == SlotOf(u(2))
    && u(0).createdAt < u(2).createdAt && DeriveOwnRoot(u(0).tags, 0) == 0
    && IsReply(u(1)) && ParentOf(u(1)) == 0 && RootHintOf(u(1)) == 0
    && IsReply(u(3)) && ParentOf(u(3)) == 1 && RootHintOf(u(3)) == 0
    && forall id :: 0 <= id <= 3 ==> InRange(u(id)) && Channel(u(id)) == ROOM
  }

  function RevisedEvent(id: EventId): (ev: Event)
    ensures ev.id == id
  {
    if id == 0 then Top(0, LIST_KIND, 5)
    else if id == 1 then DirectReply(1, 6)
    else if id == 2 then Top(2, LIST_KIND, 7)
    else DeepReply(id, L.Zeros(64), One64())
  }

  lemma RevisedExists() returns (u: Universe)
    ensures Revised(u)
  {
    u := (id: EventId) => RevisedEvent(id);
    forall id ensures u(id).id == id { assert u(id) == RevisedEvent(id); }
    TopFacts(0, LIST_KIND, 5);
    DirectReplyFacts(1, 6);
    TopFacts(2, LIST_KIND, 7);
    IdTexts();
    DeepReplyFacts(3, L.Zeros(64), One64());
  }

  /** The tables after events 0 and 1. */
  ghost predicate Answered(u: Universe, db: Db) {
    && db.pending == map[] && db.events.Keys == {0, 1} && db.events[1] == EventRow(u(1), ROOM, false)
    && db.slots == map[SlotOf(u(0)) := SlotRow(0, u(0).createdAt)]
    && 1 in db.thread && db.thread[1].root == Some(0) && db.thread[1].depth == 1
  }

  lemma RootStored(u: Universe) returns (db: Db)
    requires Revised(u)
    ensures IngestFront(EMPTY_DB, u(0), Mesh, 8) == ThenDrain(db, [])
    ensures db == Db(map[0 := EventRow(u(0), ROOM, false)], map[], map[], map[],
                     map[SlotOf(u(0)) := SlotRow(0, u(0).createdAt)])
    ensures Resolve(db, u(1)) == Resolved(0, 0, 1)
  {
    ListFront(EMPTY_DB, u(0), {});
    var row := EventRow(u(0), ROOM, false);
    assert (EMPTY_DB.events - {})[0 := row] == map[0 := row];
    db := IngestFront(EMPTY_DB, u(0), Mesh, 8).db;
    assert InRange(u(1));
  }

  lemma RootThenReply(u: Universe) returns (run: seq<Step>, db: Db)
    requires Revised(u)
    ensures Reaches(u, run, db) && Answered(u, db)
  {
    var stored := RootStored(u);
    assert InRange(u(1)) && Reaches(u, [], EMPTY_DB);
    hide IngestFront, Resolve, Reaches, SlotOf;
    run := StoresTop(u, [], EMPTY_DB, 0, stored);
    var a := Attachment(u(1), 0, 0, 1, Mesh, 8);
    run, db := StoresReply(u, run, stored, 1, a);
    AttachedShape(stored, a, db, 1);
  }

  /** Event 2 takes the slot from event 0 and leaves the thread rows alone. */
  lemma Superseding(u: Universe, was: Db) returns (db: Db)
    requires Revised(u) && Answered(u, was)
    ensures IngestFront(was, u(2), Mesh, 8) == ThenDrain(db, [])
    ensures db.events.Keys == {1, 2} && db.pending == map[]
    ensures Resolve(db, u(3)) == Resolved(1, 0, 2)
  {
    assert InRange(u(2)) && InRange(u(3));
    ListFront(was, u(2), {0});
    db := IngestFront(was, u(2), Mesh, 8).db;
  }

  /**
   A replaceable event is answered and then superseded: a further reply in its thread resolves, yet
   storing it is an error, because the root's event is gone.
   */
  lemma SupersededRootFailsReplies() returns (u: Universe, run: seq<Step>, db: Db)
    ensures Authentic(u) && Reaches(u, run, db) && IsReply(u(3)) && 3 !in db.events
    ensures Resolve(db, u(3)) == Resolved(1, 0, 2) && 1 in db.events && 0 !in db.events && InRange(u(3))
    ensures FrontReply(db, u(3), Mesh, 8) == Final(db, Outcome.Failed)
  {
    u := RevisedExists();
    assert InRange(u(3));
    var before, was := RootThenReply(u);
    db := Superseding(u, was);
    hide IngestFront, Resolve, FrontReply, Reaches, Answered;
    run := StoresTop(u, before, was, 2, db);
    ReachableBase(u, run, db);
    L.ResolvedReplyFails(u, db, u(3), Mesh, 8);
  }

  // ---- a parent with markers of its own ------------------------------------

  /** Event 0 is no reply but names event 1 as a root; every other event replies to 0 under root 1. */
  ghost predicate MarkedParent(u: Universe) {
    && Authentic(u)
    && !IsReply(u(0)) && u(0).kind == 1 && !IsReply(u(1)) && u(1).kind == 9
    && DeriveOwnRoot(u(0).tags, 0) == 1
    && (forall id :: id > 1 ==> RepliesUnder(u(id), 0, 1))
    && forall id :: InRange(u(id)) && Channel(u(id)) == ROOM
  }

  predicate RepliesUnder(ev: Event, parent: EventId, root: EventId) {
    IsReply(ev) && ParentOf(ev) == parent && RootHintOf(ev) == root
  }

  function MarkedEvent(id: EventId): (ev: Event)
    ensures ev.id == id
  {
    if id == 0 then Event(0, "author", 5, 1, InRoom([Mark(One64(), "root")]), "")
    else if id == 1 then Top(1, 9, 4)
    else DeepReply(id, One64(), L.Zeros(64))
  }

  lemma MarkedExists() returns (u: Universe)
    ensures MarkedParent(u)
  {
    u := (id: EventId) => MarkedEvent(id);
    IdTexts();
    TopFacts(1, 9, 4);
    MarkersOf(One64(), One64(), "root", "root");
    MarkersOf(One64(), One64(), "root", "reply");
    RoomChannel(MarkedEvent(0), [Mark(One64(), "root")]);
    forall id ensures u(id).id == id && InRange(u(id)) && Channel(u(id)) == ROOM
              ensures id > 1 ==> RepliesUnder(u(id), 0, 1)
    {
      assert u(id) == MarkedEvent(id);
      DeepReplyFacts(id, One64(), L.Zeros(64));
    }
  }

  /** The root and the marked parent are stored, and every reply would resolve. */
  ghost predicate MarkedStored(u: Universe, db: Db) {
    && db.pending == map[] && db.thread == map[] && db.events.Keys == {0, 1}
    && db.events[0] == EventRow(u(0), ROOM, false)
  }

  lemma MarkedParentStored(u: Universe) returns (run: seq<Step>, db: Db)
    requires MarkedParent(u)
    ensures Reaches(u, run, db) && MarkedStored(u, db)
  {
    assert InRange(u(0)) && InRange(u(1));
    var one := EMPTY_DB.(events := map[1 := EventRow(u(1), ROOM, false)]);
    InsertFront(EMPTY_DB, u(1));
    assert Reaches(u, [], EMPTY_DB);
    db := one.(events := one.events[0 := EventRow(u(0), ROOM, false)]);
    InsertFront(one, u(0));
    hide IngestFront, Reaches;
    run := StoresTop(u, [], EMPTY_DB, 1, one);
    run := StoresTop(u, run, one, 0, db);
  }

  lemma MarkedResolves(u: Universe, db: Db, id: EventId)
    requires MarkedParent(u) && MarkedStored(u, db) && id > 1
    ensures IsReply(u(id)) && Resolve(db, u(id)) == Resolved(0, 1, 2)
    ensures ParentOf(u(id)) == 0 && RootHintOf(u(id)) == 1 && InRange(u(id)) && Channel(u(id)) == ROOM
  {
    assert RepliesUnder(u(id), 0, 1) && InRange(u(id));
  }

  lemma ShelvesReply(u: Universe, run: seq<Step>, db: Db, id: EventId, reason: Reason)
    returns (more: seq<Step>, d: Db)
    requires Reaches(u, run, db) && u(id).id == id && IsReply(u(id)) && id !in db.events
    requires Resolve(db, u(id)) == Mismatch(reason)
    ensures Reaches(u, more, d) && d.events == db.events && id in d.quarantine && d.quarantine[id].reason == reason
  {
    d := Quarantine(db, u(id), reason, 8);
    assert IngestFront(db, u(id), Mesh, 8) == Final(d, Quarantined(reason));
    var s := Step(Ingest(u(id), Mesh, 8), Ingested(Quarantined(reason)));
    L.OneMoreStep(u, run, db, s, d);
    more := run + [s];
  }

  lemma SecondMismatches(u: Universe, start: seq<Step>, db: Db, first: EventId, second: EventId, was: Db)
    requires MarkedParent(u) && MarkedStored(u, db) && Reaches(u, start, db)
    requires first > 1 && second > 1 && first != second && Attached(db, Attachment(u(first), 0, 1, 2, Mesh, 8), was)
    ensures IsReply(u(second)) && Resolve(was, u(second)) == Mismatch(RootMismatch)
    ensures was.events.Keys == {0, 1, first}
  {
    var a := Attachment(u(first), 0, 1, 2, Mesh, 8);
    MarkedResolves(u, db, first);
    MarkedResolves(u, db, second);
    ReachableBase(u, start, db);
    AttachedMoves(db, a, was);
    hide Reaches, Resolve, Attached, IsReply, ParentOf, RootHintOf, Base, DeriveOwnRoot, RepliesUnder;
    F.SecondReplyIsRefused(u, db, a, was, u(second));
  }

  lemma FirstOfTwo(u: Universe, first: EventId, second: EventId) returns (run: seq<Step>, db: Db)
    requires MarkedParent(u) && first > 1 && second > 1 && first != second
    ensures Reaches(u, run, db) && first in db.events && second !in db.events
    ensures second in db.quarantine && db.quarantine[second].reason == RootMismatch
  {
    hide Reaches, Resolve, Attached, IsReply, RepliesUnder, InRange, DeriveOwnRoot, Channel;
    var start, empty := MarkedParentStored(u);
    MarkedResolves(u, empty, first);
    var a := Attachment(u(first), 0, 1, 2, Mesh, 8);
    var before, was := StoresReply(u, start, empty, first, a);
    SecondMismatches(u, start, empty, first, second, was);
    run, db := ShelvesReply(u, before, was, second, RootMismatch);
  }

  /**
   Two replies to a parent that carries a root marker of its own, in either order: the first is
   stored, and the second, which would have been stored had it come first, is quarantined.
   */
  lemma FirstReplyWins() returns (u: Universe, run1: seq<Step>, db1: Db, run2: seq<Step>, db2: Db)
    ensures Authentic(u) && Reaches(u, run1, db1) && Reaches(u, run2, db2)
    ensures 2 in db1.events && 3 in db1.quarantine && 3 !in db1.events
    ensures 3 in db2.events && 2 in db2.quarantine && 2 !in db2.events
  {
    u := MarkedExists();
    run1, db1 := FirstOfTwo(u, 2, 3);
    run2, db2 := FirstOfTwo(u, 3, 2);
  }
}
