/**
 Where the engine's promises stop: the relay door does not drain, a deletion is not remembered, and
 a reply under a superseded root is refused. Each with the exact condition or a concrete run.
 */
module Limits {
  import opened Options
  import opened Ids
  import opened Events
  import opened Tables
  import opened Engine
  import opened Attach
  import opened Reachable

  // ---- the relay door ------------------------------------------------------

  /** The relay door stores this event: it is new and its slot holds nothing better. */
  predicate Takes(db: Db, ev: Event) {
    && ev.id !in db.events && InRange(ev)
    && !(IsReplaceable(ev.kind) && SlotOf(ev) in db.slots && StoredWins(db.slots[SlotOf(ev)], ev))
  }

  /** A parked reply waits for this id. */
  ghost predicate Awaited(db: Db, id: EventId) {
    exists o :: o in db.pending && db.pending[o].parent == id
  }

  /**
   A relay-door store keeps the waiting room drained if and only if it stores nothing new or no
   parked reply is waiting for the event it stores.
   */
  lemma RelayDoorDrains(u: Universe, db: Db, ev: Event)
    requires Base(u, db) && Drained(db) && ev == u(ev.id) && IsRelayAuthored(ev.kind)
    requires StoreRelayAuthored(db, ev).Ok?
    ensures Drained(StoreRelayAuthored(db, ev).value.0) <==> !(Takes(db, ev) && Awaited(db, ev.id))
  {
    var d := StoreRelayAuthored(db, ev).value.0;
    if ev.id !in db.events {
      DedupedEffect(u, db, ev);
      assert PendingOk(u, db, ev.id);
      assert ev.id !in db.pending;
      if Takes(db, ev) {
        assert ev.id in d.events && d.pending == db.pending;
        assert forall id :: id in d.events ==> id == ev.id || id in db.events;
      }
    }
  }

  // ---- replies under a superseded root -------------------------------------

  /**
   A reply that resolves is stored unless its timestamp does not fit or its root event is gone: a
   superseded replaceable root makes every later reply in its thread fail.
   */
  lemma ResolvedReplyFails(u: Universe, db: Db, ev: Event, door: Door, now: int)
    requires Base(u, db) && ev == u(ev.id) && ev.id !in db.events && IsReply(ev) && Resolve(db, ev).Resolved?
    ensures FrontReply(db, ev, door, now) == Final(db, Outcome.Failed) <==>
            !InRange(ev) || (RootHintOf(ev) != ev.id && RootHintOf(ev) !in db.events)
  {
    ResolvedFacts(u, db, ev);
    Unattached(u, db, ev.id);
    var r := Resolve(db, ev);
    InsertReplyAttaches(db, Attachment(ev, r.parent, r.root, r.depth, door, now));
  }

  // ---- concrete runs -------------------------------------------------------

  function Zeros(n: nat): string {
    seq(n, i => '0')
  }

  lemma {:induction false} ZerosSpellZero(n: nat)
    ensures AllHex(Zeros(n)) && HexValue(Zeros(n)) == 0
  {
    if n > 0 {
      ZerosSpellZero(n - 1);
      assert Zeros(n)[..n - 1] == Zeros(n - 1);
    }
  }

  /** The drain of an id nobody waits for ends at once. */
  lemma NothingWaits(db: Db, id: EventId, emits: seq<ThreadEmit>, now: int)
    requires !Awaited(db, id)
    ensures DrainsTo(DrainStart(db, id, emits), Cfg(db, [], [], emits), now, 1)
  {
    var c0 := DrainStart(db, id, emits);
    var c := Cfg(db, [], [], emits);
    assert c0.stack[..0] == [];
    assert DrainsTo(c0, c0, now, 0) && DrainStep(c0, c, now);
  }

  lemma {:induction false} OneMoreStep(u: Universe, run: seq<Step>, db: Db, s: Step, db': Db)
    requires Reaches(u, run, db) && OpStep(u, db, s.op, db', s.report)
    ensures Reaches(u, run + [s], db')
  {
    assert (run + [s])[..|run|] == run;
  }

  /** Event 0 is the target of the others: a group-state event, a reply to it, a deletion of it. */
  function Target(kind: nat): Event {
    Event(0, "relay", 5, kind, [], "")
  }

  function ReplyToTarget(): Event {
    Event(1, "author", 6, 9, [["e", Zeros(64), "", "reply"]], "")
  }

  function DeletionOfTarget(): Event {
    Event(2, "author", 7, KIND_DELETION, [["e", Zeros(64)]], "")
  }

  function SmallEvent(kind: nat, id: EventId): (ev: Event)
    ensures ev.id == id
  {
    if id == 0 then Target(kind) else if id == 1 then ReplyToTarget()
    else if id == 2 then DeletionOfTarget() else Event(id, "", 0, 1, [], "")
  }

  function SmallUniverse(kind: nat): (u: Universe)
    ensures forall id :: u(id) == SmallEvent(kind, id)
  {
    (id: EventId) => SmallEvent(kind, id)
  }

  lemma SmallIsAuthentic(kind: nat)
    ensures Authentic(SmallUniverse(kind))
  {
    forall id ensures SmallUniverse(kind)(id).id == id {
      assert SmallUniverse(kind)(id) == SmallEvent(kind, id);
    }
  }

  lemma SmallEvents()
    ensures IsReply(ReplyToTarget()) && ParentOf(ReplyToTarget()) == 0
    ensures DeletionTargets(DeletionOfTarget().tags) == [Zeros(64)] && ParseId(Zeros(64)) == Some(0)
  {
    ZerosSpellZero(64);
    var tags := ReplyToTarget().tags;
    assert IsMarker(tags[0], "reply") && !IsMarker(tags[0], "root");
    assert Marked(tags, "root").None?;
    assert DeletionTargets([]) == [];
    var del := DeletionOfTarget().tags;
    assert del[1..] == [] && Named(del[0], "e");
  }

  /** A reply that arrives first, then its parent by the relay door: the reply stays parked. */
  lemma RelayDoorLeavesAnOrphan() returns (u: Universe, run: seq<Step>, db: Db)
    ensures Authentic(u) && Reaches(u, run, db) && !Drained(db)
    ensures 0 in db.events && 1 in db.pending && db.pending[1].parent == 0
  {
    SmallEvents();
    u := SmallUniverse(39000);
    SmallIsAuthentic(39000);
    assert u(0) == Target(39000) && u(1) == ReplyToTarget();
    var parked := Park(EMPTY_DB, u(1), 0, 8);
    var first := Step(Ingest(u(1), Mesh, 8), Ingested(Parked));
    assert IngestFront(EMPTY_DB, u(1), Mesh, 8) == Final(parked, Parked);
    assert Reaches(u, [], EMPTY_DB);
    OneMoreStep(u, [], EMPTY_DB, first, parked);
    assert Channel(u(0)) == None;
    var row := EventRow(u(0), None, false);
    db := parked.(events := map[0 := row], slots := map[SlotOf(u(0)) := SlotRow(0, 5)]);
    assert StoreRelayAuthored(parked, u(0)) == Ok((db, Inserted));
    var second := Step(RelayStore(u(0)), Stored(Some(Inserted)));
    OneMoreStep(u, [] + [first], parked, second, db);
    run := [] + [first] + [second];
  }

  /** The ingest of an event that stores itself, deletes what it can and releases nobody. */
  lemma StoresUnawaited(u: Universe, run: seq<Step>, db: Db, id: EventId, d: Db, emits: seq<ThreadEmit>)
    returns (more: seq<Step>)
    requires Reaches(u, run, db) && u(id).id == id && !Awaited(d, id)
    requires IngestFront(db, u(id), Mesh, 8) == ThenDrain(d, emits)
    ensures Reaches(u, more, d)
  {
    var out := Accepted(false, false, emits);
    NothingWaits(d, id, emits, 8);
    var c := Cfg(d, [], [], emits);
    assert DrainsTo(DrainStart(d, id, emits), c, 8, 1) && DrainEnds(c, 8, db, d, out);
    var s := Step(Ingest(u(id), Mesh, 8), Ingested(out));
    OneMoreStep(u, run, db, s, d);
    more := run + [s];
  }

  lemma SmallChannels()
    ensures SmallUniverse(1)(0) == Target(1) && SmallUniverse(1)(2) == DeletionOfTarget()
    ensures Channel(Target(1)) == None && Channel(DeletionOfTarget()) == None
  {
    assert ChannelValues(DeletionOfTarget().tags[1..]) == [];
  }

  lemma TargetThenDeletion() returns (run: seq<Step>, db: Db)
    ensures Reaches(SmallUniverse(1), run, db)
    ensures db.events.Keys == {0, 2} && db.events[0].deleted
  {
    SmallEvents();
    SmallChannels();
    var u := SmallUniverse(1);
    var target := EventRow(Target(1), None, false);
    var first := EMPTY_DB.(events := map[0 := target]);
    assert InsertEventRow(EMPTY_DB, u(0)) == Ok(first);
    run := StoresUnawaited(u, [], EMPTY_DB, 0, first, []);
    DeletesTarget(first, u(2), [Zeros(64)]);
    var d := InsertEventRow(first, u(2)).value;
    db := d.(events := d.events[0 := target.(deleted := true)]);
    run := StoresUnawaited(u, run, first, 2, db, []);
  }

  lemma DeletionThenTarget() returns (run: seq<Step>, db: Db)
    ensures Reaches(SmallUniverse(1), run, db)
    ensures db.events.Keys == {0, 2} && !db.events[0].deleted
  {
    SmallEvents();
    SmallChannels();
    var u := SmallUniverse(1);
    DeletesTarget(EMPTY_DB, u(2), [Zeros(64)]);
    var first := InsertEventRow(EMPTY_DB, u(2)).value;
    run := StoresUnawaited(u, [], EMPTY_DB, 2, first, []);
    db := InsertEventRow(first, u(0)).value;
    run := StoresUnawaited(u, run, first, 0, db, []);
  }

  /** Deletions do not commute with their targets: arriving first, a deletion is lost. */
  lemma EarlyDeletionIsLost() returns (u: Universe, run1: seq<Step>, db1: Db, run2: seq<Step>, db2: Db)
    ensures Authentic(u) && Reaches(u, run1, db1) && Reaches(u, run2, db2)
    ensures db1.events.Keys == db2.events.Keys == {0, 2}
    ensures db1.events[0].deleted && !db2.events[0].deleted
  {
    u := SmallUniverse(1);
    SmallIsAuthentic(1);
    run1, db1 := TargetThenDeletion();
    run2, db2 := DeletionThenTarget();
  }

  lemma DeletesTarget(db: Db, del: Event, raws: seq<string>)
    requires raws == [Zeros(64)] && DeletionTargets(del.tags) == raws && ParseId(raws[0]) == Some(0)
    requires CanInsert(db, del)
    ensures FrontDelete(db, del) ==
            ThenDrain(DeleteOne(InsertEventRow(db, del).value, 0).0, DeleteOne(InsertEventRow(db, del).value, 0).1)
  {
    var d := InsertEventRow(db, del).value;
    assert raws[..0] == [] && |raws| == 1;
    assert DeleteAll(d, raws[..0]) == (d, []);
    assert DeleteRaw(d, raws[0]) == DeleteOne(d, 0);
    assert [] + DeleteOne(d, 0).1 == DeleteOne(d, 0).1;
  }
}
