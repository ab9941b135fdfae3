/**
 Emit completeness. Clients learn of a changed thread summary only through the emits of an ingest,
 so every depth-0 event whose summary changes must be among them.
 */
module Emits {
  import opened Options
  import opened Ids
  import opened Events
  import opened Tables
  import opened Engine
  import opened Attach
  import opened Reachable
  import opened Forest

  predicate Emitted(emits: seq<ThreadEmit>, x: EventId) {
    exists i :: 0 <= i < |emits| && emits[i].root == x
  }

  /**
   Nothing a summary of `x` is computed from has changed: the counters and `last_reply_at` in its
   row, and the set of live replies whose authors are its participants.
   */
  ghost predicate NoNews(before: Db, db: Db, x: EventId) {
    && x in before.thread && x in db.thread && db.thread[x] == before.thread[x]
    && LiveUnder(db, x) == LiveUnder(before, x)
  }

  ghost predicate Told(before: Db, db: Db, emits: seq<ThreadEmit>, x: EventId) {
    x in db.thread && db.thread[x].parent.None? && !Emitted(emits, x) ==> NoNews(before, db, x)
  }

  ghost predicate AllTold(before: Db, db: Db, emits: seq<ThreadEmit>) {
    forall x :: Told(before, db, emits, x)
  }

  lemma EmittedConcat(a: seq<ThreadEmit>, b: seq<ThreadEmit>, x: EventId)
    ensures Emitted(a + b, x) <==> Emitted(a, x) || Emitted(b, x)
  {
    if Emitted(a, x) {
      var i :| 0 <= i < |a| && a[i].root == x;
      assert (a + b)[i].root == x;
    }
    if Emitted(b, x) {
      var i :| 0 <= i < |b| && b[i].root == x;
      assert (a + b)[|a| + i].root == x;
    }
  }

  /** An attached reply changes no depth-0 row but its root's. */
  lemma AttachTells(u: Universe, db: Db, a: Attachment, db': Db, x: EventId)
    requires Exact(u, db) && a.ev == u(a.ev.id) && IsReply(a.ev) && Attached(db, a, db')
    requires Resolve(db, a.ev) == Resolved(a.parent, a.root, a.depth)
    ensures x in db'.thread && db'.thread[x].parent.None? && x != a.root ==> NoNews(db, db', x)
  {
    if x in db'.thread && x != a.root {
      PlainAncestry(u, db, a.ev);
      ResolvedFacts(u, db, a.ev);
      AttachedShape(db, a, db', x);
      AttachChildren(db, a, db', x);
      assert RowOk(u, db, x);
    }
  }

  lemma StepTells(u: Universe, before: Db, c: Cfg, c': Cfg, now: int)
    requires CfgOk(u, c) && Exact(u, c.db) && AllTold(before, c.db, c.emits) && DrainStep(c, c', now)
    ensures AllTold(before, c'.db, c'.emits)
  {
    if c.batch != [] {
      var ev := c.batch[0];
      TryKeepsCfg(u, c, c', now);
      WaitingIsSettled(u, c.db, ev, now);
      forall x ensures Told(before, c'.db, c'.emits, x) {
        assert Told(before, c.db, c.emits, x);
        MeetTells(u, c.db, ev, now, c'.db, x);
        var es := TryAttach(c.db, ev, now).value.2;
        EmittedConcat(c.emits, es, x);
        if FateOf(c.db, ev, now).Joined? && x == FateOf(c.db, ev, now).a.root { assert es[0].root == x; }
      }
    }
  }

  lemma MeetTells(u: Universe, db: Db, ev: Event, now: int, db': Db, x: EventId)
    requires Exact(u, db) && Waiting(u, db, ev) && Meets(db, ev, now, db')
    ensures x in db'.thread && db'.thread[x].parent.None?
            && !(FateOf(db, ev, now).Joined? && x == FateOf(db, ev, now).a.root)
            ==> NoNews(db, db', x)
  {
    var d := Unpark(db, ev.id);
    UnparkKeepsBase(u, db, ev.id);
    forall o ensures PendingOk(u, d, o) && PlainOk(u, d, o) { assert PlainOk(u, db, o) && PendingOk(u, db, o); }
    SameShapeKeepsExact(u, db, d);
    ShelvingKeepsBase(u, db, d);
    assert Resolve(d, ev) == Resolve(db, ev);
    match FateOf(db, ev, now)
    case Joined(a) => AttachTells(u, d, a, db', x);
    case Shelved(reason) =>
      forall o ensures PendingOk(u, db', o) { assert PendingOk(u, d, o); }
      ShelvingKeepsBase(u, d, db');
    case _ =>
  }

  lemma {:induction false} DrainTells(u: Universe, before: Db, c0: Cfg, c: Cfg, now: int, n: nat)
    requires CfgOk(u, c0) && Exact(u, c0.db) && AllTold(before, c0.db, c0.emits) && DrainsTo(c0, c, now, n)
    ensures AllTold(before, c.db, c.emits)
    decreases n
  {
    hide DrainStep, CfgOk, Exact, AllTold;
    if n > 0 {
      var m :| DrainsTo(c0, m, now, n - 1) && DrainStep(m, c, now);
      DrainKeepsExact(u, c0, m, now, n - 1);
      DrainTells(u, before, c0, m, now, n - 1);
      StepTells(u, before, m, c, now);
    }
  }

  /** Deleting a reply changes no depth-0 row but its root's, and that one is emitted. */
  lemma DeleteTells(u: Universe, db: Db, t: EventId, x: EventId)
    requires Exact(u, db) && x in db.thread && db.thread[x].parent.None? && !Emitted(DeleteOne(db, t).1, x)
    ensures NoNews(db, DeleteOne(db, t).0, x)
  {
    if Live(db, t) {
      var d := DeleteOne(db, t).0;
      DeleteEffect(u, db, t);
      DeleteChildren(db, t, d, x);
      assert ExactRow(db, t) && RowOk(u, db, t) && RowOk(u, db, x);
      if t in db.thread && db.thread[t].root.Some? { assert DeleteOne(db, t).1[0].root == db.thread[t].root.value; }
    }
  }

  lemma {:induction false} DeleteAllTells(u: Universe, db: Db, raws: seq<string>)
    requires Exact(u, db)
    ensures var (d, es) := DeleteAll(db, raws); Exact(u, d) && AllTold(db, d, es)
  {
    if raws != [] {
      var n := |raws| - 1;
      var (m, es) := DeleteAll(db, raws[..n]);
      var (d, e) := DeleteRaw(m, raws[n]);
      DeleteAllTells(u, db, raws[..n]);
      if ParseId(raws[n]).Some? { DeleteKeepsExact(u, m, ParseId(raws[n]).value); }
      forall x ensures Told(db, d, es + e, x) {
        EmittedConcat(es, e, x);
        assert Told(db, m, es, x);
        if x in m.thread && m.thread[x].parent.None? && !Emitted(e, x) && ParseId(raws[n]).Some? {
          DeleteTells(u, m, ParseId(raws[n]).value, x);
        }
      }
    }
  }

  lemma DeleteKeepsExact(u: Universe, db: Db, t: EventId)
    requires Exact(u, db)
    ensures Exact(u, DeleteOne(db, t).0)
    ensures forall x :: x in DeleteOne(db, t).0.thread ==>
            x in db.thread && DeleteOne(db, t).0.thread[x].parent == db.thread[x].parent
  {
    DeleteKeepsBase(u, db, t);
    if Live(db, t) {
      DeleteEffect(u, db, t);
      var d := DeleteOne(db, t).0;
      forall id ensures PlainOk(u, d, id) { assert PlainOk(u, db, id); }
      SameShapeKeepsExact(u, db, d);
    }
  }

  lemma FrontTells(u: Universe, db: Db, ev: Event, door: Door, now: int)
    requires Exact(u, db) && ev == u(ev.id) && Plain(ev) && IngestFront(db, ev, door, now).ThenDrain?
    ensures var f := IngestFront(db, ev, door, now); AllTold(db, f.db, f.emits)
  {
    if IsReply(ev) {
      FrontReplyTells(u, db, ev, door, now);
      hide Exact, FrontReply, AllTold;
    } else if IsDeletionKind(ev.kind) {
      FrontDeleteTells(u, db, ev);
      hide Exact, FrontDelete, AllTold;
    } else if ev.kind == KIND_REACTION || IsThreadScoped(ev.kind) {
      InsertOther(u, db, ev);
      OtherKeepsCounters(u, db, ev, {}, IngestFront(db, ev, door, now).db);
    } else {
      DedupedEffect(u, db, ev);
      OtherKeepsCounters(u, db, ev, Superseded(db, ev), IngestFront(db, ev, door, now).db);
    }
  }

  lemma FrontReplyTells(u: Universe, db: Db, ev: Event, door: Door, now: int)
    requires Exact(u, db) && ev == u(ev.id) && Plain(ev) && IsReply(ev) && ev.id !in db.events
    requires FrontReply(db, ev, door, now).ThenDrain?
    ensures var f := FrontReply(db, ev, door, now); AllTold(db, f.db, f.emits)
  {
    var f := FrontReply(db, ev, door, now);
    FrontReplyKeepsBase(u, db, ev, door, now);
    ResolvedFacts(u, db, ev);
    var a := Attachment(ev, ParentOf(ev), RootHintOf(ev), Resolve(db, ev).depth, door, now);
    hide Exact, FrontReply, Attached;
    forall x ensures Told(db, f.db, f.emits, x) {
      AttachTells(u, db, a, f.db, x);
      if x == RootHintOf(ev) { assert f.emits[0].root == x; }
    }
  }

  lemma FrontDeleteTells(u: Universe, db: Db, ev: Event)
    requires Exact(u, db) && ev == u(ev.id) && Plain(ev) && IsDeletionKind(ev.kind) && CanInsert(db, ev)
    ensures var f := FrontDelete(db, ev); AllTold(db, f.db, f.emits)
  {
    var f := FrontDelete(db, ev);
    InsertOther(u, db, ev);
    var d := InsertEventRow(db, ev).value;
    forall id ensures PlainOk(u, d, id) { assert PlainOk(u, db, id); }
    SameShapeKeepsExact(u, db, d);
    OtherKeepsCounters(u, db, ev, {}, d);
    DeleteAllTells(u, d, DeletionTargets(ev.tags));
    forall x ensures Told(db, f.db, f.emits, x) { assert Told(d, f.db, f.emits, x); }
  }

  /**
   Over every run of plain events: a depth-0 event that is not among the emits of an accepted
   ingest, through whatever drain or multi-target deletion, has the same counters, the same
   `last_reply_at` and the same live replies (hence participants) as before.
   */
  lemma EmitsAreComplete(u: Universe, run: seq<Step>, db: Db, ev: Event, door: Door, now: int, db': Db, out: Outcome,
        x: EventId)
    requires Authentic(u) && Reaches(u, run, db) && PlainRun(run)
    requires ev == u(ev.id) && Plain(ev) && Ingests(db, ev, door, now, db', out) && out.Accepted?
    requires x in db'.thread && db'.thread[x].parent.None? && !Emitted(out.emits, x)
    ensures NoNews(db, db', x)
  {
    ReachableIsExact(u, run, db);
    FrontKeepsBase(u, db, ev, door, now);
    match IngestFront(db, ev, door, now)
    case Final(_, _) =>
    case ThenDrain(d, es) =>
      var c: Cfg, n: nat :| DrainsTo(DrainStart(d, ev.id, es), c, now, n) && DrainEnds(c, now, db, db', out);
      FrontTells(u, db, ev, door, now);
      FrontKeepsExact(u, db, ev, door, now);
      StartOk(u, db, ev, door, now);
      DrainTells(u, db, DrainStart(d, ev.id, es), c, now, n);
      assert Told(db, c.db, c.emits, x);
  }
}
