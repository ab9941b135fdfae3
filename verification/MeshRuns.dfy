/**
 Whole mesh runs. The order and repetition of deliveries matter only when a reply with a timestamp
 beyond 64 signed bits resolves under one of the delivered events: the exact condition for two runs
 over the same events to end in the same tables.
 */
module MeshRuns {
  import opened Options
  import opened Ids
  import opened Events
  import opened Tables
  import opened Engine
  import opened Attach
  import opened Reachable
  import opened Forest
  import opened Convergence

  /** A run in which gossip delivers events and nothing else happens. */
  ghost predicate MeshRun(u: Universe, run: seq<Step>, db: Db) {
    Reaches(u, run, db) && forall k :: 0 <= k < |run| ==> run[k].op.Ingest? && run[k].op.door == Mesh
  }

  function Delivered(run: seq<Step>): set<EventId> {
    set k | 0 <= k < |run| && run[k].op.Ingest? :: run[k].op.ev.id
  }

  lemma DeliveredSnoc(run: seq<Step>)
    requires run != [] && run[|run| - 1].op.Ingest?
    ensures Delivered(run) == Delivered(run[..|run| - 1]) + {run[|run| - 1].op.ev.id}
  {
    var n := |run| - 1;
    forall id ensures id in Delivered(run) <==> id in Delivered(run[..n]) || id == run[n].op.ev.id {
      if id in Delivered(run[..n]) {
        var k :| 0 <= k < n && run[..n][k].op.Ingest? && run[..n][k].op.ev.id == id;
        assert run[k].op.ev.id == id;
      }
      if id in Delivered(run) {
        var k :| 0 <= k < |run| && run[k].op.Ingest? && run[k].op.ev.id == id;
        assert k < n ==> run[..n][k].op.ev.id == id;
      }
    }
  }

  lemma EmptyIsSound(u: Universe)
    requires Authentic(u)
    ensures Sound(u, {}, EMPTY_DB) && Drained(EMPTY_DB)
  {
    forall x ensures CountOk(EMPTY_DB, x) {}
  }

  lemma {:induction false} NoBlockerBefore(u: Universe, small: set<EventId>, big: set<EventId>, id: EventId)
    requires small <= big && Blocker(u, small, id)
    ensures Blocker(u, big, id)
  {
    var d: nat :| AttachedAt(u, small, ParentOf(u(id)), d) && Fits(u, id, d);
    AttachedIsMonotone(u, small, big, ParentOf(u(id)), d);
  }

  /** Every mesh run stays inside the batch forest; without a blocker it loses nothing it can keep. */
  lemma {:induction false} MeshRunIsSound(u: Universe, run: seq<Step>, db: Db)
    requires Authentic(u) && MeshRun(u, run, db) && AllAdmissible(u, Delivered(run))
    ensures Sound(u, Delivered(run), db) && Drained(db)
    ensures NoBlocker(u, Delivered(run)) ==> IsBatch(u, Delivered(run), db)
    decreases |run|
  {
    if run == [] {
      assert Delivered(run) == {};
      EmptyIsSound(u);
    } else {
      var n := |run| - 1;
      var prev :| Reaches(u, run[..n], prev) && OpStep(u, prev, run[n].op, db, run[n].report);
      DeliveredSnoc(run);
      MeshRunIsSound(u, run[..n], prev);
      DeliverySettles(u, Delivered(run[..n]), prev, run[n].op.ev, run[n].op.now, db, run[n].report.out);
    }
  }

  lemma DeliverySettles(u: Universe, delivered: set<EventId>, db: Db, ev: Event, now: int, db': Db, out: Outcome)
    requires Sound(u, delivered, db) && Drained(db) && ev == u(ev.id) && Admissible(u, ev.id)
    requires NoBlocker(u, delivered) ==> IsBatch(u, delivered, db)
    requires Ingests(db, ev, Mesh, now, db', out)
    ensures Sound(u, delivered + {ev.id}, db') && Drained(db')
    ensures NoBlocker(u, delivered + {ev.id}) ==> IsBatch(u, delivered + {ev.id}, db')
  {
    var all := delivered + {ev.id};
    var kept := if NoBlocker(u, delivered) then Keepable(u, delivered) else {};
    DeliveryKeepsSound(u, delivered, kept, db, ev, now, db', out);
    if NoBlocker(u, all) {
      forall id ensures !Blocker(u, delivered, id) {
        if Blocker(u, delivered, id) { NoBlockerBefore(u, delivered, all, id); }
      }
      assert Keepable(u, all) <= Keepable(u, delivered) + {ev.id};
    }
  }

  ghost predicate AllAdmissible(u: Universe, ids: set<EventId>) {
    forall id :: id in ids ==> Admissible(u, id)
  }

  /**
   Mesh convergence: two mesh runs that delivered the same events, in any two orders and with any
   repetitions, end in the same forest: stored rows, ancestry, depths, both counters, last reply
   times, parked and quarantined events with their reasons.
   */
  lemma MeshConvergence(u: Universe, run1: seq<Step>, db1: Db, run2: seq<Step>, db2: Db)
    requires Authentic(u) && MeshRun(u, run1, db1) && MeshRun(u, run2, db2)
    requires Delivered(run1) == Delivered(run2)
    requires AllAdmissible(u, Delivered(run1)) && NoBlocker(u, Delivered(run1))
    ensures SameForest(db1, db2)
  {
    MeshRunIsSound(u, run1, db1);
    MeshRunIsSound(u, run2, db2);
    BatchIsDetermined(u, Delivered(run1), db1, db2);
  }

  /** The common end state is the batch forest of the delivered set. */
  lemma MeshEndsInBatch(u: Universe, run: seq<Step>, db: Db, id: EventId)
    requires Authentic(u) && MeshRun(u, run, db)
    requires AllAdmissible(u, Delivered(run)) && NoBlocker(u, Delivered(run))
    ensures id in db.events <==> AttachedSome(u, Delivered(run), id)
    ensures id in db.quarantine <==> exists reason :: Refused(u, Delivered(run), id, reason)
    ensures id in db.pending <==>
            id in Delivered(run) && IsReply(u(id)) && !AttachedSome(u, Delivered(run), ParentOf(u(id)))
  {
    MeshRunIsSound(u, run, db);
    TablesAreBatch(u, Delivered(run), db, id);
  }

  // ---- what a blocker does -------------------------------------------------

  /** A blocker in the waiting room never leaves it, so its parent is never stored. */
  lemma ParkedBlockerStays(u: Universe, delivered: set<EventId>, all: set<EventId>, db: Db, r: EventId)
    requires Sound(u, delivered, db) && delivered <= all && Blocker(u, all, r) && Covers({r}, db)
    ensures r in db.pending
  {
    assert EventOk(u, db, r) && ShelfOk(u, delivered, db, r);
    assert r in {r};
    if r in db.quarantine {
      var p := ParentOf(u(r));
      var e: nat :| AttachedAt(u, delivered, p, e) && !Fits(u, r, e);
      var d: nat :| AttachedAt(u, all, p, d) && Fits(u, r, d);
      AttachedIsMonotone(u, delivered, all, p, e);
      LevelIsUnique(u, all, p, d, e);
    }
  }

  /** A mesh run can go on to deliver any further events; what it stored or blocked stays so. */
  lemma {:induction false} DeliverAll(u: Universe, run: seq<Step>, db: Db, todo: set<EventId>)
    returns (more: seq<Step>, end: Db)
    requires Authentic(u) && MeshRun(u, run, db) && AllAdmissible(u, Delivered(run) + todo)
    ensures MeshRun(u, more, end) && Delivered(more) == Delivered(run) + todo
    ensures db.events.Keys <= end.events.Keys
    ensures forall r :: r in db.pending && Blocker(u, Delivered(run) + todo, r) ==> r in end.pending
    decreases |todo|
  {
    if todo == {} {
      more, end := run, db;
    } else {
      var id :| id in todo;
      var longer, next := DeliverOne(u, run, db, id, Delivered(run) + todo);
      assert Delivered(run) + todo == Delivered(longer) + (todo - {id});
      more, end := DeliverAll(u, longer, next, todo - {id});
    }
  }

  lemma OneMoreDelivery(u: Universe, run: seq<Step>, db: Db, id: EventId, now: int, end: Db, out: Outcome)
    returns (more: seq<Step>)
    requires MeshRun(u, run, db) && u(id).id == id && Ingests(db, u(id), Mesh, now, end, out)
    ensures MeshRun(u, more, end) && Delivered(more) == Delivered(run) + {id}
  {
    hide Ingests;
    var s := Step(Ingest(u(id), Mesh, now), Ingested(out));
    more := run + [s];
    assert more[..|run|] == run;
    assert OpStep(u, db, s.op, end, s.report);
    DeliveredSnoc(more);
  }

  lemma DeliveryKeepsBlockers(u: Universe, delivered: set<EventId>, all: set<EventId>, db: Db, id: EventId,
        end: Db, out: Outcome)
    requires Sound(u, delivered, db) && Drained(db) && u(id).id == id && Admissible(u, id)
    requires id in all && delivered <= all && Ingests(db, u(id), Mesh, 0, end, out)
    ensures db.events.Keys <= end.events.Keys
    ensures forall r :: r in db.pending && Blocker(u, all, r) ==> r in end.pending
  {
    hide Sound, Ingests, Blocker, Drained;
    DeliveryKeepsSound(u, delivered, {}, db, u(id), 0, end, out);
    forall r | r in db.pending && Blocker(u, all, r) ensures r in end.pending {
      DeliveryKeepsSound(u, delivered, {r}, db, u(id), 0, end, out);
      ParkedBlockerStays(u, delivered + {id}, all, end, r);
    }
  }

  lemma DeliverOne(u: Universe, run: seq<Step>, db: Db, id: EventId, all: set<EventId>)
    returns (more: seq<Step>, end: Db)
    requires Authentic(u) && MeshRun(u, run, db) && id in all && Delivered(run) <= all && AllAdmissible(u, all)
    ensures MeshRun(u, more, end) && Delivered(more) == Delivered(run) + {id}
    ensures db.events.Keys <= end.events.Keys
    ensures forall r :: r in db.pending && Blocker(u, all, r) ==> r in end.pending
  {
    MeshRunIsSound(u, run, db);
    var delivered := Delivered(run);
    var out: Outcome;
    SoundHasBase(u, delivered, db);
    end, out := IngestHasAnOutcome(u, db, u(id), Mesh, 0);
    more := OneMoreDelivery(u, run, db, id, 0, end, out);
    DeliveryKeepsBlockers(u, delivered, all, db, id, end, out);
  }

  /** An attached event and its ancestors, down from the top of its thread. */
  ghost function Line(u: Universe, id: EventId, d: nat): set<EventId>
    decreases d
  {
    {id} + if d == 0 || !IsReply(u(id)) then {} else Line(u, ParentOf(u(id)), d - 1)
  }

  /** Attached at level `d` or above. */
  ghost predicate AttachedBy(u: Universe, delivered: set<EventId>, id: EventId, d: nat) {
    exists e: nat :: e <= d && AttachedAt(u, delivered, id, e)
  }

  lemma {:induction false} LineAttaches(u: Universe, delivered: set<EventId>, id: EventId, d: nat)
    requires AttachedAt(u, delivered, id, d)
    ensures AttachedAt(u, Line(u, id, d), id, d)
    ensures forall x :: x in Line(u, id, d) ==>
      x in delivered && InRange(u(x)) && AttachedBy(u, delivered, x, d)
    decreases d
  {
    if d > 0 {
      var p := ParentOf(u(id));
      LineAttaches(u, delivered, p, d - 1);
      AttachedIsMonotone(u, Line(u, p, d - 1), Line(u, id, d), p, d - 1);
      forall x | x in Line(u, id, d) ensures x in delivered && InRange(u(x)) && AttachedBy(u, delivered, x, d) {
        if x != id {
          assert AttachedBy(u, delivered, x, d - 1);
          var e: nat :| e <= d - 1 && AttachedAt(u, delivered, x, e);
        }
      }
    }
  }

  /** The ancestors of `p` without `p` itself. */
  ghost function Above(u: Universe, p: EventId, d: nat): set<EventId> {
    if d == 0 || !IsReply(u(p)) then {} else Line(u, ParentOf(u(p)), d - 1)
  }

  lemma AboveIsBefore(u: Universe, delivered: set<EventId>, p: EventId, d: nat)
    requires AttachedAt(u, delivered, p, d)
    ensures p !in Above(u, p, d) && Above(u, p, d) <= delivered
    ensures forall x :: x in Above(u, p, d) ==> InRange(u(x))
  {
    if d > 0 {
      AttachedUnderParent(u, delivered, p, d);
      LineAttaches(u, delivered, ParentOf(u(p)), d - 1);
      hide AttachedAt, Line;
      if p in Above(u, p, d) {
        assert AttachedBy(u, delivered, p, d - 1);
        var e: nat :| e <= d - 1 && AttachedAt(u, delivered, p, e);
        LevelIsUnique(u, delivered, p, d, e);
      }
    }
  }

  /** Ancestors first, then the parent, then the rest: the parent is stored. */
  lemma ParentFirst(u: Universe, delivered: set<EventId>, p: EventId, d: nat) returns (run: seq<Step>, db: Db)
    requires Authentic(u) && AllAdmissible(u, delivered) && AttachedAt(u, delivered, p, d)
    ensures MeshRun(u, run, db) && Delivered(run) == delivered && p in db.events
  {
    var line := Line(u, p, d);
    LineAttaches(u, delivered, p, d);
    EmptyRun(u);
    run, db := DeliverAll(u, [], EMPTY_DB, line);
    assert Delivered(run) == line;
    assert NoBlocker(u, line);
    MeshEndsInBatch(u, run, db, p);
    assert line + delivered == delivered;
    run, db := DeliverAll(u, run, db, delivered);
  }

  lemma EmptyRun(u: Universe)
    ensures MeshRun(u, [], EMPTY_DB) && Delivered([]) == {}
  {
  }

  /** Ancestors, then the blocker, then the rest: the blocker parks and its parent is never stored. */
  lemma BlockerFirst(u: Universe, delivered: set<EventId>, r: EventId, d: nat) returns (run: seq<Step>, db: Db)
    requires Authentic(u) && AllAdmissible(u, delivered) && Blocker(u, delivered, r)
    requires AttachedAt(u, delivered, ParentOf(u(r)), d) && Fits(u, r, d)
    ensures MeshRun(u, run, db) && Delivered(run) == delivered
    ensures r in db.pending && ParentOf(u(r)) !in db.events
  {
    var p := ParentOf(u(r));
    AboveIsBefore(u, delivered, p, d);
    var early := Above(u, p, d) + {r};
    EmptyRun(u);
    run, db := DeliverAll(u, [], EMPTY_DB, early);
    assert Delivered(run) == early;
    assert r != p;
    assert NoBlocker(u, early) && !AttachedSome(u, early, p);
    MeshEndsInBatch(u, run, db, r);
    assert early + delivered == delivered;
    run, db := DeliverAll(u, run, db, delivered);
    MeshRunIsSound(u, run, db);
    ParkedFacts(u, delivered, db, r);
  }

  /** Any two mesh runs that delivered exactly these events end in the same tables. */
  ghost predicate Converges(u: Universe, delivered: set<EventId>) {
    forall run1, db1, run2, db2 ::
      MeshRun(u, run1, db1) && MeshRun(u, run2, db2) && Delivered(run1) == delivered && Delivered(run2) == delivered
      ==> SameForest(db1, db2)
  }

  /**
   Convergence, exactly: the end state is independent of order and repetition if and only if no
   delivered reply with an out-of-range timestamp resolves under an event the batch forest attaches.
   */
  lemma ConvergesIffNoBlocker(u: Universe, delivered: set<EventId>)
    requires Authentic(u) && AllAdmissible(u, delivered)
    ensures Converges(u, delivered) <==> NoBlocker(u, delivered)
  {
    if NoBlocker(u, delivered) {
      forall run1, db1, run2, db2 |
        MeshRun(u, run1, db1) && MeshRun(u, run2, db2) && Delivered(run1) == delivered && Delivered(run2) == delivered
        ensures SameForest(db1, db2)
      {
        MeshConvergence(u, run1, db1, run2, db2);
      }
    } else {
      var r :| Blocker(u, delivered, r);
      var d: nat :| AttachedAt(u, delivered, ParentOf(u(r)), d) && Fits(u, r, d);
      var run1, db1 := ParentFirst(u, delivered, ParentOf(u(r)), d);
      var run2, db2 := BlockerFirst(u, delivered, r, d);
      assert !SameForest(db1, db2);
    }
  }
}
