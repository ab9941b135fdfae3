/**
 When a deletion takes effect. A deletion flags the events that are stored when it is accepted and
 is then forgotten: over every run, a stored event is deleted exactly when some accepted deletion
 named it while it was stored. So a deletion and its target commute only if the target was there.
 */
module Deletions {
  import opened Options
  import opened Ids
  import opened Events
  import opened Tables
  import opened Engine
  import opened Attach
  import opened Reachable
  import opened Forest
  import opened Replaceable

  // ---- one deletion --------------------------------------------------------

  lemma TargetsSnoc(raws: seq<string>, t: EventId)
    requires raws != []
    ensures Targets(raws, t) <==> Targets(raws[..|raws| - 1], t) || ParseId(raws[|raws| - 1]) == Some(t)
  {
    var n := |raws| - 1;
    if k :| 0 <= k < n && ParseId(raws[..n][k]) == Some(t) { assert ParseId(raws[k]) == Some(t); }
    if k :| 0 <= k < |raws| && ParseId(raws[k]) == Some(t) { assert k < n ==> raws[..n][k] == raws[k]; }
  }

  /** Exactly the stored events that are listed become deleted; nothing is undeleted. */
  lemma {:induction false} DeleteAllMarks(u: Universe, db: Db, raws: seq<string>, id: EventId)
    requires Base(u, db) && id in db.events
    ensures id in DeleteAll(db, raws).0.events
    ensures DeleteAll(db, raws).0.events[id].deleted <==> db.events[id].deleted || Targets(raws, id)
    ensures DeleteAll(db, raws).0.events[id].ev == db.events[id].ev
  {
    if raws != [] {
      var n := |raws| - 1;
      DeleteAllMarks(u, db, raws[..n], id);
      DeleteAllKeepsBase(u, db, raws[..n]);
      TargetsSnoc(raws, id);
      var d := DeleteAll(db, raws[..n]).0;
      if ParseId(raws[n]).Some? && Live(d, ParseId(raws[n]).value) { DeleteEffect(u, d, ParseId(raws[n]).value); }
    }
  }

  // ---- one operation -------------------------------------------------------

  /** This step is an accepted, first-time deletion that names `id`, and `id` is stored by then. */
  ghost predicate Deletes(db: Db, s: Step, id: EventId) {
    && s.op.Ingest? && s.report.Ingested? && s.report.out.Accepted? && !s.report.out.duplicate
    && Names(s.op.ev, id) && (id in db.events || id == s.op.ev.id)
  }

  ghost predicate Flagged(db: Db, id: EventId) {
    id in db.events && db.events[id].deleted
  }

  /** The drain stores live events and flags none. */
  lemma StepKeepsFlag(u: Universe, c: Cfg, c': Cfg, now: int, id: EventId)
    requires CfgOk(u, c) && DrainStep(c, c', now)
    ensures id in c.db.events ==> id in c'.db.events
    ensures Flagged(c'.db, id) <==> Flagged(c.db, id)
  {
    if c.batch != [] {
      TryKeepsCfg(u, c, c', now);
      MeetsKeepsBase(u, c.db, c.batch[0], now, c'.db);
    }
  }

  lemma {:induction false} DrainKeepsFlag(u: Universe, c0: Cfg, c: Cfg, now: int, n: nat, id: EventId)
    requires CfgOk(u, c0) && DrainsTo(c0, c, now, n)
    ensures id in c0.db.events ==> id in c.db.events
    ensures Flagged(c.db, id) <==> Flagged(c0.db, id)
    decreases n
  {
    hide DrainStep, CfgOk;
    if n > 0 {
      var m :| DrainsTo(c0, m, now, n - 1) && DrainStep(m, c, now);
      DrainKeepsCfg(u, c0, m, now, n - 1);
      DrainKeepsFlag(u, c0, m, now, n - 1, id);
      StepKeepsFlag(u, m, c, now, id);
    }
  }

  /** Before the drain: what an insert removes, and whom a deletion flags. */
  ghost predicate FrontFlags(u: Universe, db: Db, ev: Event, d: Db, id: EventId) {
    && (id in db.events && !IsReplaceable(u(id).kind) ==> id in d.events)
    && (IsDeletionKind(ev.kind) ==> db.events.Keys + {ev.id} <= d.events.Keys)
    && (id in d.events ==>
          (d.events[id].deleted <==> Flagged(db, id) || (Names(ev, id) && (id in db.events || id == ev.id))))
  }

  lemma FrontDeleteFlags(u: Universe, db: Db, ev: Event, id: EventId)
    requires Base(u, db) && ev == u(ev.id) && IsDeletionKind(ev.kind) && FrontDelete(db, ev).ThenDrain?
    ensures FrontFlags(u, db, ev, FrontDelete(db, ev).db, id)
  {
    InsertOther(u, db, ev);
    var d := InsertEventRow(db, ev).value;
    DeleteAllKeepsBase(u, d, DeletionTargets(ev.tags));
    TargetsAreNamed(ev.tags, id);
    if id in d.events { DeleteAllMarks(u, d, DeletionTargets(ev.tags), id); }
  }

  lemma FrontSetsFlags(u: Universe, db: Db, ev: Event, door: Door, now: int, id: EventId)
    requires Base(u, db) && ev == u(ev.id) && IngestFront(db, ev, door, now).ThenDrain?
    ensures FrontFlags(u, db, ev, IngestFront(db, ev, door, now).db, id)
  {
    if IsReply(ev) {
      FrontReplyKeepsBase(u, db, ev, door, now);
    } else if IsDeletionKind(ev.kind) {
      FrontDeleteFlags(u, db, ev, id);
    } else if ev.kind != KIND_REACTION && !IsThreadScoped(ev.kind) {
      DedupedFlags(u, db, ev, id);
    }
  }

  lemma DedupedFlags(u: Universe, db: Db, ev: Event, id: EventId)
    requires Base(u, db) && ev == u(ev.id) && ev.id !in db.events && !IsThreadScoped(ev.kind)
    requires !IsDeletionKind(ev.kind) && InsertDeduped(db, ev).Ok?
    ensures FrontFlags(u, db, ev, InsertDeduped(db, ev).value.0, id)
  {
    DedupedEffect(u, db, ev);
    if IsReplaceable(ev.kind) { assert SlotOk(u, db, SlotOf(ev)); }
  }

  lemma IngestSetsFlags(u: Universe, db: Db, ev: Event, door: Door, now: int, db': Db, out: Outcome, id: EventId)
    requires Base(u, db) && ev == u(ev.id) && Ingests(db, ev, door, now, db', out)
    ensures id in db.events && !IsReplaceable(u(id).kind) ==> id in db'.events
    ensures Deletes(db, Step(Ingest(ev, door, now), Ingested(out)), id) ==> id in db'.events
    ensures id in db'.events ==>
            (db'.events[id].deleted <==> Flagged(db, id) || Deletes(db, Step(Ingest(ev, door, now), Ingested(out)), id))
  {
    var s := Step(Ingest(ev, door, now), Ingested(out));
    FrontKeepsBase(u, db, ev, door, now);
    match IngestFront(db, ev, door, now)
    case Final(_, _) => FinalDeletesNothing(db, ev, door, now, id);
    case ThenDrain(d, es) =>
      var c0 := DrainStart(d, ev.id, es);
      var c: Cfg, n: nat :| DrainsTo(c0, c, now, n) && DrainEnds(c, now, db, db', out);
      StartOk(u, db, ev, door, now);
      DrainKeepsFlag(u, c0, c, now, n, id);
      DrainGrows(u, c0, c, now, n);
      FrontSetsFlags(u, db, ev, door, now, id);
      assert Deletes(db, s, id) <==> out.Accepted? && Names(ev, id) && (id in db.events || id == ev.id);
  }

  lemma FinalDeletesNothing(db: Db, ev: Event, door: Door, now: int, id: EventId)
    requires IngestFront(db, ev, door, now).Final?
    ensures !Deletes(db, Step(Ingest(ev, door, now), Ingested(IngestFront(db, ev, door, now).outcome)), id)
  {
  }

  /** One operation of any kind: who is flagged afterwards, and who cannot have been removed. */
  lemma OpSetsFlags(u: Universe, db: Db, s: Step, db': Db, id: EventId)
    requires Base(u, db) && OpStep(u, db, s.op, db', s.report)
    ensures id in db.events && !IsReplaceable(u(id).kind) ==> id in db'.events
    ensures Deletes(db, s, id) ==> id in db'.events
    ensures id in db'.events ==> (db'.events[id].deleted <==> Flagged(db, id) || Deletes(db, s, id))
  {
    match s.op
    case Ingest(ev, door, now) => IngestSetsFlags(u, db, ev, door, now, db', s.report.out, id);
    case RelayStore(ev) =>
      if ev.id !in db.events && InRange(ev) {
        DedupedEffect(u, db, ev);
        DedupedFlags(u, db, ev, id);
      }
    case Reap(_) =>
  }

  // ---- runs ----------------------------------------------------------------

  /** The states between the steps of a run. */
  ghost predicate States(u: Universe, run: seq<Step>, dbs: seq<Db>) {
    && |dbs| == |run| + 1 && dbs[0] == EMPTY_DB
    && forall i :: 0 <= i < |run| ==> OpStep(u, dbs[i], run[i].op, dbs[i + 1], run[i].report)
  }

  lemma {:induction false} ReachesHasStates(u: Universe, run: seq<Step>, db: Db) returns (dbs: seq<Db>)
    requires Reaches(u, run, db)
    ensures States(u, run, dbs) && dbs[|run|] == db
    decreases |run|
  {
    hide OpStep;
    if run == [] {
      dbs := [db];
    } else {
      var n := |run| - 1;
      var prev :| Reaches(u, run[..n], prev) && OpStep(u, prev, run[n].op, db, run[n].report);
      var before := ReachesHasStates(u, run[..n], prev);
      dbs := before + [db];
      forall i | 0 <= i < |run| ensures OpStep(u, dbs[i], run[i].op, dbs[i + 1], run[i].report) {
        if i < n {
          var s := run[..n][i];
          assert s == run[i] && OpStep(u, before[i], s.op, before[i + 1], s.report);
        }
      }
    }
  }

  lemma {:induction false} StatesReach(u: Universe, run: seq<Step>, dbs: seq<Db>, i: nat)
    requires States(u, run, dbs) && i <= |run|
    ensures Reaches(u, run[..i], dbs[i])
    decreases i
  {
    if i > 0 {
      var before := i - 1;
      StatesReach(u, run, dbs, before);
      assert run[..i][..before] == run[..before];
      assert OpStep(u, dbs[before], run[before].op, dbs[before + 1], run[before].report);
    }
  }

  lemma {:induction false} OfferedGrows(run: seq<Step>, i: nat, j: nat)
    requires i <= j <= |run|
    ensures Offered(run[..i]) <= Offered(run[..j])
    decreases j - i
  {
    if i < j {
      OfferedGrows(run, i, j - 1);
      assert run[..j][..j - 1] == run[..j - 1];
    }
  }

  /** A removed event never returns: between two states that hold it, every state holds it. */
  lemma RemovedForGood(u: Universe, run: seq<Step>, dbs: seq<Db>, i: nat, j: nat, k: nat, id: EventId)
    requires Authentic(u) && States(u, run, dbs) && i <= j <= k <= |run| && IsReplaceable(u(id).kind)
    requires id in dbs[i].events && id in dbs[k].events
    ensures id in dbs[j].events
  {
    StatesReach(u, run, dbs, i);
    StatesReach(u, run, dbs, j);
    StatesReach(u, run, dbs, k);
    OfferedGrows(run, i, j);
    OfferedGrows(run, j, k);
    hide Offered, Beats, Reaches, States;
    SlotsHoldTheGreatest(u, run[..i], dbs[i], id);
    SlotsHoldTheGreatest(u, run[..j], dbs[j], id);
    SlotsHoldTheGreatest(u, run[..k], dbs[k], id);
  }

  /** Once stored, an event that is stored again later was never gone. */
  lemma {:induction false} StoredUntil(u: Universe, run: seq<Step>, dbs: seq<Db>, i: nat, k: nat, id: EventId)
    requires Authentic(u) && States(u, run, dbs) && i <= k < |run|
    requires id in dbs[i].events && id in dbs[k + 1].events
    ensures id in dbs[k].events
    decreases k - i
  {
    if IsReplaceable(u(id).kind) {
      RemovedForGood(u, run, dbs, i, k, k + 1, id);
    } else {
      StaysStored(u, run, dbs, i, k, id);
    }
  }

  lemma {:induction false} StaysStored(u: Universe, run: seq<Step>, dbs: seq<Db>, i: nat, k: nat, id: EventId)
    requires Authentic(u) && States(u, run, dbs) && i <= k <= |run|
    requires id in dbs[i].events && !IsReplaceable(u(id).kind)
    ensures id in dbs[k].events
    decreases k - i
  {
    hide States, Deletes, Flagged, IsReplaceable;
    StatesLength(u, run, dbs);
    if i < k {
      var last := k - 1;
      StaysStored(u, run, dbs, i, last, id);
      StepOfStates(u, run, dbs, last, id);
    }
  }

  lemma StepOfStates(u: Universe, run: seq<Step>, dbs: seq<Db>, i: nat, id: EventId)
    requires Authentic(u) && States(u, run, dbs) && i < |run|
    ensures id in dbs[i].events && !IsReplaceable(u(id).kind) ==> id in dbs[i + 1].events
    ensures Deletes(dbs[i], run[i], id) ==> id in dbs[i + 1].events
    ensures id in dbs[i + 1].events ==>
            (dbs[i + 1].events[id].deleted <==> Flagged(dbs[i], id) || Deletes(dbs[i], run[i], id))
  {
    StatesReach(u, run, dbs, i);
    ReachableBase(u, run[..i], dbs[i]);
    assert OpStep(u, dbs[i], run[i].op, dbs[i + 1], run[i].report);
    hide Deletes, OpStep;
    OpSetsFlags(u, dbs[i], run[i], dbs[i + 1], id);
  }

  /** Some step before `n` was an accepted deletion that named `id` while it was stored. */
  ghost predicate DeletedBefore(run: seq<Step>, dbs: seq<Db>, n: nat, id: EventId)
    requires n <= |run| < |dbs|
  {
    exists i :: 0 <= i < n && Deletes(dbs[i], run[i], id)
  }

  /**
   Over every run and in each of its states: a stored event is deleted if and only if some earlier
   step was an accepted deletion that named it while it was stored (or stored itself in that step).
   */
  lemma {:induction false} DeletedExactly(u: Universe, run: seq<Step>, dbs: seq<Db>, n: nat, id: EventId)
    requires Authentic(u) && States(u, run, dbs) && n <= |run| && id in dbs[n].events
    ensures dbs[n].events[id].deleted <==> DeletedBefore(run, dbs, n, id)
    decreases n
  {
    hide Deletes, States;
    StatesLength(u, run, dbs);
    if n > 0 {
      var last := n - 1;
      StepOfStates(u, run, dbs, last, id);
      if id in dbs[last].events {
        DeletedExactly(u, run, dbs, last, id);
      } else if i :| 0 <= i < last && Deletes(dbs[i], run[i], id) {
        StepOfStates(u, run, dbs, i, id);
        var next := i + 1;
        StoredUntil(u, run, dbs, next, last, id);
      }
    }
  }

  lemma StatesLength(u: Universe, run: seq<Step>, dbs: seq<Db>)
    requires States(u, run, dbs)
    ensures |dbs| == |run| + 1 && dbs[0].events == map[]
  {
  }

  // ---- the two orders ------------------------------------------------------

  /** One accepted ingest through some door. */
  ghost predicate Accepts(u: Universe, db: Db, id: EventId, db': Db) {
    exists door, now, out: Outcome :: out.Accepted? && Ingests(db, u(id), door, now, db', out)
  }

  /** Whom an accepted ingest of `ev` flags, and who survives it. */
  lemma AcceptSetsFlags(u: Universe, db: Db, ev: EventId, db': Db, id: EventId)
    requires Base(u, db) && Accepts(u, db, ev, db')
    ensures Base(u, db')
    ensures id in db.events && (Names(u(ev), id) || !IsReplaceable(u(id).kind)) ==> id in db'.events
    ensures id in db'.events ==>
            (Flagged(db', id) <==>
             Flagged(db, id) || (ev !in db.events && Names(u(ev), id) && (id in db.events || id == ev)))
  {
    var door, now, out: Outcome :| out.Accepted? && Ingests(db, u(ev), door, now, db', out);
    assert u(ev).id == ev;
    IngestKeepsBase(u, db, u(ev), door, now, db', out);
    AcceptedIsNew(u, db, ev, door, now, db', out);
    hide Ingests, Base, Names;
    IngestSetsFlags(u, db, u(ev), door, now, db', out, id);
  }

  lemma AcceptedIsNew(u: Universe, db: Db, ev: EventId, door: Door, now: int, db': Db, out: Outcome)
    requires Base(u, db) && Ingests(db, u(ev), door, now, db', out) && out.Accepted?
    ensures ev in db.events <==> out.duplicate
    ensures out.duplicate ==> db' == db
  {
    FrontKeepsBase(u, db, u(ev), door, now);
  }

  /**
   A new deletion and the event it names, accepted and stored in either order: target first, the
   target ends deleted; deletion first, it ends deleted if and only if it was stored before both
   (or is a deletion that names itself).
   */
  lemma OrderOfDeletion(u: Universe, db: Db, target: EventId, del: EventId, a: Db, ab: Db, b: Db, ba: Db)
    requires Base(u, db) && Names(u(del), target) && del != target
    requires Accepts(u, db, target, a) && Accepts(u, a, del, ab) && Accepts(u, db, del, b) && Accepts(u, b, target, ba)
    requires del !in db.events && del !in a.events && target in a.events && target in ba.events
    ensures target in ab.events && ab.events[target].deleted
    ensures ba.events[target].deleted <==> target in db.events || (target !in b.events && Names(u(target), target))
  {
    hide Names, Accepts;
    AcceptSetsFlags(u, db, target, a, target);
    AcceptSetsFlags(u, a, del, ab, target);
    AcceptSetsFlags(u, db, del, b, target);
    AcceptSetsFlags(u, b, target, ba, target);
  }
}
