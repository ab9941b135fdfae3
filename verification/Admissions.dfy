/**
 Concurrent admissions (src/nip29.rs). Any number of invite admissions run at once, each one a task
 that checks the channel, waits for the channel's lock, reads the member list, and writes a
 replacement. A step is one store call or one lock operation; between two steps of one task any
 other task, and any ordinary traffic, may run.
 */
module Admissions {
  import opened Options
  import opened Ids
  import opened Events
  import opened Tables
  import opened Engine
  import opened Attach
  import opened Reachable
  import opened Groups
  import opened GroupState
  import opened GroupRuns

  type TaskId = nat

  datatype Phase =
    | Checking
    | Queued
    | Holding
    | HasRead(prev: Option<Event>)
    | HasWritten(written: Event)
    | Finished(result: Admission)

  datatype Task = Task(channel: string, key: string, phase: Phase)

  /** Who wrote which replacement, oldest first: a history of the run, not part of the program. */
  datatype Write = Write(channel: string, key: string, ev: Event)

  datatype Sys = Sys(db: Db, tasks: map<TaskId, Task>, locks: map<string, TaskId>, log: seq<Write>)

  datatype Move =
    | Call(t: TaskId, channel: string, claimant: string)
    | Check(t: TaskId)
    | Acquire(t: TaskId)
    | ReadMembers(t: TaskId)
    | WriteMembers(t: TaskId, now: nat)
    | Release(t: TaskId)
    | Other(op: Op, outcome: Report)

  function Goes(s: Sys, t: TaskId, phase: Phase): Sys
    requires t in s.tasks
  {
    s.(tasks := s.tasks[t := s.tasks[t].(phase := phase)])
  }

  function Unlock(s: Sys, t: TaskId): Sys
    requires t in s.tasks
  {
    s.(locks := s.locks - {s.tasks[t].channel})
  }

  function MembersOf(e: Option<Event>): seq<Entry> {
    match e
    case None => []
    case Some(ev) => PEntries(ev.tags)
  }

  function Replacement(r: Relay, channel: string, key: string, prev: Option<Event>, now: nat): Event {
    Carrier(r, KIND_MEMBERS, channel, ChannelState(None, None, Upserted(MembersOf(prev), key, "member")), prev, now)
  }

  ghost predicate InPhase(s: Sys, t: TaskId, phase: Phase) {
    t in s.tasks && s.tasks[t].phase == phase
  }

  ghost predicate Moves(u: Universe, r: Relay, s: Sys, m: Move, s': Sys) {
    match m
    case Call(t, channel, claimant) =>
      t !in s.tasks &&
      s' == s.(tasks := s.tasks[t := Task(channel, Lower(claimant),
        if channel == "" then Finished(Denied(EmptyChannelTag))
        else if !Is64Hex(claimant) then Finished(Denied(BadKey)) else Checking)])
    case Check(t) =>
      InPhase(s, t, Checking) &&
      s' == Goes(s, t, if Latest(s.db.events, KIND_METADATA, s.tasks[t].channel).Some? then Queued
                       else Finished(Denied(UnknownGroup)))
    case Acquire(t) =>
      InPhase(s, t, Queued) && s.tasks[t].channel !in s.locks &&
      s' == Goes(s, t, Holding).(locks := s.locks[s.tasks[t].channel := t])
    case ReadMembers(t) =>
      InPhase(s, t, Holding) &&
      var prev := Latest(s.db.events, KIND_MEMBERS, s.tasks[t].channel);
      if prev.Some? && Listed(PEntries(prev.value.tags), s.tasks[t].key)
      then s' == Unlock(Goes(s, t, Finished(Existing(prev.value.id))), t)
      else s' == Goes(s, t, HasRead(prev))
    case WriteMembers(t, now) =>
      t in s.tasks && s.tasks[t].phase.HasRead? &&
      var ev := Replacement(r, s.tasks[t].channel, s.tasks[t].key, s.tasks[t].phase.prev, now);
      (match Emit(s.db, ev)
       case Failed => s' == Unlock(Goes(s, t, Finished(AdmitErrored)), t)
       case Ok(d) => s' == Goes(s, t, HasWritten(ev)).(db := d,
         log := s.log + [Write(s.tasks[t].channel, s.tasks[t].key, ev)]))
    case Release(t) =>
      t in s.tasks && s.tasks[t].phase.HasWritten? &&
      s' == Unlock(Goes(s, t, Finished(Added(s.tasks[t].phase.written))), t)
    case Other(op, out) =>
      s' == s.(db := s'.db) && Performs(u, r, s.db, Traffic(op, out), s'.db)
  }

  /** A run from a store without admissions in flight; the lists always fit the query limit. */
  ghost predicate Runs(u: Universe, r: Relay, db0: Db, moves: seq<Move>, s: Sys) {
    && WithinCaps(s.db)
    && if moves == [] then s == Sys(db0, map[], map[], []) else
         var n := |moves| - 1;
         exists prev :: Runs(u, r, db0, moves[..n], prev) && Moves(u, r, prev, moves[n], s)
  }

  // ---- what a channel's list must be ---------------------------------------

  function WritesTo(log: seq<Write>, channel: string): seq<Write> {
    if log == [] then [] else
      var n := |log| - 1;
      WritesTo(log[..n], channel) + (if log[n].channel == channel then [log[n]] else [])
  }

  function NewMembers(ws: seq<Write>): seq<Entry> {
    seq(|ws|, i requires 0 <= i < |ws| => (ws[i].key, "member"))
  }

  /** Timestamps strictly grow from the event found at the start. */
  ghost predicate Rising(first: Option<Event>, ws: seq<Write>) {
    forall i :: RisesAt(first, ws, i)
  }

  predicate RisesAt(first: Option<Event>, ws: seq<Write>, i: int) {
    0 <= i < |ws| ==> ws[i].ev.createdAt >= Floor(EventBefore(first, ws, i))
  }

  function EventBefore(first: Option<Event>, ws: seq<Write>, i: nat): Option<Event>
    requires i <= |ws|
  {
    if i == 0 then first else Some(ws[i - 1].ev)
  }

  /** The member list is the list at the start followed by the keys written since, in order. */
  ghost predicate ChannelGrew(r: Relay, db0: Db, s: Sys, channel: string) {
    var ws := WritesTo(s.log, channel);
    && View(s.db, r, channel).members == View(db0, r, channel).members + NewMembers(ws)
    && Holder(s.db, r, KIND_MEMBERS, channel) ==
         EventBefore(Holder(db0, r, KIND_MEMBERS, channel), ws, |ws|)
    && Rising(Holder(db0, r, KIND_MEMBERS, channel), ws)
  }

  predicate InCriticalSection(p: Phase) {
    p.Holding? || p.HasRead? || p.HasWritten?
  }

  /** What a task knows, as long as nobody else can write its channel. */
  ghost predicate TaskOk(r: Relay, s: Sys, t: TaskId) {
    t in s.tasks ==>
      var task := s.tasks[t];
      var members := View(s.db, r, task.channel).members;
      && (InCriticalSection(task.phase) ==> task.channel in s.locks && s.locks[task.channel] == t)
      && (task.phase.HasRead? ==>
            task.phase.prev == Holder(s.db, r, KIND_MEMBERS, task.channel) && !Listed(members, task.key))
      && (task.phase.HasWritten? ==> Listed(members, task.key) && InLog(s, task.channel, task.key, task.phase.written))
      && (task.phase.Finished? && task.phase.result.Added? ==>
            Listed(members, task.key) && InLog(s, task.channel, task.key, task.phase.result.ev))
      && (task.phase.Finished? && task.phase.result.Existing? ==> Listed(members, task.key))
  }

  predicate InLog(s: Sys, channel: string, key: string, ev: Event) {
    Write(channel, key, ev) in s.log
  }

  ghost predicate SysOk(u: Universe, r: Relay, db0: Db, s: Sys) {
    && GroupOk(u, r, s.db)
    && (forall ch :: ChannelGrew(r, db0, s, ch))
    && (forall t :: TaskOk(r, s, t))
  }

  // ---- one step keeps it ---------------------------------------------------

  lemma ListedConcat(a: seq<Entry>, b: seq<Entry>, key: string)
    ensures Listed(a + b, key) <==> Listed(a, key) || Listed(b, key)
  {
    if Listed(a, key) {
      var i :| 0 <= i < |a| && a[i].0 == key;
      assert (a + b)[i].0 == key;
    }
    if Listed(b, key) {
      var i :| 0 <= i < |b| && b[i].0 == key;
      assert (a + b)[|a| + i].0 == key;
    }
    if Listed(a + b, key) {
      var i :| 0 <= i < |a + b| && (a + b)[i].0 == key;
      assert if i < |a| then a[i].0 == key else b[i - |a|].0 == key;
    }
  }

  /** The tables' member lists did not move: only one task's own phase and lock did. */
  lemma QuietStep(u: Universe, r: Relay, db0: Db, s: Sys, s': Sys)
    requires SysOk(u, r, db0, s) && GroupOk(u, r, s'.db) && s'.log == s.log
    requires forall ch :: Holder(s'.db, r, KIND_MEMBERS, ch) == Holder(s.db, r, KIND_MEMBERS, ch)
    requires forall t :: TaskOk(r, s', t)
    ensures SysOk(u, r, db0, s')
  {
    hide Holder, WritesTo, NewMembers, GroupOk;
    forall ch ensures ChannelGrew(r, db0, s', ch) { assert ChannelGrew(r, db0, s, ch); }
  }

  lemma CallKeepsOk(u: Universe, r: Relay, db0: Db, s: Sys, m: Move, s': Sys)
    requires SysOk(u, r, db0, s) && Moves(u, r, s, m, s') && (m.Call? || m.Check? || m.Acquire?)
    ensures SysOk(u, r, db0, s')
  {
    hide GroupOk, Holder, View, Latest;
    forall t ensures TaskOk(r, s', t) {
      assert TaskOk(r, s, t);
    }
    QuietStep(u, r, db0, s, s');
  }

  /** One task ends and unlocks its channel; nobody else's knowledge is touched. */
  lemma UnlockKeepsTask(r: Relay, s: Sys, t0: TaskId, end: Admission, t: TaskId)
    requires t0 in s.tasks && InCriticalSection(s.tasks[t0].phase) && TaskOk(r, s, t0) && TaskOk(r, s, t)
    requires end.Existing? ==> Listed(View(s.db, r, s.tasks[t0].channel).members, s.tasks[t0].key)
    requires end.Added? ==> s.tasks[t0].phase == HasWritten(end.ev)
    ensures TaskOk(r, Unlock(Goes(s, t0, Finished(end)), t0), t)
  {
    hide View, Listed;
  }

  lemma ReadKeepsOk(u: Universe, r: Relay, db0: Db, s: Sys, m: Move, s': Sys)
    requires SysOk(u, r, db0, s) && WithinCaps(s.db) && Moves(u, r, s, m, s') && m.ReadMembers?
    ensures SysOk(u, r, db0, s')
  {
    LatestIsHolder(u, r, s.db, KIND_MEMBERS, s.tasks[m.t].channel);
    hide Seen, View, InLog, GroupOk, Holder, Latest, WithinCap, WithinCaps, ChannelGrew, Performs, Listed, Emit;
    assert TaskOk(r, s, m.t);
    forall t ensures TaskOk(r, s', t) {
      assert TaskOk(r, s, t);
      if s'.tasks[m.t].phase.Finished? {
        UnlockKeepsTask(r, s, m.t, s'.tasks[m.t].phase.result, t);
      }
    }
    hide TaskOk, Moves;
    QuietStep(u, r, db0, s, s');
  }

  lemma ReleaseKeepsOk(u: Universe, r: Relay, db0: Db, s: Sys, m: Move, s': Sys)
    requires SysOk(u, r, db0, s) && Moves(u, r, s, m, s')
             && (m.Release? || (m.WriteMembers? && s'.db == s.db && s'.log == s.log))
    requires m.WriteMembers? ==> s'.tasks[m.t].phase == Finished(AdmitErrored)
    ensures SysOk(u, r, db0, s')
  {
    hide GroupOk, Holder, View, Listed, Emit, ChannelGrew;
    assert TaskOk(r, s, m.t);
    forall t ensures TaskOk(r, s', t) {
      assert TaskOk(r, s, t);
      UnlockKeepsTask(r, s, m.t, s'.tasks[m.t].phase.result, t);
    }
    hide TaskOk, Moves;
    QuietStep(u, r, db0, s, s');
  }

  lemma OtherKeepsOk(u: Universe, r: Relay, db0: Db, s: Sys, m: Move, s': Sys)
    requires SysOk(u, r, db0, s) && Moves(u, r, s, m, s') && m.Other?
    ensures SysOk(u, r, db0, s')
  {
    TrafficStep(u, r, s.db, Traffic(m.op, m.outcome), s'.db);
    hide GroupOk, Holder, Performs;
    forall t ensures TaskOk(r, s', t) {
      assert TaskOk(r, s, t);
    }
    QuietStep(u, r, db0, s, s');
  }

  /** What one write does to every channel's member list. */
  lemma WriteMovesOneList(u: Universe, r: Relay, db0: Db, s: Sys, t: TaskId, now: nat)
    requires SysOk(u, r, db0, s) && t in s.tasks && s.tasks[t].phase.HasRead?
    ensures var task := s.tasks[t];
            var ev := Replacement(r, task.channel, task.key, task.phase.prev, now);
            Emit(s.db, ev).Ok? ==>
              var d := Emit(s.db, ev).value;
              && GroupOk(u, r, d)
              && Holder(d, r, KIND_MEMBERS, task.channel) == Some(ev)
              && ev.createdAt >= Floor(Holder(s.db, r, KIND_MEMBERS, task.channel))
              && View(d, r, task.channel).members == View(s.db, r, task.channel).members + [(task.key, "member")]
              && (forall ch :: ch != task.channel ==>
                  Holder(d, r, KIND_MEMBERS, ch) == Holder(s.db, r, KIND_MEMBERS, ch))
  {
    var task := s.tasks[t];
    var ev := Replacement(r, task.channel, task.key, task.phase.prev, now);
    assert TaskOk(r, s, t);
    var c := Admitted(View(s.db, r, task.channel), task.key);
    ViewIsOk(u, r, s.db, task.channel);
    AdmittedKeepsStateOk(View(s.db, r, task.channel), task.key);
    var prev := task.phase.prev;
    assert c.members == View(s.db, r, task.channel).members + [(task.key, "member")];
    assert ev == Carrier(r, KIND_MEMBERS, task.channel, c, prev, now);
    CarrierDecodes(r, KIND_MEMBERS, task.channel, c, prev, now);
    assert u(ev.id) == ev;
    EmitWinsSlot(u, r, s.db, ev, task.channel);
    if Emit(s.db, ev).Ok? {
      var d := Emit(s.db, ev).value;
      hide GroupOk, Holder, Emit, StateOk;
      forall ch | ch != task.channel ensures Holder(d, r, KIND_MEMBERS, ch) == Holder(s.db, r, KIND_MEMBERS, ch) {
        assert GroupState.Other(ev.kind, task.channel, KIND_MEMBERS, ch);
      }
    }
  }

  lemma RisingSnoc(first: Option<Event>, ws: seq<Write>, w: Write)
    requires Rising(first, ws)
    requires w.ev.createdAt >= Floor(EventBefore(first, ws, |ws|))
    ensures Rising(first, ws + [w])
  {
    var more := ws + [w];
    forall i ensures RisesAt(first, more, i) {
      assert RisesAt(first, ws, i);
      if 0 <= i <= |ws| { assert EventBefore(first, more, i) == EventBefore(first, ws, i); }
    }
  }

  lemma GrewAfterWrite(r: Relay, db0: Db, s: Sys, s': Sys, w: Write, ch: string)
    requires ChannelGrew(r, db0, s, ch) && s'.log == s.log + [w]
    requires w.channel != ch ==> Holder(s'.db, r, KIND_MEMBERS, ch) == Holder(s.db, r, KIND_MEMBERS, ch)
    requires w.channel == ch ==>
      && Holder(s'.db, r, KIND_MEMBERS, ch) == Some(w.ev)
      && w.ev.createdAt >= Floor(Holder(s.db, r, KIND_MEMBERS, ch))
      && View(s'.db, r, ch).members == View(s.db, r, ch).members + [(w.key, "member")]
    ensures ChannelGrew(r, db0, s', ch)
  {
    hide Holder;
    assert s'.log[..|s.log|] == s.log;
    var ws := WritesTo(s.log, ch);
    assert WritesTo(s'.log, ch) == ws + (if w.channel == ch then [w] else []);
    if w.channel == ch {
      assert NewMembers(ws + [w]) == NewMembers(ws) + [(w.key, "member")];
      assert (View(db0, r, ch).members + NewMembers(ws)) + [(w.key, "member")]
        == View(db0, r, ch).members + NewMembers(ws + [w]);
      RisingSnoc(Holder(db0, r, KIND_MEMBERS, ch), ws, w);
    } else {
      assert WritesTo(s'.log, ch) == ws;
    }
  }

  lemma TaskAfterWrite(r: Relay, s: Sys, s': Sys, m: Move, w: Write, t: TaskId)
    requires m.WriteMembers? && m.t in s.tasks && TaskOk(r, s, t) && TaskOk(r, s, m.t)
    requires s.tasks[m.t].phase.HasRead? && w.channel == s.tasks[m.t].channel && w.key == s.tasks[m.t].key
    requires s'.tasks == s.tasks[m.t := s.tasks[m.t].(phase := HasWritten(w.ev))] && s'.locks == s.locks
             && s'.log == s.log + [w]
    requires View(s'.db, r, w.channel).members == View(s.db, r, w.channel).members + [(w.key, "member")]
    requires forall ch :: ch != w.channel ==> Holder(s'.db, r, KIND_MEMBERS, ch) == Holder(s.db, r, KIND_MEMBERS, ch)
    ensures TaskOk(r, s', t)
  {
    if t in s.tasks {
      var task := s.tasks[t];
      ListedConcat(View(s.db, r, w.channel).members, [(w.key, "member")], task.key);
      assert [(w.key, "member")][0].0 == w.key;
      assert w in s'.log && forall x :: x in s.log ==> x in s'.log;
      hide Holder, Listed;
      assert task.channel != w.channel ==> View(s'.db, r, task.channel).members == View(s.db, r, task.channel).members;
    }
  }

  lemma WriteKeepsOk(u: Universe, r: Relay, db0: Db, s: Sys, m: Move, s': Sys)
    requires SysOk(u, r, db0, s) && Moves(u, r, s, m, s') && m.WriteMembers?
    ensures SysOk(u, r, db0, s')
  {
    var task := s.tasks[m.t];
    var ev := Replacement(r, task.channel, task.key, task.phase.prev, m.now);
    if Emit(s.db, ev).Failed? {
      ReleaseKeepsOk(u, r, db0, s, m, s');
    } else {
      WriteMovesOneList(u, r, db0, s, m.t, m.now);
      var w := Write(task.channel, task.key, ev);
      hide GroupOk, Holder, View, Emit, Replacement;
      forall ch ensures ChannelGrew(r, db0, s', ch) {
        assert ChannelGrew(r, db0, s, ch);
        GrewAfterWrite(r, db0, s, s', w, ch);
      }
      forall t ensures TaskOk(r, s', t) {
        assert TaskOk(r, s, t) && TaskOk(r, s, m.t);
        TaskAfterWrite(r, s, s', m, w, t);
      }
    }
  }

  lemma MoveKeepsOk(u: Universe, r: Relay, db0: Db, s: Sys, m: Move, s': Sys)
    requires SysOk(u, r, db0, s) && WithinCaps(s.db) && Moves(u, r, s, m, s')
    ensures SysOk(u, r, db0, s')
  {
    hide SysOk, WithinCaps, Moves;
    match m
    case Call(_, _, _) => CallKeepsOk(u, r, db0, s, m, s');
    case Check(_) => CallKeepsOk(u, r, db0, s, m, s');
    case Acquire(_) => CallKeepsOk(u, r, db0, s, m, s');
    case ReadMembers(_) => ReadKeepsOk(u, r, db0, s, m, s');
    case WriteMembers(_, _) => WriteKeepsOk(u, r, db0, s, m, s');
    case Release(_) => ReleaseKeepsOk(u, r, db0, s, m, s');
    case Other(_, _) => OtherKeepsOk(u, r, db0, s, m, s');
  }

  lemma {:induction false} RunIsOk(u: Universe, r: Relay, db0: Db, moves: seq<Move>, s: Sys)
    requires GroupOk(u, r, db0) && Runs(u, r, db0, moves, s)
    ensures SysOk(u, r, db0, s) && WithinCaps(s.db)
    decreases |moves|
  {
    if moves == [] {
      forall ch ensures ChannelGrew(r, db0, s, ch) {
        assert View(db0, r, ch).members + [] == View(db0, r, ch).members;
      }
    } else {
      hide SysOk, WithinCaps, Moves, GroupOk;
      var n := |moves| - 1;
      var prev :| Runs(u, r, db0, moves[..n], prev) && Moves(u, r, prev, moves[n], s);
      RunIsOk(u, r, db0, moves[..n], prev);
      MoveKeepsOk(u, r, db0, prev, moves[n], s);
    }
  }

  // ---- nobody is lost ------------------------------------------------------

  /** Exactly one entry of a list has this key. */
  predicate ListedOnce(entries: seq<Entry>, key: string) {
    exists i :: 0 <= i < |entries| && entries[i].0 == key && forall j :: 0 <= j < |entries| && j != i ==>
      entries[j].0 != key
  }

  /**
   In every interleaving: prior members keep their place and role, every admission that finished
   with a membership has its key in the list exactly once, the replacements of a channel have
   strictly growing timestamps, and no key was written twice nor written when it was already listed.
   */
  lemma AdmissionsLoseNobody(u: Universe, r: Relay, db0: Db, moves: seq<Move>, s: Sys, channel: string)
    requires GroupOk(u, r, db0) && Runs(u, r, db0, moves, s)
    ensures var was, now := ReadMembersOf(db0, r, channel), ReadBack(s.db, channel).members;
            var ws := WritesTo(s.log, channel);
            && now == was + NewMembers(ws)
            && (forall t :: EndedAsMember(s, t, channel) ==> ListedOnce(now, s.tasks[t].key))
            && (forall i, j :: 0 <= i < j < |ws| ==> ws[i].ev.createdAt < ws[j].ev.createdAt)
            && (forall i, j :: 0 <= i < j < |ws| ==> ws[i].key != ws[j].key)
            && (forall i :: 0 <= i < |ws| ==> !Listed(was, ws[i].key))
  {
    RunIsOk(u, r, db0, moves, s);
    ReadBackIsView(u, r, s.db, channel);
    ViewIsOk(u, r, s.db, channel);
    assert ChannelGrew(r, db0, s, channel);
    var was, now := ReadMembersOf(db0, r, channel), ReadBack(s.db, channel).members;
    var ws := WritesTo(s.log, channel);
    assert now == was + NewMembers(ws) && UniqueKeys(now) && Rising(Holder(db0, r, KIND_MEMBERS, channel), ws);
    forall t | EndedAsMember(s, t, channel) ensures ListedOnce(now, s.tasks[t].key) {
      assert TaskOk(r, s, t);
      OneOfUnique(now, s.tasks[t].key);
    }
    WritesAreNew(Holder(db0, r, KIND_MEMBERS, channel), was, ws);
  }

  /** The admission of this task ended with a membership. */
  predicate EndedAsMember(s: Sys, t: TaskId, channel: string) {
    && t in s.tasks && s.tasks[t].channel == channel && s.tasks[t].phase.Finished?
    && (s.tasks[t].phase.result.Added? || s.tasks[t].phase.result.Existing?)
  }

  lemma WritesAreNew(first: Option<Event>, was: seq<Entry>, ws: seq<Write>)
    requires UniqueKeys(was + NewMembers(ws)) && Rising(first, ws)
    ensures forall i, j :: 0 <= i < j < |ws| ==> ws[i].ev.createdAt < ws[j].ev.createdAt
    ensures forall i, j :: 0 <= i < j < |ws| ==> ws[i].key != ws[j].key
    ensures forall i :: 0 <= i < |ws| ==> !Listed(was, ws[i].key)
  {
    var now := was + NewMembers(ws);
    forall i | 0 <= i < |ws| ensures !Listed(was, ws[i].key) && now[|was| + i].0 == ws[i].key {
      assert now[|was| + i] == (ws[i].key, "member");
      assert forall k :: 0 <= k < |was| ==> now[k] == was[k];
    }
    forall i, j | 0 <= i < j < |ws| ensures ws[i].ev.createdAt < ws[j].ev.createdAt && ws[i].key != ws[j].key {
      RisingStrictly(first, ws, i, j);
      assert now[|was| + i].0 != now[|was| + j].0;
    }
  }

  function ReadMembersOf(db: Db, r: Relay, channel: string): seq<Entry> {
    View(db, r, channel).members
  }

  lemma OneOfUnique(entries: seq<Entry>, key: string)
    requires UniqueKeys(entries) && Listed(entries, key)
    ensures ListedOnce(entries, key)
  {
    var i :| 0 <= i < |entries| && entries[i].0 == key;
    forall j | 0 <= j < |entries| && j != i ensures entries[j].0 != key {
      assert if i < j then entries[i].0 != entries[j].0 else entries[j].0 != entries[i].0;
    }
  }

  lemma {:induction false} RisingStrictly(first: Option<Event>, ws: seq<Write>, i: nat, j: nat)
    requires Rising(first, ws) && i < j < |ws|
    ensures ws[i].ev.createdAt < ws[j].ev.createdAt
    decreases j
  {
    assert RisesAt(first, ws, j);
    if i < j - 1 { RisingStrictly(first, ws, i, j - 1); }
  }

  /** At most one task is inside a channel's critical section. */
  lemma MutualExclusion(u: Universe, r: Relay, db0: Db, moves: seq<Move>, s: Sys, t1: TaskId, t2: TaskId)
    requires GroupOk(u, r, db0) && Runs(u, r, db0, moves, s)
    requires t1 in s.tasks && t2 in s.tasks && s.tasks[t1].channel == s.tasks[t2].channel
    requires InCriticalSection(s.tasks[t1].phase) && InCriticalSection(s.tasks[t2].phase)
    ensures t1 == t2
  {
    RunIsOk(u, r, db0, moves, s);
    assert TaskOk(r, s, t1) && TaskOk(r, s, t2);
  }

  // ---- what a call comes to ------------------------------------------------

  /** 64 hex digits. */
  predicate KeyText(s: string) {
    |s| == 64 && forall j :: 0 <= j < 64 ==> s[j] in HEX_DIGITS
  }

  /**
   A task serves the call that started it: the same channel, the key in lower case; denied at once
   without a channel or a key, and otherwise only because the channel is unknown.
   */
  predicate Serves(m: Move, task: Task)
    requires m.Call?
  {
    && task.channel == m.channel && task.key == Lower(m.claimant)
    && (m.channel == "" ==> task.phase == Finished(Denied(EmptyChannelTag)))
    && (m.channel != "" && !KeyText(m.claimant) ==> task.phase == Finished(Denied(BadKey)))
    && (m.channel != "" && KeyText(m.claimant) && task.phase.Finished? && task.phase.result.Denied? ==>
          task.phase.result.why == UnknownGroup)
  }

  /** A move keeps every task's channel and key, ends no task twice, and denies only an unknown channel. */
  lemma MoveKeepsTask(u: Universe, r: Relay, s: Sys, m: Move, s': Sys, t: TaskId)
    requires Moves(u, r, s, m, s') && t in s.tasks
    ensures t in s'.tasks && s'.tasks[t].channel == s.tasks[t].channel && s'.tasks[t].key == s.tasks[t].key
    ensures var was, now := s.tasks[t].phase, s'.tasks[t].phase;
            && (was.Finished? ==> now == was)
            && (now.Finished? && now.result.Denied? ==> now == was || now.result.why == UnknownGroup)
  {
    hide Latest, Emit, Performs, Replacement, Listed, Is64Hex;
  }

  lemma CallStarts(u: Universe, r: Relay, s: Sys, m: Move, s': Sys)
    requires Moves(u, r, s, m, s') && m.Call?
    ensures m.t in s'.tasks && Serves(m, s'.tasks[m.t])
  {
    forall j | 0 <= j < |m.claimant| ensures IsHexDigit(m.claimant[j]) <==> m.claimant[j] in HEX_DIGITS {
      HexDigits(m.claimant[j]);
    }
  }

  lemma ServesOn(m: Move, was: Task, now: Task)
    requires m.Call? && Serves(m, was) && now.channel == was.channel && now.key == was.key
    requires was.phase.Finished? ==> now.phase == was.phase
    requires now.phase.Finished? && now.phase.result.Denied? ==>
      now.phase == was.phase || now.phase.result.why == UnknownGroup
    ensures Serves(m, now)
  {
    hide KeyText, Lower;
  }

  /** Every call of a run is served by its task, whatever else runs. */
  lemma {:induction false} CallIsServed(u: Universe, r: Relay, db0: Db, moves: seq<Move>, s: Sys, i: nat)
    requires Runs(u, r, db0, moves, s) && i < |moves| && moves[i].Call?
    ensures moves[i].t in s.tasks && Serves(moves[i], s.tasks[moves[i].t])
    decreases |moves|
  {
    hide WithinCaps, Moves, Serves;
    var n := |moves| - 1;
    var prev :| Runs(u, r, db0, moves[..n], prev) && Moves(u, r, prev, moves[n], s);
    if i < n {
      assert moves[..n][i] == moves[i];
      CallIsServed(u, r, db0, moves[..n], prev, i);
      MoveKeepsTask(u, r, prev, moves[n], s, moves[i].t);
      ServesOn(moves[i], prev.tasks[moves[i].t], s.tasks[moves[i].t]);
    } else {
      CallStarts(u, r, prev, moves[n], s);
    }
  }

  // ---- locks are given back ------------------------------------------------

  /** A lock is held by a task of its channel that is inside the critical section. */
  predicate LockHeld(s: Sys, channel: string) {
    channel in s.locks ==>
      && s.locks[channel] in s.tasks && s.tasks[s.locks[channel]].channel == channel
      && InCriticalSection(s.tasks[s.locks[channel]].phase)
  }

  lemma MoveKeepsLocks(u: Universe, r: Relay, s: Sys, m: Move, s': Sys)
    requires Moves(u, r, s, m, s') && forall ch :: LockHeld(s, ch)
    ensures forall ch :: LockHeld(s', ch)
  {
    hide Latest, Emit, Performs, Replacement, Listed, Is64Hex;
    forall ch ensures LockHeld(s', ch) { assert LockHeld(s, ch); }
  }

  /**
   No lock outlives its task: in every interleaving a lock is held by a task inside the critical section
   of its channel, so once every task has finished no channel is locked and a queued task can go in.
   */
  lemma {:induction false} LocksAreGivenBack(u: Universe, r: Relay, db0: Db, moves: seq<Move>, s: Sys, channel: string)
    requires Runs(u, r, db0, moves, s)
    ensures forall ch :: LockHeld(s, ch)
    ensures (forall t :: t in s.tasks && s.tasks[t].channel == channel ==>
               s.tasks[t].phase.Finished? || s.tasks[t].phase == Queued) ==> channel !in s.locks
    decreases |moves|
  {
    hide WithinCaps, Moves;
    if moves != [] {
      var n := |moves| - 1;
      var prev :| Runs(u, r, db0, moves[..n], prev) && Moves(u, r, prev, moves[n], s);
      LocksAreGivenBack(u, r, db0, moves[..n], prev, channel);
      MoveKeepsLocks(u, r, prev, moves[n], s);
    }
    assert LockHeld(s, channel);
  }
}
