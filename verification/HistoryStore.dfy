/**
 The history store (src/history/mod.rs and src/history/engine.rs) as the program runs it: one object
 whose tables the ingest transaction rewrites in place, an explicit stack in the drain, and a
 rollback on error. Every method is proved against the step it implements.
 */
module HistoryStores {
  import opened Options
  import opened Ids
  import opened Events
  import opened Tables
  import opened Engine
  import opened Attach
  import opened Reachable

  class HistoryStore {
    ghost const u: Universe

    var events: map<EventId, EventRow>
    var thread: map<EventId, ThreadRow>
    var pending: map<EventId, PendingRow>
    var quarantined: map<EventId, QuarantineRow>
    var slots: map<Slot, SlotRow>

    /** The tables as one value. */
    ghost function State(): Db
      reads this
    {
      Db(events, thread, pending, quarantined, slots)
    }

    ghost predicate Valid()
      reads this
    {
      Base(u, State())
    }

    constructor (ghost universe: Universe)
      requires Authentic(universe)
      ensures Valid() && State() == EMPTY_DB && u == universe
    {
      u := universe;
      events, thread, pending, quarantined, slots := map[], map[], map[], map[], map[];
      new;
      forall x ensures CountOk(EMPTY_DB, x) {}
    }

    // ---- statements --------------------------------------------------------

    method InsertEvent(ev: Event) returns (ok: bool)
      modifies this`events
      ensures ok <==> InsertEventRow(old(State()), ev).Ok?
      ensures ok ==> State() == InsertEventRow(old(State()), ev).value
      ensures !ok ==> State() == old(State())
    {
      ok := ev.id !in events && InRange(ev);
      if ok { events := events[ev.id := EventRow(ev, Channel(ev), false)]; }
    }

    method InsertStubRow(id: EventId) returns (ok: bool)
      modifies this`thread
      ensures ok <==> InsertStub(old(State()), id).Ok?
      ensures ok ==> State() == InsertStub(old(State()), id).value
      ensures !ok ==> State() == old(State())
    {
      ok := id in events;
      if ok && id !in thread { thread := thread[id := StubRow(events[id])]; }
    }

    method BumpCounters(a: Attachment)
      modifies this`thread
      ensures State() == Bump(old(State()), a)
    {
      if a.parent in thread {
        var row := thread[a.parent];
        thread := thread[a.parent := row.(
          replyCount := row.replyCount + 1,
          lastReplyAt := if a.door == Local then Some(a.now) else Some(Max(row.lastReplyAt.GetOr(0), a.ev.createdAt)))];
      }
      if a.root in thread {
        var row := thread[a.root];
        thread := thread[a.root := row.(descendantCount := row.descendantCount + 1)];
      }
    }

    /** `insert_reply`; on failure the tables may be half written, and the transaction is lost. */
    method InsertReplyRows(a: Attachment) returns (ok: bool)
      modifies this`events, this`thread
      ensures ok <==> InsertReply(old(State()), a).Ok?
      ensures ok ==> State() == InsertReply(old(State()), a).value
    {
      var present := a.ev.id in thread;
      ok := InsertEvent(a.ev);
      if !ok || present { return; }
      thread := thread[a.ev.id := ReplyRow(a.ev, a.parent, a.root, a.depth)];
      ok := InsertStubRow(a.parent);
      if !ok { return; }
      if a.root != a.parent {
        ok := InsertStubRow(a.root);
        if !ok { return; }
      }
      BumpCounters(a);
    }

    /** `insert_deduped`; None is an error. */
    method InsertOnce(ev: Event) returns (r: Option<StoreOutcome>)
      modifies this`events, this`slots
      ensures r.Some? <==> InsertDeduped(old(State()), ev).Ok?
      ensures r.Some? ==> InsertDeduped(old(State()), ev).value == (State(), r.value)
    {
      if !InRange(ev) { return None; }
      if !IsReplaceable(ev.kind) {
        var ok := InsertEvent(ev);
        return if ok then Some(Inserted) else None;
      }
      var slot := SlotOf(ev);
      var taken := slot in slots;
      if taken && StoredWins(slots[slot], ev) { return Some(StaleRejected); }
      if taken { events := events - {slots[slot].eventId}; }
      var ok := InsertEvent(ev);
      if !ok { return None; }
      slots := slots[slot := SlotRow(ev.id, ev.createdAt)];
      return Some(if taken then Replaced else Inserted);
    }

    // ---- deletion ----------------------------------------------------------

    method SoftDelete(target: EventId) returns (emits: seq<ThreadEmit>)
      modifies this`events, this`thread
      ensures (State(), emits) == DeleteOne(old(State()), target)
    {
      emits := [];
      if target !in events || events[target].deleted { return; }
      events := events[target := events[target].(deleted := true)];
      if target !in thread { return; }
      var tm := thread[target];
      if tm.parent.Some? && tm.parent.value in thread {
        var row := thread[tm.parent.value];
        thread := thread[tm.parent.value := row.(replyCount := Max(row.replyCount - 1, 0))];
      }
      if tm.root.Some? {
        if tm.root.value in thread {
          var row := thread[tm.root.value];
          thread := thread[tm.root.value := row.(descendantCount := Max(row.descendantCount - 1, 0))];
        }
        emits := [ThreadEmit(tm.root.value, tm.channel)];
      }
    }

    /** The loop of `delete_flow` over the e-tags; a value that is not an id is skipped. */
    method DeleteTargets(raws: seq<string>) returns (emits: seq<ThreadEmit>)
      modifies this`events, this`thread
      ensures (State(), emits) == DeleteAll(old(State()), raws)
    {
      emits := [];
      ghost var was := State();
      for k := 0 to |raws|
        invariant (State(), emits) == DeleteAll(was, raws[..k])
      {
        assert raws[..k + 1][..k] == raws[..k] && raws[..k + 1][k] == raws[k];
        assert emits + [] == emits;
        var t := ParseId(raws[k]);
        if t.Some? {
          var e := SoftDelete(t.value);
          emits := emits + e;
        }
      }
      assert raws[..|raws|] == raws;
    }

    // ---- the drain ---------------------------------------------------------

    /** The parked replies to `parent`, in whatever order the table yields them. */
    method PendingChildren(parent: EventId) returns (out: seq<Event>)
      requires Valid()
      ensures Children(State(), parent, out)
    {
      out := [];
      var left := set o | o in pending && pending[o].parent == parent;
      while left != {}
        invariant left <= pending.Keys
        invariant forall o :: o in left ==> pending[o].parent == parent
        invariant DistinctIds(out)
        invariant forall e :: e in out ==>
          e.id in pending && e.id !in left && pending[e.id].parent == parent && pending[e.id].raw == e
        invariant forall o :: o in pending && pending[o].parent == parent ==> o in left || pending[o].raw in out
        decreases left
      {
        var o :| o in left;
        assert PendingOk(u, State(), o);
        out := out + [pending[o].raw];
        left := left - {o};
      }
    }

    /** One round of the drain's inner loop. */
    method AttachOrphan(ev: Event, now: int) returns (ok: bool, push: seq<EventId>, emits: seq<ThreadEmit>)
      modifies this`events, this`thread, this`pending, this`quarantined
      ensures ok <==> TryAttach(old(State()), ev, now).Ok?
      ensures ok ==> TryAttach(old(State()), ev, now).value == (State(), push, emits)
    {
      ok, push, emits := true, [], [];
      pending := pending - {ev.id};
      if ev.id in events { return; }
      match ResolveMarkers(ev.tags)
      case TopLevel =>
        ok := InsertEvent(ev);
        push := [ev.id];
      case Reply(parent, hint) =>
        var r := ResolveNow(Channel(ev), parent, hint);
        match r
        case ParentMissing =>
          pending := pending[ev.id := PendingRow(parent, ev, now)];
        case Mismatch(reason) =>
          quarantined := quarantined[ev.id := QuarantineRow(ev, reason, now)];
        case Resolved(p, root, depth) =>
          ok := InsertReplyRows(Attachment(ev, p, root, depth, Mesh, now));
          push := [ev.id];
          emits := [ThreadEmit(root, Channel(ev))];
    }

    /** `resolve_reply` against the tables as they are. */
    method ResolveNow(channel: Option<string>, parent: EventId, rootHint: EventId) returns (r: Resolution)
      ensures r == ResolveReply(State(), channel, parent, rootHint)
    {
      if parent !in events { return ParentMissing; }
      var row := events[parent];
      if row.channel.None? { return Mismatch(ParentHasNoChannel); }
      if row.channel != channel { return Mismatch(ParentInOtherChannel); }
      var root, depth;
      if parent in thread {
        root := thread[parent].root.GetOr(parent);
        depth := thread[parent].depth + 1;
        if depth > DEPTH_CAP { return Mismatch(DepthLimitExceeded); }
      } else {
        var marked, replied := ScanMarkers(row.ev.tags);
        root := if marked.Some? then marked.value else replied.GetOr(parent);
        depth := if root == parent then 1 else 2;
      }
      if rootHint != root { return Mismatch(RootMismatch); }
      return Resolved(parent, root, depth);
    }

    /** One orphan of the batch, as one step of the drain. */
    method TryOrphan(stack: seq<EventId>, batch: seq<Event>, emits: seq<ThreadEmit>, now: int)
      returns (ok: bool, stack': seq<EventId>, emits': seq<ThreadEmit>)
      requires CfgOk(u, Cfg(State(), stack, batch, emits)) && batch != []
      modifies this`events, this`thread, this`pending, this`quarantined
      ensures !ok ==> Stuck(Cfg(old(State()), stack, batch, emits), now)
      ensures ok ==> DrainStep(Cfg(old(State()), stack, batch, emits), Cfg(State(), stack', batch[1..], emits'), now)
      ensures ok ==> CfgOk(u, Cfg(State(), stack', batch[1..], emits')) && |pending| < |old(pending)|
    {
      ghost var before := Cfg(State(), stack, batch, emits);
      var push, es;
      ok, push, es := AttachOrphan(batch[0], now);
      stack', emits' := stack + push, emits + es;
      if ok {
        ghost var after := Cfg(State(), stack', batch[1..], emits');
        TryKeepsCfg(u, before, after, now);
        StepDecreases(u, before, after, now);
      }
    }

    /** All orphans of one parent. */
    method TryOrphans(ghost c0: Cfg, ghost n0: nat, stack0: seq<EventId>, batch0: seq<Event>, emits0: seq<ThreadEmit>,
          now: int)
      returns (ok: bool, stack: seq<EventId>, emits: seq<ThreadEmit>, ghost n: nat, ghost c: Cfg)
      requires CfgOk(u, Cfg(State(), stack0, batch0, emits0))
      requires DrainsTo(c0, Cfg(State(), stack0, batch0, emits0), now, n0)
      modifies this`events, this`thread, this`pending, this`quarantined
      ensures DrainsTo(c0, c, now, n)
      ensures !ok ==> Stuck(c, now)
      ensures ok ==> c == Cfg(State(), stack, [], emits) && CfgOk(u, c)
      ensures ok ==> if batch0 == [] then |pending| == |old(pending)| && stack == stack0 else |pending| < |old(pending)|
    {
      hide DrainStep, CfgOk, Stuck, State, Valid;
      ok, stack, emits, n := true, stack0, emits0, n0;
      var batch := batch0;
      c := Cfg(State(), stack, batch, emits);
      while batch != []
        invariant c == Cfg(State(), stack, batch, emits) && CfgOk(u, c) && DrainsTo(c0, c, now, n)
        invariant if batch == batch0 then |pending| == |old(pending)| && stack == stack0 else |pending| < |old(pending)|
        decreases |batch|
      {
        ok, stack, emits := TryOrphan(stack, batch, emits, now);
        if !ok { return; }
        batch := batch[1..];
        ghost var m := Cfg(State(), stack, batch, emits);
        assert DrainsTo(c0, m, now, n + 1);
        c, n := m, n + 1;
      }
    }

    /**
     `drain_pending`: an explicit stack of newly stored ids, whose parked replies are tried one by
     one. Ends because a tried orphan never returns to the waiting room.
     */
    method DrainPending(id: EventId, now: int, emits0: seq<ThreadEmit>)
      returns (ok: bool, emits: seq<ThreadEmit>, ghost c: Cfg, ghost n: nat)
      requires Valid() && id in events
      modifies this`events, this`thread, this`pending, this`quarantined
      ensures DrainsTo(DrainStart(old(State()), id, emits0), c, now, n)
      ensures ok ==> Finished(c) && c.db == State() && c.emits == emits
      ensures !ok ==> Stuck(c, now)
    {
      hide DrainStep, CfgOk, Stuck, State;
      ok, emits, n := true, emits0, 0;
      var stack := [id];
      c := DrainStart(State(), id, emits0);
      ghost var c0 := c;
      NewIdIsStored(id, emits0);
      while stack != []
        invariant c == Cfg(State(), stack, [], emits) && CfgOk(u, c) && DrainsTo(c0, c, now, n)
        decreases |pending|, |stack|
      {
        var rest, batch := PopParent(c0, n, stack, emits, now);
        ok, stack, emits, n, c := TryOrphans(c0, n + 1, rest, batch, emits, now);
        if !ok { return; }
      }
    }

    /** Pop a stored id and read the replies parked under it. */
    method PopParent(ghost c0: Cfg, ghost n: nat, stack: seq<EventId>, emits: seq<ThreadEmit>, now: int)
      returns (rest: seq<EventId>, batch: seq<Event>)
      requires stack != [] && CfgOk(u, Cfg(State(), stack, [], emits))
               && DrainsTo(c0, Cfg(State(), stack, [], emits), now, n)
      ensures CfgOk(u, Cfg(State(), rest, batch, emits)) && DrainsTo(c0, Cfg(State(), rest, batch, emits), now, n + 1)
      ensures |rest| < |stack|
    {
      rest := stack[..|stack| - 1];
      batch := PendingChildren(stack[|stack| - 1]);
      Popped(c0, Cfg(State(), stack, [], emits), Cfg(State(), rest, batch, emits), now, n);
    }

    lemma NewIdIsStored(id: EventId, emits: seq<ThreadEmit>)
      requires Valid() && id in events
      ensures CfgOk(u, DrainStart(State(), id, emits))
              && DrainStart(State(), id, emits) == Cfg(State(), [id], [], emits)
    {
    }

    /** Reading the orphans of the popped parent is a step of the drain. */
    lemma Popped(c0: Cfg, c: Cfg, d: Cfg, now: int, n: nat)
      requires CfgOk(u, c) && DrainsTo(c0, c, now, n) && c.batch == [] && c.stack != []
      requires d == Cfg(c.db, c.stack[..|c.stack| - 1], d.batch, c.emits)
               && Children(c.db, c.stack[|c.stack| - 1], d.batch)
      ensures CfgOk(u, d) && DrainsTo(c0, d, now, n + 1)
    {
      assert DrainStep(c, d, now);
      PopKeepsCfg(u, c, d, now);
    }

    // ---- the ingest transaction --------------------------------------------

    /** `ingest_event` up to the drain. */
    method IngestHead(ev: Event, door: Door, now: int) returns (drain: bool, out: Outcome, emits: seq<ThreadEmit>)
      modifies this
      ensures drain ==> IngestFront(old(State()), ev, door, now) == ThenDrain(State(), emits)
      ensures !drain ==>
              IngestFront(old(State()), ev, door, now) == Final(if out.Failed? then old(State()) else State(), out)
    {
      drain, out, emits := false, Outcome.Failed, [];
      if ev.id in events {
        out := Accepted(true, false, []);
      } else if IsRelayAuthored(ev.kind) {
        out := Shelve(ev, RelayAuthoredKind, door, now);
      } else if IsDeletionKind(ev.kind) {
        drain := InsertEvent(ev);
        if drain { emits := DeleteTargets(DeletionTargets(ev.tags)); }
      } else if IsThreadScoped(ev.kind) && IsReply(ev) {
        drain, out, emits := IngestReply(ev, door, now);
      } else if ev.kind == KIND_REACTION || IsThreadScoped(ev.kind) {
        drain := InsertEvent(ev);
      } else {
        var r := InsertOnce(ev);
        if r == Some(StaleRejected) { out := Accepted(false, true, []); }
        drain := r.Some? && r != Some(StaleRejected);
      }
    }

    /** The two doors' answers to an event that does not resolve. */
    method Shelve(ev: Event, reason: Reason, door: Door, now: int) returns (out: Outcome)
      modifies this`quarantined
      ensures out == if door == Local then Rejected(reason) else Quarantined(reason)
      ensures State() == if door == Local then old(State()) else Quarantine(old(State()), ev, reason, now)
    {
      match door
      case Local => out := Rejected(reason);
      case Mesh =>
        quarantined := quarantined[ev.id := QuarantineRow(ev, reason, now)];
        out := Quarantined(reason);
    }

    method IngestReply(ev: Event, door: Door, now: int) returns (drain: bool, out: Outcome, emits: seq<ThreadEmit>)
      requires IsReply(ev)
      modifies this
      ensures drain ==> FrontReply(old(State()), ev, door, now) == ThenDrain(State(), emits)
      ensures !drain ==>
              FrontReply(old(State()), ev, door, now) == Final(if out.Failed? then old(State()) else State(), out)
    {
      drain, out, emits := false, Outcome.Failed, [];
      var r := ResolveNow(Channel(ev), ParentOf(ev), RootHintOf(ev));
      match r
      case ParentMissing =>
        if door == Local {
          out := Rejected(ParentNotFound);
        } else {
          pending := pending[ev.id := PendingRow(ParentOf(ev), ev, now)];
          out := Parked;
        }
      case Mismatch(reason) =>
        out := Shelve(ev, reason, door, now);
      case Resolved(parent, root, depth) =>
        drain := InsertReplyRows(Attachment(ev, parent, root, depth, door, now));
        emits := [ThreadEmit(root, Channel(ev))];
    }

    /** A finished drain, committed, is the ingest's end. */
    lemma DrainCommits(before: Db, ev: Event, door: Door, now: int, c: Cfg, n: nat)
      requires Base(u, before) && ev == u(ev.id) && IngestFront(before, ev, door, now).ThenDrain? && Finished(c)
      requires var f := IngestFront(before, ev, door, now); DrainsTo(DrainStart(f.db, ev.id, f.emits), c, now, n)
      ensures Ingests(before, ev, door, now, c.db, Accepted(false, false, c.emits)) && Base(u, c.db)
    {
      assert DrainEnds(c, now, before, c.db, Accepted(false, false, c.emits));
      IngestKeepsBase(u, before, ev, door, now, c.db, Accepted(false, false, c.emits));
    }

    /** A drain that met an error, rolled back, is the ingest's end. */
    lemma DrainRollsBack(before: Db, ev: Event, door: Door, now: int, c: Cfg, n: nat)
      requires Base(u, before) && ev == u(ev.id) && IngestFront(before, ev, door, now).ThenDrain? && Stuck(c, now)
      requires var f := IngestFront(before, ev, door, now); DrainsTo(DrainStart(f.db, ev.id, f.emits), c, now, n)
      ensures Ingests(before, ev, door, now, before, Outcome.Failed)
    {
      assert DrainEnds(c, now, before, before, Outcome.Failed);
    }

    lemma FrontEndsIngest(before: Db, ev: Event, door: Door, now: int)
      requires Base(u, before) && ev == u(ev.id)
      ensures var f := IngestFront(before, ev, door, now);
              && Base(u, f.db)
              && (f.ThenDrain? ==> ev.id in f.db.events)
              && (f.Final? ==>
                  Ingests(before, ev, door, now, f.db, f.outcome) && (f.outcome.Failed? ==> f.db == before))
    {
      FrontKeepsBase(u, before, ev, door, now);
    }

    /** One event, one transaction: committed whole, or rolled back to the tables it found. */
    method Ingest(ev: Event, door: Door, now: int) returns (out: Outcome)
      requires Valid() && ev == u(ev.id)
      modifies this
      ensures Valid()
      ensures Ingests(old(State()), ev, door, now, State(), out)
    {
      hide DrainsTo, Stuck, Finished, IngestFront, Ingests, Base, DrainEnds;
      var e0, t0, p0, q0, s0 := events, thread, pending, quarantined, slots;
      ghost var before := State();
      FrontEndsIngest(before, ev, door, now);
      var drain, emits;
      drain, out, emits := IngestHead(ev, door, now);
      if drain {
        var ok, es;
        ghost var c, n;
        ok, es, c, n := DrainPending(ev.id, now, emits);
        out := if ok then Accepted(false, false, es) else Outcome.Failed;
        if ok {
          DrainCommits(before, ev, door, now, c, n);
        } else {
          DrainRollsBack(before, ev, door, now, c, n);
        }
      }
      if out.Failed? { events, thread, pending, quarantined, slots := e0, t0, p0, q0, s0; }
    }

    // ---- the other operations ----------------------------------------------

    /** The relay's own group state: stored past the client guard, with no drain. */
    method StoreRelayAuthoredEvent(ev: Event) returns (r: Option<StoreOutcome>)
      requires Valid() && ev == u(ev.id) && IsRelayAuthored(ev.kind)
      modifies this
      ensures Valid()
      ensures OpStep(u, old(State()), RelayStore(ev), State(), Stored(r))
    {
      ghost var before := State();
      if ev.id in events {
        r := Some(Duplicate);
      } else {
        var e0, s0 := events, slots;
        r := InsertOnce(ev);
        if r.None? { events, slots := e0, s0; }
      }
      OpKeepsBase(u, before, RelayStore(ev), State(), Stored(r));
    }

    static function Expired(rows: map<EventId, PendingRow>, cutoff: int): set<EventId> {
      set o | o in rows && rows[o].receivedAt < cutoff
    }

    /** The rows before the cutoff and the rows kept add up. */
    static lemma ExpiredCount(db: Db, cutoff: int)
      ensures |Expired(db.pending, cutoff)| == |db.pending| - |ReapOlder(db, cutoff).pending|
    {
      var gone, kept := Expired(db.pending, cutoff), ReapOlder(db, cutoff).pending;
      assert db.pending.Keys == kept.Keys + gone && kept.Keys !! gone;
      assert |db.pending| == |db.pending.Keys| && |kept| == |kept.Keys|;
    }

    /** Drop the orphans parked longer ago than the time to live; report how many there were. */
    method ReapOrphans(ttl: nat, now: int) returns (reaped: nat)
      requires Valid()
      modifies this`pending
      ensures Valid()
      ensures State() == ReapOlder(old(State()), now - (if ttl <= I64_MAX then ttl else I64_MAX))
      ensures reaped == |old(pending)| - |pending|
      ensures ttl <= I64_MAX ==>
              forall o :: o in pending <==> o in old(pending) && now - old(pending)[o].receivedAt <= ttl
      ensures forall o :: o in pending ==> pending[o] == old(pending)[o]
    {
      var cutoff := now - (if ttl <= I64_MAX then ttl else I64_MAX);
      ReapKeepsBase(u, State(), cutoff);
      reaped := |Expired(pending, cutoff)|;
      ExpiredCount(State(), cutoff);
      pending := map o | o in pending && pending[o].receivedAt >= cutoff :: pending[o];
    }
  }
}
