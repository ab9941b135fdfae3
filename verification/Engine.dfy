/**
 The thread engine (src/history/engine.rs) as a specification on table values: what one ingest
 does to the tables, step by step. `HistoryStore` runs the same steps in place.

 SQLite returns the orphans of one parent in no stated order, so the drain is a relation: a run of
 small steps in which every order of siblings is allowed.
 */
module Engine {
  import opened Options
  import opened Ids
  import opened Events
  import opened Tables

  // ---- reply resolution ----------------------------------------------------

  datatype Resolution =
    | ParentMissing
    | Mismatch(reason: Reason)
    | Resolved(parent: EventId, root: EventId, depth: int)

  /** Root and depth of a reply to `parent`, from its thread row or else from its own markers. */
  function Ancestry(db: Db, parent: EventId): (r: (EventId, int))
    requires parent in db.events
  {
    if parent in db.thread then
      (db.thread[parent].root.GetOr(parent), db.thread[parent].depth + 1)
    else
      var derived := DeriveOwnRoot(db.events[parent].ev.tags, parent);
      (derived, if derived == parent then 1 else 2)
  }

  /** `resolve_reply`, in the order of its checks. */
  function ResolveReply(db: Db, channel: Option<string>, parent: EventId, rootHint: EventId): Resolution {
    if parent !in db.events then ParentMissing
    else if db.events[parent].channel.None? then Mismatch(ParentHasNoChannel)
    else if db.events[parent].channel != channel then Mismatch(ParentInOtherChannel)
    else
      var (root, depth) := Ancestry(db, parent);
      if parent in db.thread && depth > DEPTH_CAP then Mismatch(DepthLimitExceeded)
      else if rootHint != root then Mismatch(RootMismatch)
      else Resolved(parent, root, depth)
  }

  /** The resolution of a reply event against the current tables. */
  function Resolve(db: Db, ev: Event): Resolution
    requires IsReply(ev)
  {
    ResolveReply(db, Channel(ev), ParentOf(ev), RootHintOf(ev))
  }

  function EmitFor(ev: Event, root: EventId): ThreadEmit {
    ThreadEmit(root, Channel(ev))
  }

  /** A reply about to be attached: its resolved ancestry, the door it came by and the clock. */
  datatype Attachment = Attachment(ev: Event, parent: EventId, root: EventId, depth: int, door: Door, now: int)

  /** Lazy depth-0 rows for the parent and, when it is another event, the root. */
  function InsertStubs(db: Db, parent: EventId, root: EventId): Result<Db> {
    match InsertStub(db, parent)
    case Failed => Result.Failed
    case Ok(d) => if root != parent then InsertStub(d, root) else Ok(d)
  }

  /** The rows `insert_reply` creates: the event, its own thread row, lazy stubs. */
  function InsertRows(db: Db, a: Attachment): Result<Db>
    requires a.ev.id !in db.thread
  {
    match InsertEventRow(db, a.ev)
    case Failed => Result.Failed
    case Ok(d) =>
      InsertStubs(d.(thread := d.thread[a.ev.id := ReplyRow(a.ev, a.parent, a.root, a.depth)]), a.parent, a.root)
  }

  function Bump(db: Db, a: Attachment): Db {
    BumpRoot(BumpParent(db, a.parent, a.door, a.ev.createdAt, a.now), a.root)
  }

  /** `insert_reply`; a thread row that is already there is left alone and nothing is counted. */
  function InsertReply(db: Db, a: Attachment): Result<Db> {
    if a.ev.id in db.thread then InsertEventRow(db, a.ev)
    else match InsertRows(db, a)
      case Failed => Result.Failed
      case Ok(d) => Ok(Bump(d, a))
  }

  // ---- replaceable events --------------------------------------------------

  predicate StoredWins(stored: SlotRow, ev: Event) {
    stored.createdAt > ev.createdAt || (stored.createdAt == ev.createdAt && stored.eventId < ev.id)
  }

  /** `insert_deduped`: an event that is not yet stored either takes its slot or is stale. */
  function InsertDeduped(db: Db, ev: Event): Result<(Db, StoreOutcome)> {
    if !InRange(ev) then Result.Failed
    else if !IsReplaceable(ev.kind) then
      match InsertEventRow(db, ev)
      case Failed => Result.Failed
      case Ok(d) => Ok((d, Inserted))
    else
      var slot := SlotOf(ev);
      if slot in db.slots && StoredWins(db.slots[slot], ev) then Ok((db, StaleRejected))
      else
        var cleared := if slot in db.slots then db.(events := db.events - {db.slots[slot].eventId}) else db;
        match InsertEventRow(cleared, ev)
        case Failed => Result.Failed
        case Ok(d) =>
          Ok((d.(slots := d.slots[slot := SlotRow(ev.id, ev.createdAt)]),
              if slot in db.slots then Replaced else Inserted))
  }

  /** `store_relay_authored`: no drain follows. */
  function StoreRelayAuthored(db: Db, ev: Event): Result<(Db, StoreOutcome)> {
    if ev.id in db.events then Ok((db, Duplicate)) else InsertDeduped(db, ev)
  }

  // ---- deletion ------------------------------------------------------------

  /** Values of the e-tags of a deletion, in tag order. */
  function DeletionTargets(tags: seq<Tag>): seq<string> {
    if tags == [] then []
    else if Named(tags[0], "e") && |tags[0]| >= 2 then [tags[0][1]] + DeletionTargets(tags[1..])
    else DeletionTargets(tags[1..])
  }

  /** One of these texts spells the id `t`. */
  ghost predicate Targets(raws: seq<string>, t: EventId) {
    exists k :: 0 <= k < |raws| && ParseId(raws[k]) == Some(t)
  }

  /** This tag is `["e", <the id t>, ..]`. */
  predicate TagNames(tag: Tag, t: EventId) {
    |tag| >= 2 && tag[0] == "e" && ParseId(tag[1]) == Some(t)
  }

  /** A deletion (kind 5 or 9005) names an id in any of its e-tags. */
  ghost predicate Names(ev: Event, t: EventId) {
    (ev.kind == 5 || ev.kind == 9005) && exists k :: 0 <= k < |ev.tags| && TagNames(ev.tags[k], t)
  }

  /** The values collected from a deletion target exactly the ids its tags name. */
  lemma {:induction false} TargetsAreNamed(tags: seq<Tag>, t: EventId)
    ensures Targets(DeletionTargets(tags), t) <==> exists k :: 0 <= k < |tags| && TagNames(tags[k], t)
  {
    if tags != [] {
      var raws, rest := DeletionTargets(tags), DeletionTargets(tags[1..]);
      TargetsAreNamed(tags[1..], t);
      if k :| 0 <= k < |tags| && TagNames(tags[k], t) { assert k > 0 ==> tags[1..][k - 1] == tags[k]; }
      if k :| 0 <= k < |tags| - 1 && TagNames(tags[1..][k], t) { assert TagNames(tags[k + 1], t); }
      if raws != rest {
        assert raws == [tags[0][1]] + rest;
        if k :| 0 <= k < |rest| && ParseId(rest[k]) == Some(t) { assert raws[k + 1] == rest[k]; }
        if k :| 0 <= k < |raws| && ParseId(raws[k]) == Some(t) { assert k > 0 ==> rest[k - 1] == raws[k]; }
      }
      assert TagNames(tags[0], t) ==> Targets(raws, t) by { if TagNames(tags[0], t) { assert raws[0] == tags[0][1]; } }
    }
  }

  /** Soft-delete one stored event; the counters drop only when the flag flips. */
  function DeleteOne(db: Db, target: EventId): (Db, seq<ThreadEmit>) {
    if target !in db.events || db.events[target].deleted then (db, [])
    else
      var flipped := db.(events := db.events[target := db.events[target].(deleted := true)]);
      if target !in db.thread then (flipped, [])
      else
        var tm := db.thread[target];
        var dropped := if tm.parent.Some? then DropParent(flipped, tm.parent.value) else flipped;
        if tm.root.None? then (dropped, [])
        else (DropRoot(dropped, tm.root.value), [ThreadEmit(tm.root.value, tm.channel)])
  }

  /** One e-tag value of a deletion; a value that is not an id is skipped. */
  function DeleteRaw(db: Db, raw: string): (Db, seq<ThreadEmit>) {
    match ParseId(raw)
    case None => (db, [])
    case Some(t) => DeleteOne(db, t)
  }

  function DeleteAll(db: Db, raws: seq<string>): (Db, seq<ThreadEmit>) {
    if raws == [] then (db, []) else
      var n := |raws| - 1;
      var (d, es) := DeleteAll(db, raws[..n]);
      var (d', e) := DeleteRaw(d, raws[n]);
      (d', es + e)
  }

  // ---- the drain -----------------------------------------------------------

  /** Ids still to visit, orphans of the current parent still to try, emits so far. */
  datatype Cfg = Cfg(db: Db, stack: seq<EventId>, batch: seq<Event>, emits: seq<ThreadEmit>)

  ghost predicate DistinctIds(batch: seq<Event>) {
    forall i, j :: 0 <= i < j < |batch| ==> batch[i].id != batch[j].id
  }

  /** `batch` lists the parked replies to `parent` once each, in some order. */
  ghost predicate Children(db: Db, parent: EventId, batch: seq<Event>) {
    && DistinctIds(batch)
    && (forall e :: e in batch ==> e.id in db.pending && db.pending[e.id].parent == parent && db.pending[e.id].raw == e)
    && (forall o :: o in db.pending && db.pending[o].parent == parent ==> db.pending[o].raw in batch)
  }

  /** What the drain does with one parked event, already read from the table. */
  function TryAttach(db: Db, ev: Event, now: int): Result<(Db, seq<EventId>, seq<ThreadEmit>)> {
    var db1 := Unpark(db, ev.id);
    if ev.id in db1.events then Ok((db1, [], []))
    else match ResolveMarkers(ev.tags)
      case TopLevel =>
        (match InsertEventRow(db1, ev)
         case Failed => Result.Failed
         case Ok(db2) => Ok((db2, [ev.id], [])))
      case Reply(parent, hint) =>
        match ResolveReply(db1, Channel(ev), parent, hint)
        case ParentMissing => Ok((Park(db1, ev, parent, now), [], []))
        case Mismatch(reason) => Ok((Quarantine(db1, ev, reason, now), [], []))
        case Resolved(p, root, depth) =>
          match InsertReply(db1, Attachment(ev, p, root, depth, Mesh, now))
          case Failed => Result.Failed
          case Ok(db2) => Ok((db2, [ev.id], [EmitFor(ev, root)]))
  }

  /** One step of `drain_pending`: pop a parent and read its orphans, or try the next orphan. */
  ghost predicate DrainStep(c: Cfg, c': Cfg, now: int) {
    if c.batch == [] then
      && c.stack != []
      && Children(c.db, c.stack[|c.stack| - 1], c'.batch)
      && c' == Cfg(c.db, c.stack[..|c.stack| - 1], c'.batch, c.emits)
    else
      var r := TryAttach(c.db, c.batch[0], now);
      && r.Ok?
      && c' == Cfg(r.value.0, c.stack + r.value.1, c.batch[1..], c.emits + r.value.2)
  }

  ghost predicate DrainsTo(c0: Cfg, c: Cfg, now: int, n: nat)
    decreases n
  {
    if n == 0 then c == c0
    else exists m :: DrainsTo(c0, m, now, n - 1) && DrainStep(m, c, now)
  }

  predicate Finished(c: Cfg) {
    c.stack == [] && c.batch == []
  }

  /** A step on which the code returns an error. */
  predicate Stuck(c: Cfg, now: int) {
    c.batch != [] && TryAttach(c.db, c.batch[0], now).Failed?
  }

  // ---- one ingest ----------------------------------------------------------

  /** What happens before the drain: the ingest is over, or the drain of the new id follows. */
  datatype Front = Final(db: Db, outcome: Outcome) | ThenDrain(db: Db, emits: seq<ThreadEmit>)

  function AfterInsert(db: Db, r: Result<Db>, emits: seq<ThreadEmit>): Front {
    match r
    case Failed => Final(db, Outcome.Failed)
    case Ok(d) => ThenDrain(d, emits)
  }

  function FrontReply(db: Db, ev: Event, door: Door, now: int): Front
    requires IsReply(ev)
  {
    match Resolve(db, ev)
    case ParentMissing =>
      (match door
       case Local => Final(db, Rejected(ParentNotFound))
       case Mesh => Final(Park(db, ev, ParentOf(ev), now), Parked))
    case Mismatch(reason) =>
      (match door
       case Local => Final(db, Rejected(reason))
       case Mesh => Final(Quarantine(db, ev, reason, now), Quarantined(reason)))
    case Resolved(parent, root, depth) =>
      AfterInsert(db, InsertReply(db, Attachment(ev, parent, root, depth, door, now)), [EmitFor(ev, root)])
  }

  function FrontDelete(db: Db, ev: Event): Front {
    match InsertEventRow(db, ev)
    case Failed => Final(db, Outcome.Failed)
    case Ok(d) =>
      var (d', emits) := DeleteAll(d, DeletionTargets(ev.tags));
      ThenDrain(d', emits)
  }

  function FrontOpaque(db: Db, ev: Event): Front {
    match InsertDeduped(db, ev)
    case Failed => Final(db, Outcome.Failed)
    case Ok((d, StaleRejected)) => Final(d, Accepted(false, true, []))
    case Ok((d, _)) => ThenDrain(d, [])
  }

  /** `ingest_event` up to the drain, in the order of its branches. */
  function IngestFront(db: Db, ev: Event, door: Door, now: int): Front {
    if ev.id in db.events then Final(db, Accepted(true, false, []))
    else if IsRelayAuthored(ev.kind) then
      match door
      case Local => Final(db, Rejected(RelayAuthoredKind))
      case Mesh => Final(Quarantine(db, ev, RelayAuthoredKind, now), Quarantined(RelayAuthoredKind))
    else if IsDeletionKind(ev.kind) then FrontDelete(db, ev)
    else if ev.kind == KIND_REACTION then AfterInsert(db, InsertEventRow(db, ev), [])
    else if IsThreadScoped(ev.kind) then
      if IsReply(ev) then FrontReply(db, ev, door, now)
      else AfterInsert(db, InsertEventRow(db, ev), [])
    else FrontOpaque(db, ev)
  }

  function DrainStart(db: Db, id: EventId, emits: seq<ThreadEmit>): Cfg {
    Cfg(db, [id], [], emits)
  }

  /** One whole ingest, committed or rolled back. */
  ghost predicate Ingests(db: Db, ev: Event, door: Door, now: int, db': Db, out: Outcome) {
    match IngestFront(db, ev, door, now)
    case Final(d, o) => db' == d && out == o
    case ThenDrain(d, es) =>
      exists c: Cfg, n: nat ::
        DrainsTo(DrainStart(d, ev.id, es), c, now, n) && DrainEnds(c, now, db, db', out)
  }

  /** The drain reached its end and is committed, or an error rolls the tables back. */
  ghost predicate DrainEnds(c: Cfg, now: int, before: Db, db': Db, out: Outcome) {
    || (Finished(c) && db' == c.db && out == Accepted(false, false, c.emits))
    || (Stuck(c, now) && db' == before && out == Outcome.Failed)
  }

  // ---- runs ----------------------------------------------------------------

  datatype Op =
    | Ingest(ev: Event, door: Door, now: int)
    | RelayStore(ev: Event)
    | Reap(cutoff: int)

  function ReapOlder(db: Db, cutoff: int): Db {
    db.(pending := map o | o in db.pending && db.pending[o].receivedAt >= cutoff :: db.pending[o])
  }

  /** What one operation reports. */
  datatype Report = Ingested(out: Outcome) | Stored(r: Option<StoreOutcome>) | Reaped

  /** One operation. The relay door is only ever called with the relay's own group-state kinds. */
  ghost predicate OpStep(u: Universe, db: Db, op: Op, db': Db, rep: Report) {
    match op
    case Ingest(ev, door, now) => ev == u(ev.id) && rep.Ingested? && Ingests(db, ev, door, now, db', rep.out)
    case RelayStore(ev) =>
      ev == u(ev.id) && IsRelayAuthored(ev.kind) &&
      (match StoreRelayAuthored(db, ev)
       case Failed => db' == db && rep == Stored(None)
       case Ok((d, o)) => db' == d && rep == Stored(Some(o)))
    case Reap(cutoff) => db' == ReapOlder(db, cutoff) && rep == Reaped
  }

  datatype Step = Step(op: Op, report: Report)

  /** `db` is reachable from the empty store by these steps, oldest first. */
  ghost predicate Reaches(u: Universe, run: seq<Step>, db: Db) {
    if run == [] then db == EMPTY_DB else
      var n := |run| - 1;
      exists prev :: Reaches(u, run[..n], prev) && OpStep(u, prev, run[n].op, db, run[n].report)
  }
}
