/**
 The tables of the history store as one value, and the statements the thread engine runs against
 them. A statement that SQLite would refuse makes the whole transaction fail.
 */
module Tables {
  import opened Options
  import opened Ids
  import opened Events

  datatype EventRow = EventRow(ev: Event, channel: Option<string>, deleted: bool)

  datatype ThreadRow = ThreadRow(
    createdAt: int,
    channel: Option<string>,
    parent: Option<EventId>,
    root: Option<EventId>,
    depth: int,
    replyCount: int,
    descendantCount: int,
    lastReplyAt: Option<int>,
    broadcast: bool)

  datatype PendingRow = PendingRow(parent: EventId, raw: Event, receivedAt: int)

  datatype Reason =
    | RelayAuthoredKind
    | ParentNotFound
    | ParentHasNoChannel
    | ParentInOtherChannel
    | DepthLimitExceeded
    | RootMismatch

  datatype QuarantineRow = QuarantineRow(raw: Event, reason: Reason, receivedAt: int)

  datatype SlotRow = SlotRow(eventId: EventId, createdAt: int)

  datatype Db = Db(
    events: map<EventId, EventRow>,
    thread: map<EventId, ThreadRow>,
    pending: map<EventId, PendingRow>,
    quarantine: map<EventId, QuarantineRow>,
    slots: map<Slot, SlotRow>)

  const EMPTY_DB := Db(map[], map[], map[], map[], map[])

  datatype Door = Local | Mesh

  datatype ThreadEmit = ThreadEmit(root: EventId, channel: Option<string>)

  datatype StoreOutcome = Inserted | Duplicate | Replaced | StaleRejected

  /** What one ingest reports; `Failed` is an error, after which nothing was written. */
  datatype Outcome =
    | Accepted(duplicate: bool, stale: bool, emits: seq<ThreadEmit>)
    | Parked
    | Quarantined(reason: Reason)
    | Rejected(reason: Reason)
    | Failed

  // ---- statements ----------------------------------------------------------

  /** The primary key must be new and `created_at` must fit a signed 64-bit column. */
  predicate CanInsert(db: Db, ev: Event) {
    ev.id !in db.events && InRange(ev)
  }

  function InsertEventRow(db: Db, ev: Event): Result<Db> {
    if CanInsert(db, ev) then
      Ok(db.(events := db.events[ev.id := EventRow(ev, Channel(ev), false)]))
    else Result.Failed
  }

  function StubRow(row: EventRow): ThreadRow {
    ThreadRow(row.ev.createdAt, row.channel, None, None, 0, 0, 0, None, false)
  }

  function ReplyRow(ev: Event, parent: EventId, root: EventId, depth: int): ThreadRow {
    ThreadRow(ev.createdAt, Channel(ev), Some(parent), Some(root), depth, 0, 0, None, HasBroadcast(ev.tags))
  }

  /** `INSERT OR IGNORE` of a depth-0 row; the event itself must exist. */
  function InsertStub(db: Db, id: EventId): Result<Db> {
    if id !in db.events then Result.Failed
    else if id in db.thread then Ok(db)
    else Ok(db.(thread := db.thread[id := StubRow(db.events[id])]))
  }

  function Max(a: int, b: int): int {
    if a >= b then a else b
  }

  /** `last_reply_at`: the wall clock on the local door, a running maximum on the mesh door. */
  function LastReply(last: Option<int>, door: Door, createdAt: int, now: int): Option<int> {
    match door
    case Local => Some(now)
    case Mesh => Some(Max(last.GetOr(0), createdAt))
  }

  function BumpParent(db: Db, parent: EventId, door: Door, createdAt: int, now: int): Db {
    if parent !in db.thread then db else
      var row := db.thread[parent];
      db.(thread := db.thread[parent := row.(
        replyCount := row.replyCount + 1,
        lastReplyAt := LastReply(row.lastReplyAt, door, createdAt, now))])
  }

  function BumpRoot(db: Db, root: EventId): Db {
    if root !in db.thread then db else
      var row := db.thread[root];
      db.(thread := db.thread[root := row.(descendantCount := row.descendantCount + 1)])
  }

  function DropParent(db: Db, parent: EventId): Db {
    if parent !in db.thread then db else
      var row := db.thread[parent];
      db.(thread := db.thread[parent := row.(replyCount := Max(row.replyCount - 1, 0))])
  }

  function DropRoot(db: Db, root: EventId): Db {
    if root !in db.thread then db else
      var row := db.thread[root];
      db.(thread := db.thread[root := row.(descendantCount := Max(row.descendantCount - 1, 0))])
  }

  function Park(db: Db, ev: Event, parent: EventId, now: int): Db {
    db.(pending := db.pending[ev.id := PendingRow(parent, ev, now)])
  }

  function Quarantine(db: Db, ev: Event, reason: Reason, now: int): Db {
    db.(quarantine := db.quarantine[ev.id := QuarantineRow(ev, reason, now)])
  }

  function Unpark(db: Db, id: EventId): Db {
    db.(pending := db.pending - {id})
  }
}
