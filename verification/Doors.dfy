/**
 Two doors, one validator. From the same tables the local door rejects exactly what the mesh door
 parks or quarantines, and when both accept, the tables differ in one cell only: the direct parent's
 `last_reply_at`.
 */
module Doors {
  import opened Options
  import opened Ids
  import opened Events
  import opened Tables
  import opened Engine

  lemma ReplyVerdicts(db: Db, ev: Event, nowL: int, nowM: int)
    requires IsReply(ev)
    ensures var l, m := FrontReply(db, ev, Local, nowL), FrontReply(db, ev, Mesh, nowM);
            && (l.ThenDrain? <==> m.ThenDrain?)
            && (l.Final? ==> l.db == db)
            && (l.Final? ==>
                  match l.outcome
                  case Rejected(ParentNotFound) => m.outcome == Parked
                  case Rejected(reason) => m.outcome == Quarantined(reason)
                  case o => m == l && o.Failed?)
            && (m.Final? && (m.outcome.Parked? || m.outcome.Quarantined?) ==>
                  l.outcome.Rejected? && m.db == db.(pending := m.db.pending, quarantine := m.db.quarantine))
  {
    if Resolve(db, ev).Resolved? {
      var r := Resolve(db, ev);
      DoorsDiffer(db, Attachment(ev, r.parent, r.root, r.depth, Local, nowL),
        Attachment(ev, r.parent, r.root, r.depth, Mesh, nowM));
      hide InsertReply, Alike, Resolve;
    }
  }

  /** The verdicts of the two doors on one event, before any drain. */
  lemma FrontVerdicts(db: Db, ev: Event, nowL: int, nowM: int)
    ensures var l, m := IngestFront(db, ev, Local, nowL), IngestFront(db, ev, Mesh, nowM);
            && (l.ThenDrain? <==> m.ThenDrain?)
            && (l.Final? ==>
                  match l.outcome
                  case Rejected(ParentNotFound) => m.outcome == Parked
                  case Rejected(reason) => m.outcome == Quarantined(reason)
                  case o => m.outcome == o && m.db == l.db && l.db == db && (o.Accepted? || o.Failed?))
            && (l.Final? && l.outcome.Rejected? ==> l.db == db)
            && (m.Final? && (m.outcome.Parked? || m.outcome.Quarantined?) ==>
                  l.outcome.Rejected? && m.db == db.(pending := m.db.pending, quarantine := m.db.quarantine))
  {
    if IsReply(ev) {
      ReplyVerdicts(db, ev, nowL, nowM);
      hide FrontReply;
    }
  }

  /** A drain ends in acceptance or in an error, never in a verdict. */
  lemma DrainedVerdict(db: Db, ev: Event, door: Door, now: int, db': Db, out: Outcome)
    requires Ingests(db, ev, door, now, db', out) && IngestFront(db, ev, door, now).ThenDrain?
    ensures out.Accepted? || out.Failed?
  {
  }

  /**
   The local door rejects exactly what the mesh door parks or quarantines, and for the same reason;
   a local rejection writes nothing; parking and quarantining write no event, thread row or slot.
   */
  lemma OneValidator(db: Db, ev: Event, nowL: int, dbL: Db, outL: Outcome, nowM: int, dbM: Db, outM: Outcome)
    requires Ingests(db, ev, Local, nowL, dbL, outL) && Ingests(db, ev, Mesh, nowM, dbM, outM)
    ensures outL.Rejected? <==> outM.Parked? || outM.Quarantined?
    ensures outL == Rejected(ParentNotFound) <==> outM.Parked?
    ensures outM.Quarantined? ==> outL == Rejected(outM.reason)
    ensures !outL.Parked? && !outL.Quarantined? && !outM.Rejected?
    ensures outL.Rejected? ==> dbL == db && dbM.events == db.events && dbM.thread == db.thread && dbM.slots == db.slots
  {
    FrontVerdicts(db, ev, nowL, nowM);
    if IngestFront(db, ev, Local, nowL).ThenDrain? {
      DrainedVerdict(db, ev, Local, nowL, dbL, outL);
      DrainedVerdict(db, ev, Mesh, nowM, dbM, outM);
    }
  }

  // ---- when both accept ----------------------------------------------------

  /** Equal tables, except possibly `last_reply_at` of one row. */
  ghost predicate Alike(p: EventId, a: Db, b: Db) {
    && a.events == b.events && a.pending == b.pending && a.quarantine == b.quarantine && a.slots == b.slots
    && a.thread.Keys == b.thread.Keys
    && forall x :: x in a.thread ==> AlikeRow(x == p, a.thread[x], b.thread[x])
  }

  predicate AlikeRow(free: bool, a: ThreadRow, b: ThreadRow) {
    a == if free then b.(lastReplyAt := a.lastReplyAt) else b
  }

  lemma AlikeBumpParent(p: EventId, a: Db, b: Db, at: Attachment)
    requires Alike(p, a, b)
    ensures Alike(p, BumpParent(a, at.parent, at.door, at.ev.createdAt, at.now),
            BumpParent(b, at.parent, at.door, at.ev.createdAt, at.now))
  {
  }

  lemma AlikeBumpRoot(p: EventId, a: Db, b: Db, root: EventId)
    requires Alike(p, a, b)
    ensures Alike(p, BumpRoot(a, root), BumpRoot(b, root))
  {
  }

  lemma AlikeStub(p: EventId, a: Db, b: Db, id: EventId)
    requires Alike(p, a, b)
    ensures InsertStub(a, id).Ok? <==> InsertStub(b, id).Ok?
    ensures InsertStub(a, id).Ok? ==> Alike(p, InsertStub(a, id).value, InsertStub(b, id).value)
  {
  }

  lemma AlikeOwnRow(p: EventId, a: Db, b: Db, id: EventId, row: ThreadRow)
    requires Alike(p, a, b)
    ensures Alike(p, a.(thread := a.thread[id := row]), b.(thread := b.thread[id := row]))
  {
  }

  lemma AlikeRows(p: EventId, a: Db, b: Db, at: Attachment)
    requires Alike(p, a, b) && at.ev.id !in a.thread
    ensures InsertRows(a, at).Ok? <==> InsertRows(b, at).Ok?
    ensures InsertRows(a, at).Ok? ==> Alike(p, InsertRows(a, at).value, InsertRows(b, at).value)
  {
    if CanInsert(a, at.ev) {
      var row := ReplyRow(at.ev, at.parent, at.root, at.depth);
      var a1, b1 := InsertEventRow(a, at.ev).value, InsertEventRow(b, at.ev).value;
      AlikeOwnRow(p, a1, b1, at.ev.id, row);
      var a2, b2 := a1.(thread := a1.thread[at.ev.id := row]), b1.(thread := b1.thread[at.ev.id := row]);
      hide Alike, InsertStub;
      AlikeStub(p, a2, b2, at.parent);
      if InsertStub(a2, at.parent).Ok? {
        AlikeStub(p, InsertStub(a2, at.parent).value, InsertStub(b2, at.parent).value, at.root);
      }
    }
  }

  /** Attaching the same reply to alike tables gives alike tables. */
  lemma AlikeInsert(p: EventId, a: Db, b: Db, at: Attachment)
    requires Alike(p, a, b)
    ensures InsertReply(a, at).Ok? <==> InsertReply(b, at).Ok?
    ensures InsertReply(a, at).Ok? ==> Alike(p, InsertReply(a, at).value, InsertReply(b, at).value)
  {
    if at.ev.id !in a.thread {
      AlikeRows(p, a, b, at);
      if InsertRows(a, at).Ok? {
        var a1, b1 := InsertRows(a, at).value, InsertRows(b, at).value;
        AlikeBumpParent(p, a1, b1, at);
        AlikeBumpRoot(p, BumpParent(a1, at.parent, at.door, at.ev.createdAt, at.now),
                      BumpParent(b1, at.parent, at.door, at.ev.createdAt, at.now), at.root);
      }
    }
  }

  lemma BumpByDoor(db: Db, a: Attachment, b: Attachment)
    requires b == a.(door := b.door, now := b.now)
    ensures Alike(a.parent, BumpParent(db, a.parent, a.door, a.ev.createdAt, a.now),
            BumpParent(db, b.parent, b.door, b.ev.createdAt, b.now))
  {
  }

  /** The doors themselves differ only in the bump of the parent. */
  lemma DoorsDiffer(db: Db, a: Attachment, b: Attachment)
    requires b == a.(door := b.door, now := b.now)
    ensures InsertReply(db, a).Ok? <==> InsertReply(db, b).Ok?
    ensures InsertReply(db, a).Ok? ==> Alike(a.parent, InsertReply(db, a).value, InsertReply(db, b).value)
  {
    if a.ev.id !in db.thread {
      assert InsertRows(db, a) == InsertRows(db, b);
      if InsertRows(db, a).Ok? {
        var d := InsertRows(db, a).value;
        BumpByDoor(d, a, b);
        AlikeBumpRoot(a.parent, BumpParent(d, a.parent, a.door, a.ev.createdAt, a.now),
                      BumpParent(d, b.parent, b.door, b.ev.createdAt, b.now), a.root);
      }
    }
  }

  /** Moving a parked event between the waiting rooms, or storing it alone, keeps tables alike. */
  lemma AlikeShelving(p: EventId, a: Db, b: Db, ev: Event, parent: EventId, reason: Reason, now: int)
    requires Alike(p, a, b)
    ensures Alike(p, Unpark(a, ev.id), Unpark(b, ev.id))
    ensures Alike(p, Park(a, ev, parent, now), Park(b, ev, parent, now))
    ensures Alike(p, Quarantine(a, ev, reason, now), Quarantine(b, ev, reason, now))
    ensures InsertEventRow(a, ev).Ok? <==> InsertEventRow(b, ev).Ok?
    ensures InsertEventRow(a, ev).Ok? ==> Alike(p, InsertEventRow(a, ev).value, InsertEventRow(b, ev).value)
  {
  }

  lemma AlikeResolve(p: EventId, a: Db, b: Db, channel: Option<string>, parent: EventId, hint: EventId)
    requires Alike(p, a, b)
    ensures ResolveReply(a, channel, parent, hint) == ResolveReply(b, channel, parent, hint)
  {
  }

  lemma AlikeTry(p: EventId, a: Db, b: Db, ev: Event, now: int)
    requires Alike(p, a, b)
    ensures TryAttach(a, ev, now).Ok? <==> TryAttach(b, ev, now).Ok?
    ensures TryAttach(a, ev, now).Ok? ==>
            var (d, s, e), (d', s', e') := TryAttach(a, ev, now).value, TryAttach(b, ev, now).value;
            Alike(p, d, d') && s == s' && e == e'
  {
    AlikeShelving(p, a, b, ev, 0, ParentNotFound, now);
    var a1, b1 := Unpark(a, ev.id), Unpark(b, ev.id);
    AlikeShelving(p, a1, b1, ev, 0, ParentNotFound, now);
    match ResolveMarkers(ev.tags)
    case TopLevel => hide Alike, InsertEventRow;
    case Reply(parent, hint) =>
      var r := ResolveReply(a1, Channel(ev), parent, hint);
      AlikeResolve(p, a1, b1, Channel(ev), parent, hint);
      match r
      case Resolved(q, root, depth) => AlikeInsert(p, a1, b1, Attachment(ev, q, root, depth, Mesh, now));
      case Mismatch(reason) => AlikeShelving(p, a1, b1, ev, parent, reason, now);
      case ParentMissing => AlikeShelving(p, a1, b1, ev, parent, ParentNotFound, now);
      hide Alike, InsertReply, ResolveReply, Quarantine, Park;
  }

  ghost predicate AlikeCfg(p: EventId, c: Cfg, d: Cfg) {
    Alike(p, c.db, d.db) && c.stack == d.stack && c.batch == d.batch && c.emits == d.emits
  }

  lemma AlikeStep(p: EventId, c: Cfg, c': Cfg, now: int, d: Cfg) returns (d': Cfg)
    requires AlikeCfg(p, c, d) && DrainStep(c, c', now)
    ensures AlikeCfg(p, c', d') && DrainStep(d, d', now)
  {
    if c.batch == [] {
      d' := Cfg(d.db, c'.stack, c'.batch, c'.emits);
    } else {
      AlikeTry(p, c.db, d.db, c.batch[0], now);
      d' := Cfg(TryAttach(d.db, d.batch[0], now).value.0, c'.stack, c'.batch, c'.emits);
    }
  }

  /** Whatever one drain can do, a drain of alike tables can do too. */
  lemma {:induction false} AlikeDrain(p: EventId, c0: Cfg, c: Cfg, now: int, n: nat, d0: Cfg) returns (d: Cfg)
    requires AlikeCfg(p, c0, d0) && DrainsTo(c0, c, now, n)
    ensures AlikeCfg(p, c, d) && DrainsTo(d0, d, now, n)
    decreases n
  {
    hide DrainStep, AlikeCfg;
    if n == 0 {
      d := d0;
    } else {
      var m :| DrainsTo(c0, m, now, n - 1) && DrainStep(m, c, now);
      var k := AlikeDrain(p, c0, m, now, n - 1, d0);
      d := AlikeStep(p, m, c, now, k);
    }
  }

  /** The event whose `last_reply_at` the doors may set differently. */
  function DirectParent(ev: Event): EventId {
    if IsReply(ev) then ParentOf(ev) else ev.id
  }

  lemma AlikeSelf(p: EventId, db: Db)
    ensures Alike(p, db, db)
  {
  }

  lemma AlikeReplyFronts(db: Db, ev: Event, door: Door, other: Door, now: int)
    requires IsReply(ev) && FrontReply(db, ev, door, now).ThenDrain?
    ensures var f, g := FrontReply(db, ev, door, now), FrontReply(db, ev, other, now);
            g.ThenDrain? && Alike(ParentOf(ev), f.db, g.db) && f.emits == g.emits
  {
    var r := Resolve(db, ev);
    assert r.parent == ParentOf(ev);
    DoorsDiffer(db, Attachment(ev, r.parent, r.root, r.depth, door, now),
      Attachment(ev, r.parent, r.root, r.depth, other, now));
    hide Alike, InsertReply, Resolve;
  }

  lemma AlikeFronts(db: Db, ev: Event, door: Door, other: Door, now: int)
    requires IngestFront(db, ev, door, now).ThenDrain?
    ensures var f, g := IngestFront(db, ev, door, now), IngestFront(db, ev, other, now);
            g.ThenDrain? && Alike(DirectParent(ev), f.db, g.db) && f.emits == g.emits
  {
    if IsReply(ev) {
      AlikeReplyFronts(db, ev, door, other, now);
      hide Alike, FrontReply;
    } else {
      AlikeSelf(DirectParent(ev), IngestFront(db, ev, door, now).db);
      hide Alike;
    }
  }

  /**
   When one door accepts, so can the other, with the same report and the same tables but for the
   direct parent's `last_reply_at`.
   */
  lemma BothAccept(db: Db, ev: Event, door: Door, other: Door, now: int, db1: Db, out: Outcome) returns (db2: Db)
    requires Ingests(db, ev, door, now, db1, out) && out.Accepted?
    ensures Ingests(db, ev, other, now, db2, out) && Alike(DirectParent(ev), db1, db2)
  {
    match IngestFront(db, ev, door, now)
    case Final(d, o) =>
      db2 := d;
      FrontVerdicts(db, ev, now, now);
    case ThenDrain(d, es) =>
      AlikeFronts(db, ev, door, other, now);
      var g := IngestFront(db, ev, other, now);
      var c: Cfg, n: nat :| DrainsTo(DrainStart(d, ev.id, es), c, now, n) && DrainEnds(c, now, db, db1, out);
      var k := AlikeDrain(DirectParent(ev), DrainStart(d, ev.id, es), c, now, n, DrainStart(g.db, ev.id, es));
      db2 := k.db;
      assert DrainEnds(k, now, db, db2, out);
  }
}
