/**
 The read surface (src/history/read.rs): the channel window, the replies of a thread and the thread
 summary, read from one state of the tables, and what a client that follows the cursors sees.
 */
module Reads {
  import opened Options
  import opened Ids
  import opened Events
  import opened Tables
  import opened Engine
  import opened Attach
  import opened Reachable
  import opened Keyset

  const PARTICIPANT_CAP := 10

  function ClampLimit(limit: nat): (r: nat)
    ensures 1 <= r <= 500
    ensures 1 <= limit <= 500 ==> r == limit
    ensures limit < 1 ==> r == 1
    ensures limit > 500 ==> r == 500
  {
    if limit < 1 then 1 else if limit > 500 then 500 else limit
  }

  // ---- which rows are visible ----------------------------------------------

  /** Newest first, lower id first among equals. */
  function WindowKey(ev: Event): Key {
    var newestFirst: int := 0 - (ev.createdAt as int);
    Key(newestFirst, ev.id)
  }

  predicate TopLevel(db: Db, id: EventId) {
    id !in db.thread || db.thread[id].depth == 0 || (db.thread[id].depth == 1 && db.thread[id].broadcast)
  }

  /** A timeline row: live, in the channel, not an auxiliary kind, top-level or broadcast. */
  predicate InWindow(db: Db, channel: string, id: EventId) {
    && Live(db, id)
    && db.events[id].channel == Some(channel)
    && db.events[id].ev.kind !in {KIND_DELETION, KIND_REACTION, KIND_NIP29_DELETE}
    && TopLevel(db, id)
  }

  function Window(db: Db, channel: string): set<Key> {
    set id | id in db.events && InWindow(db, channel, id) :: WindowKey(db.events[id].ev)
  }

  predicate InThread(db: Db, root: EventId, depthLimit: nat, id: EventId) {
    && Live(db, id)
    && HasRoot(db, id, root)
    && 1 <= db.thread[id].depth <= depthLimit
  }

  /** Oldest first, lower id first among equals. */
  function ThreadRows(db: Db, root: EventId, depthLimit: nat): set<Key> {
    set id | id in db.thread && InThread(db, root, depthLimit, id) :: Key(db.thread[id].createdAt, id)
  }

  // ---- thread summary ------------------------------------------------------

  datatype Summary = Summary(
    root: EventId,
    channel: Option<string>,
    replyCount: int,
    descendantCount: int,
    lastReplyAt: Option<int>,
    participants: seq<string>)

  predicate WroteUnder(db: Db, root: EventId, author: string, r: EventId) {
    r in db.thread && HasRoot(db, r, root) && Live(db, r) && db.events[r].ev.pubkey == author
  }

  ghost predicate HasWritten(db: Db, root: EventId, author: string) {
    exists r :: WroteUnder(db, root, author, r)
  }

  /** The newest live reply of `a` is at least as new as every live reply of `b`. */
  ghost predicate AsRecent(db: Db, root: EventId, a: string, b: string) {
    exists q :: WroteUnder(db, root, a, q) &&
      forall r :: WroteUnder(db, root, b, r) ==> db.events[q].ev.createdAt >= db.events[r].ev.createdAt
  }

  /**
   Distinct authors of live replies, most recent first, at most ten: everyone when ten are enough,
   and nobody left out is more recent than somebody listed.
   */
  ghost predicate Participants(db: Db, root: EventId, ps: seq<string>) {
    && |ps| <= PARTICIPANT_CAP
    && MostRecentFirst(db, root, ps)
    && (|ps| < PARTICIPANT_CAP ==> forall a :: HasWritten(db, root, a) ==> a in ps)
  }

  ghost predicate MostRecentFirst(db: Db, root: EventId, ps: seq<string>) {
    && (forall i, j :: 0 <= i < j < |ps| ==> ps[i] != ps[j] && AsRecent(db, root, ps[i], ps[j]))
    && (forall i :: 0 <= i < |ps| ==> HasWritten(db, root, ps[i]))
    && (forall i, a :: 0 <= i < |ps| && a !in ps ==> AsRecent(db, root, ps[i], a))
  }

  ghost predicate IsSummary(db: Db, root: EventId, s: Summary) {
    && root in db.thread
    && s.root == root
    && s.channel == db.thread[root].channel
    && s.replyCount == db.thread[root].replyCount
    && s.descendantCount == db.thread[root].descendantCount
    && s.lastReplyAt == db.thread[root].lastReplyAt
    && Participants(db, root, s.participants)
  }

  lemma {:induction false} NewestExists(db: Db, s: set<EventId>)
    requires s != {} && forall r :: r in s ==> r in db.events
    ensures exists m :: m in s && forall r :: r in s ==> db.events[r].ev.createdAt <= db.events[m].ev.createdAt
    decreases s
  {
    var x :| x in s;
    var rest := s - {x};
    if rest == {} {
      assert s == {x};
    } else {
      NewestExists(db, rest);
      var m :| m in rest && forall r :: r in rest ==> db.events[r].ev.createdAt <= db.events[m].ev.createdAt;
      var best := if db.events[x].ev.createdAt > db.events[m].ev.createdAt then x else m;
      assert forall r :: r in s ==> r == x || r in rest;
      assert best in s && forall r :: r in s ==> db.events[r].ev.createdAt <= db.events[best].ev.createdAt;
    }
  }

  /** Replies of authors not listed yet. */
  function Unlisted(db: Db, root: EventId, ps: seq<string>): set<EventId> {
    set r | r in db.thread && HasRoot(db, r, root) && Live(db, r) && db.events[r].ev.pubkey !in ps
  }

  lemma NewestComesNext(db: Db, root: EventId, ps: seq<string>, m: EventId)
    requires MostRecentFirst(db, root, ps) && m in Unlisted(db, root, ps)
    requires forall r :: r in Unlisted(db, root, ps) ==> db.events[r].ev.createdAt <= db.events[m].ev.createdAt
    ensures MostRecentFirst(db, root, ps + [db.events[m].ev.pubkey])
  {
    var author := db.events[m].ev.pubkey;
    assert WroteUnder(db, root, author, m);
    var qs := ps + [author];
    forall a | a !in ps ensures AsRecent(db, root, author, a) {
      forall q | WroteUnder(db, root, a, q) ensures db.events[m].ev.createdAt >= db.events[q].ev.createdAt {
        assert q in Unlisted(db, root, ps);
      }
    }
    assert HasWritten(db, root, author);
    hide AsRecent, HasWritten, WroteUnder;
    forall i, j | 0 <= i < j < |qs| ensures qs[i] != qs[j] && AsRecent(db, root, qs[i], qs[j]) {
      assert qs[i] == ps[i] && (j < |ps| ==> qs[j] == ps[j]);
    }
    forall i, a | 0 <= i < |qs| && a !in qs ensures AsRecent(db, root, qs[i], a) {
      assert forall j :: 0 <= j < |ps| ==> qs[j] == ps[j];
    }
  }

  /** `GROUP BY pubkey ORDER BY MAX(created_at) DESC LIMIT 10` over the live replies. */
  method ListParticipants(db: Db, root: EventId) returns (ps: seq<string>)
    ensures Participants(db, root, ps)
  {
    ps := [];
    var left := Unlisted(db, root, ps);
    while left != {} && |ps| < PARTICIPANT_CAP
      invariant |ps| <= PARTICIPANT_CAP
      invariant left == Unlisted(db, root, ps)
      invariant MostRecentFirst(db, root, ps)
      decreases left
    {
      NewestExists(db, left);
      var m :| m in left && forall r :: r in left ==> db.events[r].ev.createdAt <= db.events[m].ev.createdAt;
      NewestComesNext(db, root, ps, m);
      var author := db.events[m].ev.pubkey;
      ps := ps + [author];
      left := set r | r in left && db.events[r].ev.pubkey != author;
    }
    if left == {} {
      forall a | HasWritten(db, root, a) ensures a in ps {
        var r :| WroteUnder(db, root, a, r);
        assert r !in Unlisted(db, root, ps);
      }
    }
  }

  /** `thread_summary`: nothing without a thread row, or when the root itself is deleted. */
  method ThreadSummary(db: Db, root: EventId) returns (s: Option<Summary>)
    ensures s.Some? <==> root in db.thread && Live(db, root)
    ensures s.Some? ==> IsSummary(db, root, s.value)
  {
    if root !in db.thread || root !in db.events || db.events[root].deleted {
      return None;
    }
    var row := db.thread[root];
    var ps := ListParticipants(db, root);
    s := Some(Summary(root, row.channel, row.replyCount, row.descendantCount, row.lastReplyAt, ps));
  }

  // ---- one page of the window ----------------------------------------------

  datatype WindowPage = WindowPage(
    rows: seq<Event>,
    auxTargets: seq<EventId>,
    summaries: seq<Summary>,
    hasMore: bool,
    next: Option<Key>)

  predicate HasReplies(db: Db, id: EventId) {
    id in db.thread && Live(db, id) && (db.thread[id].replyCount > 0 || db.thread[id].descendantCount > 0)
  }

  /** The rows that carry a summary, in row order. */
  function Overlaid(db: Db, ids: seq<EventId>): seq<EventId> {
    if ids == [] then []
    else Overlaid(db, ids[..|ids| - 1]) + (if HasReplies(db, ids[|ids| - 1]) then [ids[|ids| - 1]] else [])
  }

  function IdsOf(ks: seq<Key>): seq<EventId> {
    seq(|ks|, i requires 0 <= i < |ks| => ks[i].id)
  }

  /** The rows of a page are the events its keys name, in key order. */
  ghost predicate RowsMatch(db: Db, rows: seq<Event>, ks: seq<Key>) {
    |rows| == |ks| && forall i :: 0 <= i < |ks| ==> ks[i].id in db.events && rows[i] == db.events[ks[i].id].ev
  }

  /** The summaries belong to the rows with replies, one each, in row order. */
  ghost predicate Summarised(db: Db, ids: seq<EventId>, summaries: seq<Summary>) {
    && |summaries| == |Overlaid(db, ids)|
    && forall i :: 0 <= i < |summaries| ==> IsSummary(db, Overlaid(db, ids)[i], summaries[i])
  }

  lemma PageRowIsStored(db: Db, channel: string, cursor: Option<Key>, lim: nat, i: nat)
    requires forall id :: id in db.events ==> db.events[id].ev.id == id
    requires lim > 0 && i < |PageOf(Window(db, channel), cursor, lim).rows|
    ensures PageOf(Window(db, channel), cursor, lim).rows[i].id in db.events
  {
    var rows := PageOf(Window(db, channel), cursor, lim).rows;
    PageHolds(Window(db, channel), cursor, lim, rows[i]);
  }

  /** A live event of this channel whose kind is none of 5, 7 and 9005. */
  predicate VisibleIn(db: Db, channel: string, id: EventId) {
    && id in db.events && db.events[id].ev.id == id
    && db.events[id] == EventRow(db.events[id].ev, Some(channel), false)
    && db.events[id].ev.kind != 5 && db.events[id].ev.kind != 7 && db.events[id].ev.kind != 9005
  }

  lemma PageRowIsVisible(db: Db, channel: string, cursor: Option<Key>, lim: nat, i: nat)
    requires forall id :: id in db.events ==> db.events[id].ev.id == id
    requires lim > 0 && i < |PageOf(Window(db, channel), cursor, lim).rows|
    ensures VisibleIn(db, channel, PageOf(Window(db, channel), cursor, lim).rows[i].id)
  {
    var rows := PageOf(Window(db, channel), cursor, lim).rows;
    PageHolds(Window(db, channel), cursor, lim, rows[i]);
  }

  /** Only a row with replies carries a summary. */
  method AddSummary(db: Db, id: EventId, ghost ids: seq<EventId>, summaries: seq<Summary>) returns (more: seq<Summary>)
    requires Summarised(db, ids, summaries)
    ensures Summarised(db, ids + [id], more)
  {
    assert (ids + [id])[..|ids|] == ids;
    var summary := ThreadSummary(db, id);
    if summary.Some? && (summary.value.replyCount > 0 || summary.value.descendantCount > 0) {
      return summaries + [summary.value];
    }
    return summaries;
  }

  /** The loop over the fetched rows: rows, aux targets and summaries side by side. */
  method FillWindow(db: Db, ks: seq<Key>) returns (rows: seq<Event>, aux: seq<EventId>, summaries: seq<Summary>)
    requires forall i :: 0 <= i < |ks| ==> ks[i].id in db.events
    ensures RowsMatch(db, rows, ks) && aux == IdsOf(ks) && Summarised(db, IdsOf(ks), summaries)
  {
    rows, aux, summaries := [], [], [];
    hide Summarised, IsSummary;
    assert Summarised(db, [], []) by { EmptySummarised(db); }
    for n := 0 to |ks|
      invariant RowsMatch(db, rows, ks[..n])
      invariant aux == IdsOf(ks[..n])
      invariant Summarised(db, aux, summaries)
    {
      var id := ks[n].id;
      summaries := AddSummary(db, id, aux, summaries);
      aux := aux + [id];
      rows := rows + [db.events[id].ev];
    }
    assert ks[..|ks|] == ks;
  }

  lemma EmptySummarised(db: Db)
    ensures Summarised(db, [], [])
  {
  }

  /** `channel_window`; the events of the store are stored under their own id. */
  method ChannelWindow(db: Db, channel: string, limit: nat, cursor: Option<Key>) returns (page: WindowPage)
    requires forall id :: id in db.events ==> db.events[id].ev.id == id
    ensures var p := PageOf(Window(db, channel), cursor, ClampLimit(limit));
            && page.hasMore == p.hasMore && page.next == p.next
            && RowsMatch(db, page.rows, p.rows)
            && page.auxTargets == IdsOf(p.rows)
            && Summarised(db, IdsOf(p.rows), page.summaries)
    ensures forall ev :: ev in page.rows ==>
              && ev.id in db.events && db.events[ev.id] == EventRow(ev, Some(channel), false)
              && ev.kind != 5 && ev.kind != 7 && ev.kind != 9005
  {
    var lim := ClampLimit(limit);
    var visible := Window(db, channel);
    var fetched := SelectOrdered(After(visible, cursor), lim + 1);
    var p := ProbePage(fetched, visible, cursor, lim);
    forall i | 0 <= i < |p.rows| ensures p.rows[i].id in db.events { PageRowIsStored(db, channel, cursor, lim, i); }
    forall i | 0 <= i < |p.rows| ensures VisibleIn(db, channel, p.rows[i].id) {
      PageRowIsVisible(db, channel, cursor, lim, i);
    }
    hide PageOf, After, Window, Summarised, IdsOf;
    var rows, aux, summaries := FillWindow(db, p.rows);
    page := WindowPage(rows, aux, summaries, p.hasMore, p.next);
  }

  // ---- one page of a thread ------------------------------------------------

  datatype ThreadPage = ThreadPage(rows: seq<Event>, hasMore: bool, next: Option<Key>)

  /** `thread_replies`; without a depth limit the depth cap is used. */
  lemma ThreadRowIsStored(db: Db, root: EventId, depthLimit: nat, k: Key)
    requires k in ThreadRows(db, root, depthLimit)
    ensures k.id in db.events
  {
  }

  method ThreadReplies(db: Db, root: EventId, depthLimit: Option<nat>, limit: nat, cursor: Option<Key>)
    returns (page: ThreadPage)
    ensures var p := PageOf(ThreadRows(db, root, depthLimit.GetOr(DEPTH_CAP)), cursor, ClampLimit(limit));
            && page.hasMore == p.hasMore && page.next == p.next
            && RowsMatch(db, page.rows, p.rows)
  {
    hide ThreadRows, PageOf, InOrder, Prefix;
    var lim := ClampLimit(limit);
    var replies := ThreadRows(db, root, depthLimit.GetOr(DEPTH_CAP));
    var fetched := SelectOrdered(After(replies, cursor), lim + 1);
    var p := ProbePage(fetched, replies, cursor, lim);
    var rows := [];
    for n := 0 to |p.rows|
      invariant RowsMatch(db, rows, p.rows[..n])
    {
      PageHolds(replies, cursor, lim, p.rows[n]);
      ThreadRowIsStored(db, root, depthLimit.GetOr(DEPTH_CAP), p.rows[n]);
      rows := rows + [db.events[p.rows[n].id].ev];
    }
    assert p.rows[..|p.rows|] == p.rows;
    page := ThreadPage(rows, p.hasMore, p.next);
  }

  // ---- walking the window --------------------------------------------------

  /**
   Following the cursors of the window over a store that does not change: the rows are exactly the
   visible ones, each once, newest first with the lower id first among equals, and the walk reads
   one page for every started `limit` of rows (one page when there are none).
   */
  lemma WindowWalk(db: Db, channel: string, limit: nat)
    requires forall id :: id in db.events ==> db.events[id].ev.id == id
    ensures var lim := ClampLimit(limit);
            var pages := Walk(Window(db, channel), None, lim);
            var ids := IdsOf(Flatten(pages));
            && (forall id :: id in ids <==> InWindow(db, channel, id))
            && (forall i, j :: 0 <= i < j < |ids| ==> ids[i] != ids[j])
            && (forall i, j :: 0 <= i < j < |ids| ==> Precedes(db, ids[i], ids[j]))
            && |ids| <= |pages| * lim && |pages| >= 1 && (|pages| > 1 ==> (|pages| - 1) * lim < |ids|)
  {
    var lim := ClampLimit(limit);
    var s := Window(db, channel);
    WalkReturnsAll(s, None, lim);
    InOrderLists(s);
    PageCountIsCeiling(|s|, lim);
    var ks := Flatten(Walk(s, None, lim));
    var ids := IdsOf(ks);
    forall id ensures id in ids <==> InWindow(db, channel, id) {
      if InWindow(db, channel, id) {
        var k := WindowKey(db.events[id].ev);
        assert k in s;
        var i :| 0 <= i < |ks| && ks[i] == k;
        assert ids[i] == id;
      }
      if id in ids {
        var i :| 0 <= i < |ids| && ids[i] == id;
        assert ks[i] in s;
      }
    }
    forall i, j | 0 <= i < j < |ids| ensures Precedes(db, ids[i], ids[j]) && ids[i] != ids[j] {
      assert Less(ks[i], ks[j]) && ks[i] in s && ks[j] in s;
    }
  }

  // ---- what a client sees --------------------------------------------------

  /** The ids collected by a client that reads the window of a channel and follows the cursors to the end. */
  ghost function Timeline(db: Db, channel: string, limit: nat): seq<EventId> {
    IdsOf(Flatten(Walk(Window(db, channel), None, ClampLimit(limit))))
  }

  /**
   Belongs on the timeline of a channel: a stored event of the channel that is not deleted and no
   deletion or reaction; if it is a reply, one level below its root and tagged as a broadcast.
   */
  ghost predicate Shown(u: Universe, db: Db, channel: string, id: EventId) {
    && id in db.events && !db.events[id].deleted && Channel(u(id)) == Some(channel)
    && u(id).kind != 5 && u(id).kind != 7 && u(id).kind != 9005
    && (IsReply(u(id)) ==>
          && id in db.thread && db.thread[id].depth == 1
          && exists i :: 0 <= i < |u(id).tags| && |u(id).tags[i]| >= 2
               && u(id).tags[i][0] == "broadcast" && u(id).tags[i][1] == "1")
  }

  lemma WindowIsShown(u: Universe, run: seq<Step>, db: Db, channel: string, id: EventId)
    requires Authentic(u) && Reaches(u, run, db)
    ensures InWindow(db, channel, id) <==> Shown(u, db, channel, id)
  {
    ReachableBase(u, run, db);
    assert EventOk(u, db, id) && RowOk(u, db, id);
    hide Reaches, Base, IsReply;
  }

  /** A walk of the window of a channel shows the newer event first, and of two as old the one with the lower id. */
  lemma TimelineIsNewestFirst(u: Universe, run: seq<Step>, db: Db, channel: string, limit: nat, i: nat, j: nat)
    requires Authentic(u) && Reaches(u, run, db) && i < j < |Timeline(db, channel, limit)|
    ensures var a, b := Timeline(db, channel, limit)[i], Timeline(db, channel, limit)[j];
            u(a).createdAt > u(b).createdAt || (u(a).createdAt == u(b).createdAt && a < b)
  {
    StoredUnderOwnId(u, run, db);
    hide InWindow, Walk, Flatten, IdsOf, Window, Reaches;
    WindowWalk(db, channel, limit);
    assert Precedes(db, Timeline(db, channel, limit)[i], Timeline(db, channel, limit)[j]);
  }

  /** A walk of the window of a channel shows exactly what belongs on its timeline. */
  lemma TimelineShows(u: Universe, run: seq<Step>, db: Db, channel: string, limit: nat, id: EventId)
    requires Authentic(u) && Reaches(u, run, db)
    ensures id in Timeline(db, channel, limit) <==> Shown(u, db, channel, id)
  {
    StoredUnderOwnId(u, run, db);
    WindowIsShown(u, run, db, channel, id);
    hide Shown, InWindow, Walk, Flatten, IdsOf, Window;
    WindowWalk(db, channel, limit);
  }

  lemma StoredUnderOwnId(u: Universe, run: seq<Step>, db: Db)
    requires Authentic(u) && Reaches(u, run, db)
    ensures forall id :: id in db.events ==> db.events[id].ev.id == id && db.events[id].ev == u(id)
  {
    ReachableBase(u, run, db);
    forall id | id in db.events ensures db.events[id].ev.id == id && db.events[id].ev == u(id) {
      assert EventOk(u, db, id);
    }
  }

  /** No event is on the timelines of two channels. */
  lemma TimelinesAreDisjoint(u: Universe, run: seq<Step>, db: Db, a: string, b: string, limit: nat, id: EventId)
    requires Authentic(u) && Reaches(u, run, db) && a != b
    ensures !(id in Timeline(db, a, limit) && id in Timeline(db, b, limit))
  {
    hide Timeline, Reaches;
    TimelineShows(u, run, db, a, limit, id);
    TimelineShows(u, run, db, b, limit, id);
  }

  /** The documented order of the timeline. */
  predicate Precedes(db: Db, a: EventId, b: EventId) {
    && a in db.events && b in db.events
    && (db.events[a].ev.createdAt > db.events[b].ev.createdAt ||
        (db.events[a].ev.createdAt == db.events[b].ev.createdAt && a < b))
  }

  function WindowOfKinds(db: Db, channel: string, kinds: set<nat>): set<Key> {
    set id | id in db.events && InWindow(db, channel, id)
      && db.events[id].ev.kind in kinds :: WindowKey(db.events[id].ev)
  }

  /** The adapter's kind filter, applied page by page, loses no matching row and keeps the order. */
  lemma KindFilterLosesNothing(db: Db, channel: string, limit: nat, kinds: set<nat>)
    requires forall id :: id in db.events ==> db.events[id].ev.id == id
    ensures var wanted := WindowOfKinds(db, channel, kinds);
            Flatten(KeepEach(Walk(Window(db, channel), None, ClampLimit(limit)), wanted)) == InOrder(wanted)
    ensures forall k :: k in Window(db, channel) ==>
              (k in WindowOfKinds(db, channel, kinds) <==> db.events[k.id].ev.kind in kinds)
  {
    var s := Window(db, channel);
    var wanted := WindowOfKinds(db, channel, kinds);
    FilteredWalk(s, ClampLimit(limit), wanted);
    assert s * wanted == wanted;
  }

  /**
   Following the cursors while the store changes between pages. What a page returns belonged on the
   timeline when it was read, no id is returned twice, and an event that belongs on the timeline at
   every page of a finished walk is returned.
   */
  lemma WindowWalkOverChanges(u: Universe, dbs: seq<Db>, channel: string, pages: seq<Page>, limit: nat, id: EventId)
    requires Authentic(u)
    requires forall n :: 0 <= n < |dbs| ==> exists run :: Reaches(u, run, dbs[n])
    requires WalkOver(seq(|dbs|, n requires 0 <= n < |dbs| => Window(dbs[n], channel)), pages, ClampLimit(limit))
    ensures forall i :: 0 <= i < |pages| && id in IdsOf(pages[i].rows) ==> Shown(u, dbs[i], channel, id)
    ensures forall i, j :: 0 <= i < j < |pages| ==> !(id in IdsOf(pages[i].rows) && id in IdsOf(pages[j].rows))
    ensures |pages| > 0 && !pages[|pages| - 1].hasMore
            && (forall n :: 0 <= n < |dbs| ==> Shown(u, dbs[n], channel, id)) ==>
              exists i :: 0 <= i < |pages| && id in IdsOf(pages[i].rows)
  {
    var lim := ClampLimit(limit);
    var stores := seq(|dbs|, n requires 0 <= n < |dbs| => Window(dbs[n], channel));
    var k := WindowKey(u(id));
    hide Shown, Reaches, Window, PageOf;
    forall i | 0 <= i < |pages|
      ensures id in IdsOf(pages[i].rows) <==> k in pages[i].rows
      ensures id in IdsOf(pages[i].rows) ==> Shown(u, dbs[i], channel, id)
    {
      var run :| Reaches(u, run, dbs[i]);
      OnePageKeys(u, run, dbs[i], channel, CursorOf(pages, i), lim, id);
      assert PageAt(stores, pages, lim, i);
    }
    forall i, j | 0 <= i < j < |pages| ensures !(id in IdsOf(pages[i].rows) && id in IdsOf(pages[j].rows)) {
      NoRowRepeats(stores, pages, lim, i, j, k);
    }
    if |pages| > 0 && !pages[|pages| - 1].hasMore && (forall n :: 0 <= n < |dbs| ==> Shown(u, dbs[n], channel, id)) {
      forall n | 0 <= n < |stores| ensures k in stores[n] {
        var run :| Reaches(u, run, dbs[n]);
        ShownHasKey(u, run, dbs[n], channel, id);
      }
      LastingRowIsReturned(stores, pages, lim, k);
    }
  }

  lemma ShownHasKey(u: Universe, run: seq<Step>, db: Db, channel: string, id: EventId)
    requires Authentic(u) && Reaches(u, run, db) && Shown(u, db, channel, id)
    ensures WindowKey(u(id)) in Window(db, channel)
  {
    WindowIsShown(u, run, db, channel, id);
    StoredUnderOwnId(u, run, db);
    hide Reaches, InWindow;
  }

  lemma OnePageKeys(u: Universe, run: seq<Step>, db: Db, channel: string, cursor: Option<Key>, lim: nat, id: EventId)
    requires Authentic(u) && Reaches(u, run, db) && lim > 0
    ensures var rows := PageOf(Window(db, channel), cursor, lim).rows;
            && (id in IdsOf(rows) <==> WindowKey(u(id)) in rows)
            && (id in IdsOf(rows) ==> Shown(u, db, channel, id))
  {
    WindowIsShown(u, run, db, channel, id);
    hide Shown, Reaches;
    var rows := PageOf(Window(db, channel), cursor, lim).rows;
    ReachableBase(u, run, db);
    if id in IdsOf(rows) {
      var i :| 0 <= i < |rows| && IdsOf(rows)[i] == id;
      PageHolds(Window(db, channel), cursor, lim, rows[i]);
      var x :| x in db.events && InWindow(db, channel, x) && rows[i] == WindowKey(db.events[x].ev);
      assert EventOk(u, db, x);
    }
    if WindowKey(u(id)) in rows {
      var i :| 0 <= i < |rows| && rows[i] == WindowKey(u(id));
      assert IdsOf(rows)[i] == id;
    }
  }

  // ---- walking a thread ----------------------------------------------------

  lemma {:induction false} KeysCount(db: Db, ids: set<EventId>, keys: set<Key>)
    requires ids <= db.thread.Keys
    requires keys == set id | id in ids :: Key(db.thread[id].createdAt, id)
    ensures |keys| == |ids|
    decreases ids
  {
    if ids == {} {
      assert keys == {};
    } else {
      var x :| x in ids;
      var rest := set id | id in ids - {x} :: Key(db.thread[id].createdAt, id);
      KeysCount(db, ids - {x}, rest);
      assert keys == rest + {Key(db.thread[x].createdAt, x)};
      assert ids == (ids - {x}) + {x};
    }
  }

  /** A live reply of the thread: stored, not deleted, and rooted where it claims to be. */
  predicate Answers(u: Universe, db: Db, root: EventId, id: EventId) {
    id in db.events && !db.events[id].deleted && IsReply(u(id)) && RootHintOf(u(id)) == root
  }

  lemma LiveIsAnswer(u: Universe, run: seq<Step>, db: Db, root: EventId, id: EventId)
    requires Authentic(u) && Reaches(u, run, db)
    ensures id in LiveUnder(db, root) <==> Answers(u, db, root, id)
    ensures id in LiveUnder(db, root) <==> InThread(db, root, DEPTH_CAP, id)
    ensures id in LiveUnder(db, root) ==> db.thread[id].createdAt == u(id).createdAt && db.events[id].ev == u(id)
    ensures id in LiveChildren(db, root) <==>
            id in db.events && !db.events[id].deleted && IsReply(u(id)) && ParentOf(u(id)) == root
  {
    ReachableBase(u, run, db);
    assert RowOk(u, db, id) && EventOk(u, db, id);
    hide Reaches, Base, IsReply;
  }

  /** The default depth limit hides no live reply, and their number is the counter of the root. */
  lemma ThreadRowsAreLive(u: Universe, run: seq<Step>, db: Db, root: EventId)
    requires Authentic(u) && Reaches(u, run, db)
    ensures forall id :: InThread(db, root, DEPTH_CAP, id) <==> Answers(u, db, root, id)
    ensures |ThreadRows(db, root, DEPTH_CAP)| == |LiveUnder(db, root)|
    ensures root in db.thread ==> |LiveUnder(db, root)| == db.thread[root].descendantCount
  {
    forall id
      ensures InThread(db, root, DEPTH_CAP, id) <==> Answers(u, db, root, id)
      ensures id in LiveUnder(db, root) <==> InThread(db, root, DEPTH_CAP, id)
    {
      LiveIsAnswer(u, run, db, root, id);
    }
    ReachableBase(u, run, db);
    KeysCount(db, LiveUnder(db, root), ThreadRows(db, root, DEPTH_CAP));
    assert CountOk(db, root);
  }

  /** The ids collected by a client that reads a thread and follows the cursors to the end. */
  ghost function ThreadWalk(db: Db, root: EventId, depthLimit: Option<nat>, limit: nat): seq<EventId> {
    IdsOf(Flatten(Walk(ThreadRows(db, root, depthLimit.GetOr(DEPTH_CAP)), None, ClampLimit(limit))))
  }

  /**
   Walking a thread by cursor, in any reachable state: the live replies of the root within the depth
   limit, if one is given, each once, oldest first.
   */
  lemma ThreadWalkShows(u: Universe, run: seq<Step>, db: Db, root: EventId, depthLimit: Option<nat>, limit: nat)
    requires Authentic(u) && Reaches(u, run, db)
    ensures var ids := ThreadWalk(db, root, depthLimit, limit);
            && (forall id :: id in ids <==>
                Answers(u, db, root, id) && id in db.thread
                && (depthLimit.Some? ==> db.thread[id].depth <= depthLimit.value))
            && (forall i, j :: 0 <= i < j < |ids| ==> Older(db, ids[i], ids[j]))
            && |ids| == |ThreadRows(db, root, depthLimit.GetOr(DEPTH_CAP))|
  {
    var depth := depthLimit.GetOr(DEPTH_CAP);
    var s := ThreadRows(db, root, depth);
    var ks := Flatten(Walk(s, None, ClampLimit(limit)));
    WalkReturnsAll(s, None, ClampLimit(limit));
    InOrderLists(s);
    var ids := IdsOf(ks);
    hide Reaches, Walk, Flatten, InOrder, PageOf, Answers, LiveUnder, LiveChildren, ThreadRows, InThread, Authentic;
    forall id ensures id in ids <==>
        Answers(u, db, root, id) && id in db.thread
        && (depthLimit.Some? ==> db.thread[id].depth <= depthLimit.value)
    {
      ThreadRowsHold(u, run, db, root, depth, id);
      if id in db.thread && Key(db.thread[id].createdAt, id) in s {
        var i :| 0 <= i < |ks| && ks[i] == Key(db.thread[id].createdAt, id);
        assert ids[i] == id;
      }
      if id in ids {
        var i :| 0 <= i < |ids| && ids[i] == id;
        assert ks[i] in s;
        KeysAreRows(db, root, depth, ks[i]);
      }
    }
    forall i, j | 0 <= i < j < |ids| ensures Older(db, ids[i], ids[j]) {
      assert Less(ks[i], ks[j]) && ks[i] in s && ks[j] in s;
      KeysAreRows(db, root, depth, ks[i]);
      KeysAreRows(db, root, depth, ks[j]);
      ThreadRowsHold(u, run, db, root, depth, ids[i]);
      ThreadRowsHold(u, run, db, root, depth, ids[j]);
    }
  }

  lemma KeysAreRows(db: Db, root: EventId, depth: nat, k: Key)
    requires k in ThreadRows(db, root, depth)
    ensures k.id in db.thread && k == Key(db.thread[k.id].createdAt, k.id)
  {
  }

  lemma ThreadRowsHold(u: Universe, run: seq<Step>, db: Db, root: EventId, depth: nat, id: EventId)
    requires Authentic(u) && Reaches(u, run, db)
    ensures id in db.thread && Key(db.thread[id].createdAt, id) in ThreadRows(db, root, depth) <==>
            Answers(u, db, root, id) && id in db.thread && db.thread[id].depth <= depth
    ensures Answers(u, db, root, id) ==>
            && id in db.thread && db.thread[id].depth <= DEPTH_CAP
            && id in db.events && db.thread[id].createdAt == db.events[id].ev.createdAt
  {
    LiveIsAnswer(u, run, db, root, id);
    hide Reaches;
  }

  /** With the default depth limit a walk returns as many rows as the counter kept in the root's row says. */
  lemma ThreadWalkMatchesCounter(u: Universe, run: seq<Step>, db: Db, root: EventId, limit: nat)
    requires Authentic(u) && Reaches(u, run, db)
    ensures var ids := ThreadWalk(db, root, None, limit);
            && (forall id :: id in ids <==> Answers(u, db, root, id))
            && (forall i, j :: 0 <= i < j < |ids| ==>
                u(ids[i]).createdAt < u(ids[j]).createdAt
                || (u(ids[i]).createdAt == u(ids[j]).createdAt && ids[i] < ids[j]))
            && (root in db.thread ==> |ids| == db.thread[root].descendantCount)
  {
    StoredUnderOwnId(u, run, db);
    hide Reaches, Walk, Flatten, InOrder, PageOf, Answers, LiveUnder, ThreadWalk, ThreadRows;
    ThreadWalkShows(u, run, db, root, None, limit);
    ThreadRowsAreLive(u, run, db, root);
    forall id | Answers(u, db, root, id) ensures id in db.thread { ThreadRowsHold(u, run, db, root, DEPTH_CAP, id); }
  }

  /** The columns of a thread summary in terms of events: the root's channel and its live replies. */
  lemma SummaryCounts(u: Universe, run: seq<Step>, db: Db, root: EventId, s: Summary)
    requires Authentic(u) && Reaches(u, run, db) && IsSummary(db, root, s)
    ensures s.root == root && s.channel == Channel(u(root))
    ensures s.replyCount ==
            |set r | r in db.events && !db.events[r].deleted && IsReply(u(r)) && ParentOf(u(r)) == root|
    ensures s.descendantCount ==
            |set r | r in db.events && !db.events[r].deleted && IsReply(u(r)) && RootHintOf(u(r)) == root|
  {
    hide Reaches, Participants, IsReply, LiveChildren, LiveUnder;
    CountersOf(u, run, db, root);
    forall id
      ensures id in LiveUnder(db, root) <==> Answers(u, db, root, id)
      ensures id in LiveChildren(db, root) <==>
              id in db.events && !db.events[id].deleted && IsReply(u(id)) && ParentOf(u(id)) == root
    {
      LiveIsAnswer(u, run, db, root, id);
    }
    assert LiveUnder(db, root) ==
      set r | r in db.events && !db.events[r].deleted && IsReply(u(r)) && RootHintOf(u(r)) == root;
    assert LiveChildren(db, root) ==
      set r | r in db.events && !db.events[r].deleted && IsReply(u(r)) && ParentOf(u(r)) == root;
  }

  lemma CountersOf(u: Universe, run: seq<Step>, db: Db, root: EventId)
    requires Authentic(u) && Reaches(u, run, db) && root in db.thread
    ensures db.thread[root].channel == Channel(u(root))
    ensures db.thread[root].replyCount == |LiveChildren(db, root)|
    ensures db.thread[root].descendantCount == |LiveUnder(db, root)|
  {
    ReachableBase(u, run, db);
    assert RowOk(u, db, root) && CountOk(db, root);
  }

  /** A live reply of the thread by this author. */
  ghost predicate Wrote(u: Universe, db: Db, root: EventId, author: string, r: EventId) {
    Answers(u, db, root, r) && u(r).pubkey == author
  }

  lemma WroteIsAnswer(u: Universe, run: seq<Step>, db: Db, root: EventId, author: string, r: EventId)
    requires Authentic(u) && Reaches(u, run, db)
    ensures WroteUnder(db, root, author, r) <==> Wrote(u, db, root, author, r)
    ensures Wrote(u, db, root, author, r) ==> r in db.events && db.events[r].ev == u(r)
  {
    LiveIsAnswer(u, run, db, root, r);
    hide Reaches;
  }

  /**
   The participants of a summary: at most ten distinct authors of live replies, all of them when
   there are fewer than ten, and each at least as recently active as everybody not listed before.
   */
  lemma SummaryAuthors(u: Universe, run: seq<Step>, db: Db, root: EventId, s: Summary)
    requires Authentic(u) && Reaches(u, run, db) && IsSummary(db, root, s)
    ensures var ps := s.participants;
            && |ps| <= 10
            && (forall i, j :: 0 <= i < j < |ps| ==> ps[i] != ps[j])
            && (forall a :: a in ps ==> exists r :: Wrote(u, db, root, a, r))
            && (|ps| < 10 ==> forall a, r :: Wrote(u, db, root, a, r) ==> a in ps)
            && (forall i, a, r :: 0 <= i < |ps| && a !in ps[..i] && Wrote(u, db, root, a, r) ==>
                exists q :: Wrote(u, db, root, ps[i], q) && u(q).createdAt >= u(r).createdAt)
  {
    var ps := s.participants;
    hide Reaches, Wrote, WroteUnder;
    forall a, r
      ensures WroteUnder(db, root, a, r) <==> Wrote(u, db, root, a, r)
      ensures Wrote(u, db, root, a, r) ==> r in db.events && db.events[r].ev == u(r)
    {
      WroteIsAnswer(u, run, db, root, a, r);
    }
    forall a | a in ps ensures exists r :: Wrote(u, db, root, a, r) {
      assert HasWritten(db, root, a);
      var r :| WroteUnder(db, root, a, r);
    }
    forall i, a, r | 0 <= i < |ps| && a !in ps[..i] && Wrote(u, db, root, a, r)
      ensures exists q :: Wrote(u, db, root, ps[i], q) && u(q).createdAt >= u(r).createdAt
    {
      if a != ps[i] { AsRecentAsLater(db, root, ps, i, a); }
    }
  }

  lemma AsRecentAsLater(db: Db, root: EventId, ps: seq<string>, i: nat, a: string)
    requires MostRecentFirst(db, root, ps) && i < |ps| && a !in ps[..i] && a != ps[i]
    ensures AsRecent(db, root, ps[i], a)
  {
    assert forall k :: 0 <= k < i ==> ps[..i][k] == ps[k];
    if a in ps {
      var j :| 0 <= j < |ps| && ps[j] == a;
      assert i < j;
    }
  }

  /** A live reply that names this event as its parent or as its root. */
  ghost predicate Refers(u: Universe, db: Db, id: EventId, r: EventId) {
    && r in db.events && !db.events[r].deleted && IsReply(u(r))
    && (ParentOf(u(r)) == id || RootHintOf(u(r)) == id)
  }

  lemma {:induction false} OverlaidHolds(db: Db, ids: seq<EventId>, id: EventId)
    ensures id in Overlaid(db, ids) <==> id in ids && HasReplies(db, id)
  {
    if ids != [] {
      var n := |ids| - 1;
      OverlaidHolds(db, ids[..n], id);
      assert ids == ids[..n] + [ids[n]];
    }
  }

  lemma RepliesRefer(u: Universe, run: seq<Step>, db: Db, id: EventId)
    requires Authentic(u) && Reaches(u, run, db)
    ensures HasReplies(db, id) <==> Live(db, id) && exists r :: Refers(u, db, id, r)
  {
    hide Reaches, LiveChildren, LiveUnder, IsReply, Refers;
    if r :| Refers(u, db, id, r) { ReferredHasRow(u, run, db, id, r); }
    if id in db.thread {
      CountersOf(u, run, db, id);
      forall r ensures Refers(u, db, id, r) <==> r in LiveChildren(db, id) || r in LiveUnder(db, id) {
        LiveIsAnswer(u, run, db, id, r);
        ReferredHasRow(u, run, db, id, r);
      }
      if LiveChildren(db, id) != {} { var r :| r in LiveChildren(db, id); assert Refers(u, db, id, r); }
      if LiveUnder(db, id) != {} { var r :| r in LiveUnder(db, id); assert Refers(u, db, id, r); }
    }
  }

  lemma ReferredHasRow(u: Universe, run: seq<Step>, db: Db, id: EventId, r: EventId)
    requires Authentic(u) && Reaches(u, run, db)
    ensures Refers(u, db, id, r) ==> id in db.thread
    ensures Refers(u, db, id, r) <==> r in LiveChildren(db, id) || r in LiveUnder(db, id)
  {
    ReachableBase(u, run, db);
    assert RowOk(u, db, r) && EventOk(u, db, r);
    hide Reaches, Base, IsReply;
  }

  /** A row of a page carries a summary exactly when it is live and some live reply refers to it. */
  lemma OverlaysHaveReplies(u: Universe, run: seq<Step>, db: Db, ids: seq<EventId>, summaries: seq<Summary>,
        id: EventId)
    requires Authentic(u) && Reaches(u, run, db) && Summarised(db, ids, summaries)
    ensures (exists k :: 0 <= k < |summaries| && summaries[k].root == id) <==>
            id in ids && id in db.events && !db.events[id].deleted && exists r :: Refers(u, db, id, r)
  {
    RepliesRefer(u, run, db, id);
    OverlaidHolds(db, ids, id);
    hide Reaches, Refers, HasReplies, Overlaid;
    var over := Overlaid(db, ids);
    assert forall k :: 0 <= k < |summaries| ==> summaries[k].root == over[k];
    if id in over { var k :| 0 <= k < |over| && over[k] == id; assert summaries[k].root == id; }
  }

  predicate Older(db: Db, a: EventId, b: EventId) {
    && a in db.events && b in db.events
    && (db.events[a].ev.createdAt < db.events[b].ev.createdAt ||
        (db.events[a].ev.createdAt == db.events[b].ev.createdAt && a < b))
  }
}
