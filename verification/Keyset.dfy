/**
 Keyset pagination: ordered rows, a strict "after the cursor" predicate, and a `limit + 1` probe that
 decides whether another page follows. Both reads use one order on keys; the channel window walks
 newest first, so its rank is the negated timestamp.
 */
module Keyset {
  import opened Options

  datatype Key = Key(rank: int, id: nat)

  predicate Less(a: Key, b: Key) {
    a.rank < b.rank || (a.rank == b.rank && a.id < b.id)
  }

  predicate Sorted(ks: seq<Key>) {
    forall i, j :: 0 <= i < j < |ks| ==> Less(ks[i], ks[j])
  }

  ghost predicate Lists(ks: seq<Key>, s: set<Key>) {
    Sorted(ks) && forall k :: k in s <==> k in ks
  }

  lemma {:induction false} LeastExists(s: set<Key>)
    requires s != {}
    ensures exists m :: IsLeast(s, m)
    decreases s
  {
    var x :| x in s;
    var rest := s - {x};
    if rest == {} {
      assert s == {x};
      assert IsLeast(s, x);
    } else {
      LeastExists(rest);
      var m :| IsLeast(rest, m);
      assert IsLeast(s, if Less(x, m) then x else m) by {
        assert forall k :: k in s ==> k == x || k in rest;
      }
    }
  }

  ghost predicate IsLeast(s: set<Key>, m: Key) {
    m in s && forall k :: k in s && k != m ==> Less(m, k)
  }

  ghost function LeastKey(s: set<Key>): (m: Key)
    requires s != {}
    ensures IsLeast(s, m)
  {
    LeastExists(s);
    var m :| IsLeast(s, m);
    m
  }

  /** `ORDER BY`: the elements of a set in key order. */
  ghost function InOrder(s: set<Key>): seq<Key>
    decreases |s|
  {
    if s == {} then [] else [LeastKey(s)] + InOrder(s - {LeastKey(s)})
  }

  lemma {:induction false} InOrderLists(s: set<Key>)
    ensures Lists(InOrder(s), s) && |InOrder(s)| == |s|
    decreases |s|
  {
    if s != {} {
      var m := LeastKey(s);
      InOrderLists(s - {m});
      assert s == s - {m} + {m};
    }
  }

  /** There is one way to list a set in order. */
  lemma {:induction false} ListingIsUnique(a: seq<Key>, b: seq<Key>, s: set<Key>)
    requires Lists(a, s) && Lists(b, s)
    ensures a == b
    decreases |a|
  {
    if a != [] || b != [] {
      assert s != {} by {
        assert a != [] ==> a[0] in a;
        assert b != [] ==> b[0] in b;
      }
      HeadIsLeast(a, s);
      HeadIsLeast(b, s);
      TailLists(a, s);
      TailLists(b, s);
      ListingIsUnique(a[1..], b[1..], s - {a[0]});
    }
  }

  lemma HeadIsLeast(a: seq<Key>, s: set<Key>)
    requires Lists(a, s) && a != []
    ensures a[0] in s && forall k :: k in s && k != a[0] ==> Less(a[0], k)
  {
  }

  lemma TailLists(a: seq<Key>, s: set<Key>)
    requires Lists(a, s) && a != []
    ensures Lists(a[1..], s - {a[0]})
  {
    forall k ensures k in s - {a[0]} <==> k in a[1..] {
      if k in a[1..] {
        var i :| 0 <= i < |a| - 1 && a[1..][i] == k;
        assert a[i + 1] == k && Less(a[0], k);
      }
    }
  }

  lemma ConsLists(x: Key, a: seq<Key>, s: set<Key>)
    requires Lists(a, s) && forall k :: k in s ==> Less(x, k)
    ensures Lists([x] + a, {x} + s)
  {
    var b := [x] + a;
    forall i, j | 0 <= i < j < |b| ensures Less(b[i], b[j]) {
      assert b[j] == a[j - 1] && b[j] in a;
      if i > 0 { assert b[i] == a[i - 1]; }
    }
  }

  // ---- one page ------------------------------------------------------------

  /** The rows the cursor predicate lets through. */
  function After(s: set<Key>, cursor: Option<Key>): set<Key> {
    match cursor
    case None => s
    case Some(c) => set k | k in s && Less(c, k)
  }

  ghost function Prefix(ks: seq<Key>, n: nat): seq<Key> {
    if n <= |ks| then ks[..n] else ks
  }

  /** The rows in front of a key. */
  function Ahead(s: set<Key>, k: Key): set<Key> {
    set q | q in s && Less(q, k)
  }

  lemma PrefixCons(m: Key, rest: seq<Key>, n: nat)
    requires n > 0
    ensures Prefix([m] + rest, n) == [m] + Prefix(rest, n - 1)
  {
  }

  lemma AheadOfLeast(s: set<Key>, k: Key)
    requires k in s
    ensures k == LeastKey(s) ==> Ahead(s, k) == {}
    ensures k != LeastKey(s) ==>
            Ahead(s, k) == {LeastKey(s)} + Ahead(s - {LeastKey(s)}, k) && LeastKey(s) !in Ahead(s - {LeastKey(s)}, k)
  {
  }

  /** `LIMIT n` keeps exactly the rows that fewer than `n` rows precede. */
  lemma {:induction false} LimitKeepsTheFirst(s: set<Key>, k: Key, n: nat)
    requires k in s
    ensures k in Prefix(InOrder(s), n) <==> |Ahead(s, k)| < n
    decreases |s|
  {
    var m := LeastKey(s);
    AheadOfLeast(s, k);
    if n > 0 {
      var before: nat := n - 1;
      PrefixCons(m, InOrder(s - {m}), n);
      hide Prefix, Ahead, LeastKey;
      assert m in [m];
      if k != m { LimitKeepsTheFirst(s - {m}, k, before); }
    } else {
      assert Prefix(InOrder(s), 0) == [];
    }
  }

  datatype Page = Page(rows: seq<Key>, hasMore: bool, next: Option<Key>)

  /** What a page must be: the first `limit` rows after the cursor, and whether any remain. */
  ghost function PageOf(s: set<Key>, cursor: Option<Key>, limit: nat): Page
    requires limit > 0
  {
    var all := InOrder(After(s, cursor));
    if |all| > limit then Page(all[..limit], true, Some(all[limit - 1])) else Page(all, false, None)
  }

  /** Run the query for one row more than asked, then truncate: the probe is the only authority. */
  method ProbePage(fetched: seq<Key>, ghost s: set<Key>, ghost cursor: Option<Key>, limit: nat) returns (p: Page)
    requires limit > 0
    requires fetched == Prefix(InOrder(After(s, cursor)), limit + 1)
    ensures p == PageOf(s, cursor, limit)
  {
    var rows := fetched;
    var hasMore := |rows| == limit + 1;
    if hasMore { rows := rows[..limit]; }
    var next := if hasMore then Some(rows[|rows| - 1]) else None;
    p := Page(rows, hasMore, next);
  }

  /** `ORDER BY .. LIMIT n`: repeatedly take the least remaining row. */
  method SelectOrdered(s: set<Key>, n: nat) returns (rows: seq<Key>)
    ensures rows == Prefix(InOrder(s), n)
  {
    rows := [];
    var left := s;
    while left != {} && |rows| < n
      invariant |rows| <= n
      invariant rows + InOrder(left) == InOrder(s)
      decreases left
    {
      LeastExists(left);
      var m :| m in left && forall k :: k in left && k != m ==> Less(m, k);
      assert IsLeast(left, m) && m == LeastKey(left);
      assert rows + InOrder(left) == (rows + [m]) + InOrder(left - {m});
      rows := rows + [m];
      left := left - {m};
    }
    InOrderLists(left);
    assert left != {} ==> rows == InOrder(s)[..n];
    assert left == {} ==> rows == InOrder(s);
  }

  // ---- the walk over a fixed store -----------------------------------------

  /** Past an element of a listing come exactly the listed elements greater than it. */
  lemma Split(ks: seq<Key>, s: set<Key>, n: nat)
    requires Lists(ks, s) && 0 < n <= |ks|
    ensures Lists(ks[n..], After(s, Some(ks[n - 1])))
  {
    var rest := After(s, Some(ks[n - 1]));
    forall k ensures k in rest <==> k in ks[n..] {
      if k in rest {
        var i :| 0 <= i < |ks| && ks[i] == k;
        assert ks[n..][i - n] == k;
      }
    }
  }

  lemma AfterLast(s: set<Key>, cursor: Option<Key>, limit: nat)
    requires limit > 0 && PageOf(s, cursor, limit).hasMore
    ensures var p := PageOf(s, cursor, limit);
            && InOrder(After(s, cursor)) == p.rows + InOrder(After(s, p.next))
            && |After(s, p.next)| == |After(s, cursor)| - limit
            && |p.rows| == limit
  {
    var p := PageOf(s, cursor, limit);
    var all := InOrder(After(s, cursor));
    RestIsTail(s, cursor, limit);
    InOrderLists(After(s, cursor));
    hide InOrder, After, Less, Lists, Sorted;
    TakeDrop(all, limit);
  }

  lemma TakeDrop(all: seq<Key>, n: nat)
    requires n <= |all|
    ensures all == all[..n] + all[n..] && |all[..n]| == n && |all[n..]| == |all| - n
  {
  }

  lemma RestIsTail(s: set<Key>, cursor: Option<Key>, limit: nat)
    requires limit > 0 && PageOf(s, cursor, limit).hasMore
    ensures var rest := After(s, PageOf(s, cursor, limit).next);
            InOrder(rest) == InOrder(After(s, cursor))[limit..] && |rest| == |InOrder(rest)|
  {
    var all, rest := InOrder(After(s, cursor)), After(s, PageOf(s, cursor, limit).next);
    InOrderLists(After(s, cursor));
    Split(all, After(s, cursor), limit);
    AfterTwice(s, cursor, limit);
    assert Lists(all[limit..], rest);
    hide InOrder, After, Less, PageOf, Lists, Sorted;
    InOrderLists(rest);
    ListingIsUnique(all[limit..], InOrder(rest), rest);
  }

  /** What is after the next cursor is what is after it among what was after the first. */
  lemma AfterTwice(s: set<Key>, cursor: Option<Key>, limit: nat)
    requires limit > 0 && PageOf(s, cursor, limit).hasMore
    ensures var p := PageOf(s, cursor, limit); After(s, p.next) == After(After(s, cursor), p.next)
  {
    NextAdvances(s, cursor, limit);
    hide PageOf, InOrder;
  }

  /** The next cursor is a row of the page, hence past the cursor the page was read with. */
  lemma NextAdvances(s: set<Key>, cursor: Option<Key>, limit: nat)
    requires limit > 0
    ensures var p := PageOf(s, cursor, limit);
            && (p.hasMore <==> p.next.Some?)
            && (p.next.Some? && cursor.Some? ==> Less(cursor.value, p.next.value))
  {
    var all := InOrder(After(s, cursor));
    InOrderLists(After(s, cursor));
    if |all| > limit {
      assert all[limit - 1] in all;
    }
  }

  /** The pages read by following `next` until there is none. */
  ghost function Walk(s: set<Key>, cursor: Option<Key>, limit: nat): seq<seq<Key>>
    requires limit > 0
    decreases |After(s, cursor)|
  {
    var p := PageOf(s, cursor, limit);
    InOrderLists(After(s, cursor));
    if p.hasMore then
      AfterLast(s, cursor, limit);
      [p.rows] + Walk(s, p.next, limit)
    else [p.rows]
  }

  function Flatten(pages: seq<seq<Key>>): seq<Key> {
    if pages == [] then [] else pages[0] + Flatten(pages[1..])
  }

  /** The number of pages a walk reads: one at least, otherwise the rounded-up quotient. */
  function PageCount(n: nat, limit: nat): nat
    requires limit > 0
  {
    if n <= limit then 1 else 1 + PageCount(n - limit, limit)
  }

  lemma {:induction false} PageCountIsCeiling(n: nat, limit: nat)
    requires limit > 0
    ensures var p := PageCount(n, limit);
            n <= p * limit && p >= 1 && (p > 1 ==> (p - 1) * limit < n)
  {
    if n > limit {
      PageCountIsCeiling(n - limit, limit);
      var q := PageCount(n - limit, limit);
      assert (q + 1) * limit == q * limit + limit && q * limit == (q - 1) * limit + limit;
    }
  }

  lemma WholeRest(s: set<Key>, cursor: Option<Key>, limit: nat)
    requires limit > 0
    ensures var p := PageOf(s, cursor, limit);
            && (p.hasMore <==> |After(s, cursor)| > limit)
            && (!p.hasMore ==> p.rows == InOrder(After(s, cursor)))
  {
    InOrderLists(After(s, cursor));
  }

  /** Over a fixed store the walk returns every row exactly once, in order, and stops on time. */
  lemma {:induction false} WalkReturnsAll(s: set<Key>, cursor: Option<Key>, limit: nat)
    requires limit > 0
    ensures Flatten(Walk(s, cursor, limit)) == InOrder(After(s, cursor))
    ensures |Walk(s, cursor, limit)| == PageCount(|After(s, cursor)|, limit)
    decreases |After(s, cursor)|
  {
    var p := PageOf(s, cursor, limit);
    WholeRest(s, cursor, limit);
    if p.hasMore {
      AfterLast(s, cursor, limit);
      WalkReturnsAll(s, p.next, limit);
      MorePages(s, cursor, limit);
    } else {
      LastPage(s, cursor, limit);
    }
  }

  lemma LastPage(s: set<Key>, cursor: Option<Key>, limit: nat)
    requires limit > 0 && !PageOf(s, cursor, limit).hasMore
    ensures Flatten(Walk(s, cursor, limit)) == InOrder(After(s, cursor))
    ensures |Walk(s, cursor, limit)| == PageCount(|After(s, cursor)|, limit)
  {
    var p := PageOf(s, cursor, limit);
    WholeRest(s, cursor, limit);
    WalkUnfolds(s, cursor, limit);
    FlattenCons(p.rows, []);
    hide InOrder, After, Less, Lists, Sorted, PageOf, Walk, Flatten;
    assert [p.rows] + [] == [p.rows];
  }

  lemma MorePages(s: set<Key>, cursor: Option<Key>, limit: nat)
    requires limit > 0 && PageOf(s, cursor, limit).hasMore
    requires var next := PageOf(s, cursor, limit).next;
             && Flatten(Walk(s, next, limit)) == InOrder(After(s, next))
             && |Walk(s, next, limit)| == PageCount(|After(s, next)|, limit)
    ensures Flatten(Walk(s, cursor, limit)) == InOrder(After(s, cursor))
    ensures |Walk(s, cursor, limit)| == PageCount(|After(s, cursor)|, limit)
  {
    var p := PageOf(s, cursor, limit);
    WholeRest(s, cursor, limit);
    WalkUnfolds(s, cursor, limit);
    AfterLast(s, cursor, limit);
    FlattenCons(p.rows, Walk(s, p.next, limit));
    PageCountStep(|After(s, cursor)|, limit);
    hide InOrder, After, Less, Lists, Sorted, PageOf, Walk, Flatten, PageCount;
  }

  lemma PageCountStep(n: nat, limit: nat)
    requires limit > 0
    ensures n > limit ==> PageCount(n, limit) == 1 + PageCount(n - limit, limit)
  {
  }

  lemma WalkUnfolds(s: set<Key>, cursor: Option<Key>, limit: nat)
    requires limit > 0
    ensures var p := PageOf(s, cursor, limit);
            && (p.hasMore ==> Walk(s, cursor, limit) == [p.rows] + Walk(s, p.next, limit))
            && (!p.hasMore ==> Walk(s, cursor, limit) == [p.rows])
  {
    hide InOrder, After, PageOf;
  }

  lemma FlattenCons(page: seq<Key>, pages: seq<seq<Key>>)
    ensures Flatten([page] + pages) == page + Flatten(pages)
    ensures |[page] + pages| == 1 + |pages|
    ensures page + Flatten([]) == page
  {
    assert ([page] + pages)[1..] == pages;
  }

  // ---- the walk over a changing store --------------------------------------

  /** Page `i` was read from the rows visible at that moment, with the previous page's cursor. */
  ghost predicate PageAt(stores: seq<set<Key>>, pages: seq<Page>, limit: nat, i: int)
    requires limit > 0 && |stores| == |pages|
  {
    0 <= i < |pages| ==> pages[i] == PageOf(stores[i], CursorOf(pages, i), limit)
  }

  /** Every page of the walk but the last says that more follow. */
  ghost predicate WalkOver(stores: seq<set<Key>>, pages: seq<Page>, limit: nat)
    requires limit > 0
  {
    && |stores| == |pages|
    && (forall i :: PageAt(stores, pages, limit, i))
    && (forall i :: 0 <= i < |pages| - 1 ==> pages[i].hasMore)
  }

  function CursorOf(pages: seq<Page>, i: nat): Option<Key>
    requires i < |pages|
  {
    if i == 0 then None else pages[i - 1].next
  }

  /** A page holds exactly the visible rows between its cursor and its last row. */
  lemma PageHolds(s: set<Key>, cursor: Option<Key>, limit: nat, k: Key)
    requires limit > 0
    ensures var p := PageOf(s, cursor, limit);
            && (k in p.rows <==> k in After(s, cursor) && (p.next.Some? ==> k == p.next.value || Less(k, p.next.value)))
            && (p.hasMore <==> p.next.Some?)
            && Sorted(p.rows)
  {
    var all := InOrder(After(s, cursor));
    InOrderLists(After(s, cursor));
    var p := PageOf(s, cursor, limit);
    if p.hasMore {
      if k in After(s, cursor) {
        var i :| 0 <= i < |all| && all[i] == k;
        if i < limit { assert p.rows[i] == k; }
        if limit <= i { assert Less(all[limit - 1], all[i]); }
      }
      if k in p.rows {
        var i :| 0 <= i < limit && p.rows[i] == k;
        assert all[i] == k;
      }
    }
  }

  /** Cursors only move forward. */
  lemma {:induction false} CursorsAdvance(stores: seq<set<Key>>, pages: seq<Page>, limit: nat, i: nat, j: nat)
    requires limit > 0 && WalkOver(stores, pages, limit) && i <= j < |pages| - 1
    ensures pages[i].next.Some? && pages[j].next.Some?
    ensures pages[i].next == pages[j].next || Less(pages[i].next.value, pages[j].next.value)
    decreases j - i
  {
    NextAdvances(stores[j], CursorOf(pages, j), limit);
    assert PageAt(stores, pages, limit, j) && pages[j].hasMore;
    hide PageOf;
    if i < j {
      CursorsAdvance(stores, pages, limit, i, j - 1);
    }
  }

  /** With writes between the pages, no row is returned twice. */
  lemma NoRowRepeats(stores: seq<set<Key>>, pages: seq<Page>, limit: nat, i: nat, j: nat, k: Key)
    requires limit > 0 && WalkOver(stores, pages, limit) && i < j < |pages|
    ensures !(k in pages[i].rows && k in pages[j].rows)
  {
    CursorsAdvance(stores, pages, limit, i, j - 1);
    PageHolds(stores[i], CursorOf(pages, i), limit, k);
    PageHolds(stores[j], CursorOf(pages, j), limit, k);
    assert PageAt(stores, pages, limit, i) && PageAt(stores, pages, limit, j);
    hide PageOf;
  }

  /** With writes between the pages, a row visible throughout a finished walk is returned. */
  lemma LastingRowIsReturned(stores: seq<set<Key>>, pages: seq<Page>, limit: nat, k: Key)
    requires limit > 0 && WalkOver(stores, pages, limit) && |pages| > 0 && !pages[|pages| - 1].hasMore
    requires forall i :: 0 <= i < |stores| ==> k in stores[i]
    ensures exists i :: 0 <= i < |pages| && k in pages[i].rows
  {
    var i := 0;
    while i < |pages| && pages[i].next.Some? && Less(pages[i].next.value, k)
      invariant 0 <= i <= |pages|
      invariant i > 0 ==> pages[i - 1].next.Some? && Less(pages[i - 1].next.value, k)
      invariant i == |pages| ==> pages[|pages| - 1].hasMore
    {
      assert PageAt(stores, pages, limit, i);
      i := i + 1;
    }
    assert PageAt(stores, pages, limit, i);
    PageHolds(stores[i], CursorOf(pages, i), limit, k);
  }

  // ---- filtering after paging ----------------------------------------------

  function Keep(ks: seq<Key>, wanted: set<Key>): seq<Key> {
    if ks == [] then []
    else if ks[0] in wanted then [ks[0]] + Keep(ks[1..], wanted)
    else Keep(ks[1..], wanted)
  }

  function KeepEach(pages: seq<seq<Key>>, wanted: set<Key>): seq<seq<Key>> {
    seq(|pages|, i requires 0 <= i < |pages| => Keep(pages[i], wanted))
  }

  lemma {:induction false} KeepConcat(a: seq<Key>, b: seq<Key>, wanted: set<Key>)
    ensures Keep(a + b, wanted) == Keep(a, wanted) + Keep(b, wanted)
  {
    if a == [] {
      assert a + b == b;
    } else {
      assert (a + b)[1..] == a[1..] + b;
      KeepConcat(a[1..], b, wanted);
    }
  }

  lemma {:induction false} KeepLists(ks: seq<Key>, s: set<Key>, wanted: set<Key>)
    requires Lists(ks, s)
    ensures Lists(Keep(ks, wanted), s * wanted)
  {
    if ks != [] {
      TailLists(ks, s);
      var rest := Keep(ks[1..], wanted);
      KeepLists(ks[1..], s - {ks[0]}, wanted);
      HeadIsLeast(ks, s);
      assert s * wanted == (s - {ks[0]}) * wanted + ({ks[0]} * wanted);
      if ks[0] in wanted {
        ConsLists(ks[0], rest, (s - {ks[0]}) * wanted);
        assert s * wanted == {ks[0]} + (s - {ks[0]}) * wanted;
      }
    }
  }

  lemma {:induction false} FlattenKeep(pages: seq<seq<Key>>, wanted: set<Key>)
    ensures Flatten(KeepEach(pages, wanted)) == Keep(Flatten(pages), wanted)
  {
    if pages != [] {
      FlattenKeep(pages[1..], wanted);
      KeepConcat(pages[0], Flatten(pages[1..]), wanted);
      assert KeepEach(pages, wanted)[1..] == KeepEach(pages[1..], wanted);
    }
  }

  /** Filtering each page afterwards loses no matching row: together they are the matching rows in order. */
  lemma FilteredWalk(s: set<Key>, limit: nat, wanted: set<Key>)
    requires limit > 0
    ensures Flatten(KeepEach(Walk(s, None, limit), wanted)) == InOrder(s * wanted)
  {
    FlattenKeep(Walk(s, None, limit), wanted);
    WalkReturnsAll(s, None, limit);
    InOrderLists(s);
    KeepLists(InOrder(s), s, wanted);
    InOrderLists(s * wanted);
    ListingIsUnique(Keep(InOrder(s), wanted), InOrder(s * wanted), s * wanted);
  }
}
