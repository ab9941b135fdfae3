/**
 Server-sent events over an arbitrarily chunked stream (src/transport.rs, src/direct_transport.rs):
 capped line framing in a growing buffer, and the two accumulators that turn lines into events
 (section 9.2.6 of the WHATWG HTML Standard). Text is a sequence of one-byte characters.
 */
module Sse {
  import opened Options

  // ---- lines ---------------------------------------------------------------

  /** Index of the first line feed, or the length of the text. */
  function FirstLf(s: string): (i: nat)
    ensures i <= |s| && (i < |s| ==> s[i] == '\n') && forall j :: 0 <= j < i ==> s[j] != '\n'
  {
    if s == "" then 0 else if s[0] == '\n' then 0 else 1 + FirstLf(s[1..])
  }

  function StripCr(line: string): string {
    if line != "" && line[|line| - 1] == '\r' then line[..|line| - 1] else line
  }

  datatype Drained = Line(text: string) | Oversize | Pending

  /** `drain_line_capped`: what is left of the buffer, and what came out of it. */
  function Drain(buf: string, max: nat): (r: (string, Drained))
    ensures r.1.Pending? ==> r.0 == buf && |buf| <= max
    ensures !r.1.Pending? ==> |r.0| < |buf|
  {
    var i := FirstLf(buf);
    if i == |buf| then (if |buf| > max then ("", Oversize) else (buf, Pending))
    else if i > max then (buf[i + 1..], Oversize)
    else (buf[i + 1..], Line(StripCr(buf[..i])))
  }

  /** The inner loop: drain until no complete line is left. */
  function DrainAll(buf: string, max: nat): (r: (string, seq<string>))
    decreases |buf|
  {
    match Drain(buf, max)
    case (_, Pending) => (buf, [])
    case (rest, Oversize) => DrainAll(rest, max)
    case (rest, Line(l)) => var (left, ls) := DrainAll(rest, max); (left, [l] + ls)
  }

  /** Whatever arrives, what stays buffered after a chunk is at most the cap. */
  lemma {:induction false} LeftoverIsCapped(buf: string, max: nat)
    ensures |DrainAll(buf, max).0| <= max
    decreases |buf|
  {
    match Drain(buf, max)
    case (_, Pending) =>
    case (rest, _) => LeftoverIsCapped(rest, max);
  }

  // ---- the reference framing -----------------------------------------------

  /** Cut a text at its line feeds: the complete lines, and the unfinished rest. */
  function Cut(s: string): (seq<string>, string)
    decreases |s|
  {
    var i := FirstLf(s);
    if i == |s| then ([], s)
    else var (ls, rest) := Cut(s[i + 1..]); ([s[..i]] + ls, rest)
  }

  function StripAll(lines: seq<string>): seq<string> {
    seq(|lines|, i requires 0 <= i < |lines| => StripCr(lines[i]))
  }

  /** The lines of a stream, each without one trailing carriage return. */
  function LinesOf(s: string): seq<string> {
    StripAll(Cut(s).0)
  }

  predicate AllWithin(lines: seq<string>, max: nat) {
    forall i :: 0 <= i < |lines| ==> |lines[i]| <= max
  }

  lemma CutStep(s: string, i: nat)
    requires i < |s| && s[i] == '\n' && forall j :: 0 <= j < i ==> s[j] != '\n'
    ensures Cut(s) == ([s[..i]] + Cut(s[i + 1..]).0, Cut(s[i + 1..]).1)
  {
    assert FirstLf(s) == i;
  }

  lemma CutLine(line: string, tail: string)
    requires '\n' !in line
    ensures Cut(line + "\n" + tail) == ([line] + Cut(tail).0, Cut(tail).1)
  {
    var s := line + "\n" + tail;
    assert s[..|line|] == line && s[|line| + 1..] == tail;
    assert forall j :: 0 <= j < |line| ==> s[j] == line[j];
    CutStep(s, |line|);
  }

  /** A text with a line feed is its first line, the line feed, and the rest. */
  lemma FirstLine(s: string) returns (line: string, tail: string)
    requires FirstLf(s) < |s|
    ensures '\n' !in line && s == line + "\n" + tail && |tail| < |s|
  {
    var i := FirstLf(s);
    line, tail := s[..i], s[i + 1..];
    assert s == s[..i] + [s[i]] + s[i + 1..];
  }

  lemma Associative(a: string, b: string, c: string, d: string)
    ensures a + b + c + d == a + b + (c + d)
  {
  }

  /** Lines in front of the outcome of a further cut. */
  function Before(lines: seq<string>, rest: (seq<string>, string)): (seq<string>, string) {
    (lines + rest.0, rest.1)
  }

  lemma BeforeCons(line: string, lines: seq<string>, rest: (seq<string>, string))
    ensures Before([line] + lines, rest) == Before([line], Before(lines, rest))
    ensures Before([], rest) == rest
  {
    assert ([line] + lines) + rest.0 == [line] + (lines + rest.0);
    assert [] + rest.0 == rest.0;
  }

  lemma CutLineBefore(line: string, tail: string)
    requires '\n' !in line
    ensures Cut(line + "\n" + tail) == Before([line], Cut(tail))
  {
    CutLine(line, tail);
  }

  /** Cutting a text is cutting its first part, then the rest of that together with the second part. */
  lemma {:induction false} CutConcat(a: string, b: string)
    ensures Cut(a + b) == Before(Cut(a).0, Cut(Cut(a).1 + b))
    decreases |a|
  {
    if FirstLf(a) < |a| {
      var line, tail := FirstLine(a);
      CutConcat(tail, b);
      CutAfterLine(line, tail, b);
    } else {
      BeforeCons("", [], Cut(a + b));
    }
  }

  lemma CutAfterLine(line: string, tail: string, b: string)
    requires '\n' !in line && Cut(tail + b) == Before(Cut(tail).0, Cut(Cut(tail).1 + b))
    ensures var a := line + "\n" + tail; Cut(a + b) == Before(Cut(a).0, Cut(Cut(a).1 + b))
  {
    var a := line + "\n" + tail;
    CutLineBefore(line, tail);
    Associative(line, "\n", tail, b);
    CutLineBefore(line, tail + b);
    BeforeCons(line, Cut(tail).0, Cut(Cut(tail).1 + b));
    hide Cut, FirstLf;
    assert Cut(a) == ([line] + Cut(tail).0, Cut(tail).1);
  }

  // ---- framing against the reference ---------------------------------------

  /** The lines within the cap, each without one trailing carriage return. */
  function KeptLines(lines: seq<string>, max: nat): seq<string> {
    if lines == [] then [] else (if |lines[0]| <= max then [StripCr(lines[0])] else []) + KeptLines(lines[1..], max)
  }

  lemma {:induction false} KeptConcat(a: seq<string>, b: seq<string>, max: nat)
    ensures KeptLines(a + b, max) == KeptLines(a, max) + KeptLines(b, max)
  {
    if a == [] {
      assert a + b == b;
    } else {
      assert (a + b)[1..] == a[1..] + b;
      KeptConcat(a[1..], b, max);
    }
  }

  /** All lines are kept exactly when all are within the cap. */
  lemma {:induction false} KeptIsAll(lines: seq<string>, max: nat)
    ensures KeptLines(lines, max) == StripAll(lines) <==> AllWithin(lines, max)
    ensures |KeptLines(lines, max)| <= |lines|
    ensures |KeptLines(lines, max)| == |lines| <==> AllWithin(lines, max)
  {
    if lines == [] {
      assert StripAll(lines) == [];
    } else {
      KeptIsAll(lines[1..], max);
      assert lines == [lines[0]] + lines[1..];
      assert StripAll(lines) == [StripCr(lines[0])] + StripAll(lines[1..]);
      if AllWithin(lines[1..], max) && |lines[0]| <= max {
        forall i | 0 <= i < |lines| ensures |lines[i]| <= max { if i > 0 { assert lines[i] == lines[1..][i - 1]; } }
      }
    }
  }

  /**
   What one chunk makes of the buffer, exactly: the complete lines within the cap, and the unfinished
   rest unless that alone exceeds the cap.
   */
  lemma {:induction false} DrainAllKeeps(buf: string, max: nat)
    ensures DrainAll(buf, max).1 == KeptLines(Cut(buf).0, max)
    ensures DrainAll(buf, max).0 == if |Cut(buf).1| <= max then Cut(buf).1 else ""
    decreases |buf|
  {
    var i := FirstLf(buf);
    if i < |buf| {
      var rest := buf[i + 1..];
      CutStep(buf, i);
      assert Cut(buf).0[0] == buf[..i] && Cut(buf).0[1..] == Cut(rest).0;
      DrainAllKeeps(rest, max);
    } else if |buf| > max {
      assert DrainAll("", max) == ("", []);
    }
  }

  // ---- a whole stream, chunk by chunk --------------------------------------

  function Stream(chunks: seq<string>): string {
    if chunks == [] then "" else Stream(chunks[..|chunks| - 1]) + chunks[|chunks| - 1]
  }

  /** The buffer and all lines after a run of chunks. */
  function FeedAll(chunks: seq<string>, max: nat): (string, seq<string>) {
    if chunks == [] then ("", []) else
      var (buf, ls) := FeedAll(chunks[..|chunks| - 1], max);
      var (left, more) := DrainAll(buf + chunks[|chunks| - 1], max);
      (left, ls + more)
  }

  lemma {:induction false} NoLfInRest(s: string)
    ensures '\n' !in Cut(s).1
    decreases |s|
  {
    var i := FirstLf(s);
    if i < |s| { NoLfInRest(s[i + 1..]); }
  }

  lemma {:induction false} NoLfNoCut(s: string)
    ensures Cut(s).0 == [] <==> '\n' !in s
    ensures '\n' !in s ==> Cut(s) == ([], s)
  {
  }

  lemma AppendLine(r: string, line: string, tail: string)
    ensures r + (line + "\n" + tail) == (r + line) + "\n" + tail
  {
  }

  lemma AllWithinConcat(a: seq<string>, b: seq<string>, max: nat)
    requires AllWithin(a + b, max)
    ensures AllWithin(a, max) && AllWithin(b, max)
  {
    assert forall k :: 0 <= k < |a| ==> a[k] == (a + b)[k];
    assert forall k :: 0 <= k < |b| ==> b[k] == (a + b)[|a| + k];
  }

  lemma FirstIsWithin(line: string, max: nat)
    requires AllWithin([line], max)
    ensures |line| <= max
  {
    assert [line][0] == line;
  }

  /** A rest beyond the cap is never completed, or its line would be beyond the cap. */
  lemma LongRest(r: string, b: string, max: nat)
    requires '\n' !in r && |r| > max && AllWithin(Cut(r + b).0, max)
    ensures '\n' !in b
  {
    if '\n' in b {
      NoLfNoCut(b);
      var line, tail := FirstLine(b);
      AppendLine(r, line, tail);
      CutLine(r + line, tail);
      AllWithinConcat([r + line], Cut(tail).0, max);
      FirstIsWithin(r + line, max);
    }
  }

  lemma RestStartsALine(a: string, b: string, max: nat)
    requires AllWithin(Cut(a + b).0, max)
    ensures AllWithin(Cut(a).0, max) && AllWithin(Cut(Cut(a).1 + b).0, max)
    ensures |Cut(a).1| > max ==> '\n' !in b
  {
    CutConcat(a, b);
    NoLfInRest(a);
    hide Cut, AllWithin;
    AllWithinConcat(Cut(a).0, Cut(Cut(a).1 + b).0, max);
    if |Cut(a).1| > max { LongRest(Cut(a).1, b, max); }
  }

  /**
   When every complete line of a stream is within the cap, every way of splitting the stream gives
   the lines of the whole stream; an unfinished line beyond the cap costs only the leftover.
   */
  lemma {:induction false} SplitKeepsLines(chunks: seq<string>, max: nat)
    requires AllWithin(Cut(Stream(chunks)).0, max)
    ensures var (buf, lines) := FeedAll(chunks, max); var (whole, rest) := Cut(Stream(chunks));
            lines == StripAll(whole) && '\n' !in buf && (buf == rest || |rest| > max)
    decreases |chunks|
  {
    if chunks == [] {
      assert StripAll([]) == [];
    } else {
      var n := |chunks| - 1;
      var before, last := Stream(chunks[..n]), chunks[n];
      RestStartsALine(before, last, max);
      SplitKeepsLines(chunks[..n], max);
      LastChunk(before, last, FeedAll(chunks[..n], max).0, max);
    }
  }

  lemma LastChunk(before: string, last: string, buf: string, max: nat)
    requires AllWithin(Cut(Cut(before).1 + last).0, max) && '\n' !in buf
    requires buf == Cut(before).1 || (|Cut(before).1| > max && '\n' !in last)
    ensures var (left, more) := DrainAll(buf + last, max); var (whole, rest) := Cut(before + last);
            && StripAll(whole) == StripAll(Cut(before).0) + more && '\n' !in left && (left == rest || |rest| > max)
  {
    var r := Cut(before).1;
    CutConcat(before, last);
    DrainAllKeeps(buf + last, max);
    NoLfInRest(buf + last);
    KeptIsAll(Cut(r + last).0, max);
    StripConcat(Cut(before).0, Cut(r + last).0);
    if buf != r {
      NoLfInRest(before);
      NoLfNoCut(r + last);
      NoLfNoCut(buf + last);
    }
  }

  lemma StripConcat(a: seq<string>, b: seq<string>)
    ensures StripAll(a + b) == StripAll(a) + StripAll(b)
  {
  }

  /** After a line feed only what follows the last one is unfinished. */
  lemma RestAfterLf(a: string, b: string)
    requires '\n' in b
    ensures Cut(a + b).1 == Cut(b).1
  {
    CutConcat(a, b);
    NoLfInRest(a);
    var r := Cut(a).1;
    NoLfNoCut(b);
    var line, tail := FirstLine(b);
    AppendLine(r, line, tail);
    hide Cut;
    CutLine(line, tail);
    CutLine(r + line, tail);
  }

  /** When the unfinished rest of a stream is within the cap, every split leaves exactly that. */
  lemma {:induction false} SplitKeepsRest(chunks: seq<string>, max: nat)
    requires |Cut(Stream(chunks)).1| <= max
    ensures FeedAll(chunks, max).0 == Cut(Stream(chunks)).1
    decreases |chunks|
  {
    if chunks != [] {
      var n := |chunks| - 1;
      var before, last := Stream(chunks[..n]), chunks[n];
      var buf := FeedAll(chunks[..n], max).0;
      DrainAllKeeps(buf + last, max);
      if '\n' in last {
        RestAfterLf(before, last);
        RestAfterLf(buf, last);
      } else {
        CutConcat(before, last);
        NoLfInRest(before);
        NoLfNoCut(Cut(before).1 + last);
        SplitKeepsRest(chunks[..n], max);
      }
    }
  }

  /** Any two ways of splitting this stream frame the same lines. */
  ghost predicate SplitsAgree(s: string, max: nat) {
    forall a, b :: Stream(a) == s && Stream(b) == s ==> FeedAll(a, max).1 == FeedAll(b, max).1
  }

  /** Every way of splitting it frames the lines of the whole stream. */
  ghost predicate SplitsFrame(s: string, max: nat) {
    forall chunks :: Stream(chunks) == s ==> FeedAll(chunks, max).1 == LinesOf(s)
  }

  /** Every way of splitting it leaves the unfinished rest of the whole stream. */
  ghost predicate SplitsLeave(s: string, max: nat) {
    forall chunks :: Stream(chunks) == s ==> FeedAll(chunks, max).0 == Cut(s).1
  }

  lemma OneChunk(chunk: string, max: nat)
    ensures Stream([chunk]) == chunk && FeedAll([chunk], max) == DrainAll(chunk, max)
  {
    assert [chunk][..0] == [] && "" + chunk == chunk;
    assert FeedAll([chunk][..0], max) == ("", []) && Stream([chunk][..0]) == "";
    assert [] + DrainAll(chunk, max).1 == DrainAll(chunk, max).1;
  }

  lemma TwoChunks(a: string, b: string, max: nat)
    ensures Stream([a, b]) == a + b
    ensures FeedAll([a, b], max).1 == DrainAll(a, max).1 + DrainAll(DrainAll(a, max).0 + b, max).1
  {
    OneChunk(a, max);
    assert [a, b][..1] == [a];
  }

  lemma NotWithin(line: string, rest: seq<string>, max: nat)
    requires !AllWithin([line] + rest, max) && |line| <= max
    ensures !AllWithin(rest, max)
  {
    var k :| 0 <= k < |[line] + rest| && |([line] + rest)[k]| > max;
    assert rest[k - 1] == ([line] + rest)[k];
  }

  /** The end of the first line beyond the cap. */
  lemma {:induction false} BeyondTheCap(s: string, max: nat) returns (a: string, tail: string)
    requires !AllWithin(Cut(s).0, max)
    ensures s == a + ("\n" + tail) && |Cut(a).1| > max
    decreases |s|
  {
    hide Cut, AllWithin, FirstLf;
    SomeLine(Cut(s).0, max);
    NoLfNoCut(s);
    HasFirstLf(s);
    var line, rest := FirstLine(s);
    CutLine(line, rest);
    if |line| > max {
      NoLfNoCut(line);
      a, tail := line, rest;
      AppendLine("", line, rest);
    } else {
      NotWithin(line, Cut(rest).0, max);
      var head;
      head, tail := BeyondTheCap(rest, max);
      a := line + "\n" + head;
      Associative(line, "\n", head, "\n" + tail);
      CutLine(line, head);
    }
  }

  lemma SomeLine(lines: seq<string>, max: nat)
    requires !AllWithin(lines, max)
    ensures lines != []
  {
  }

  lemma HasFirstLf(s: string)
    requires '\n' in s
    ensures FirstLf(s) < |s|
  {
  }

  /** Cutting at a line feed between two parts. */
  lemma CutAtLf(a: string, tail: string)
    ensures Cut(a + ("\n" + tail)).0 == Cut(a).0 + ([Cut(a).1] + Cut(tail).0)
  {
    var r := Cut(a).1;
    CutConcat(a, "\n" + tail);
    NoLfInRest(a);
    hide Cut;
    CutLine(r, tail);
    assert r + ("\n" + tail) == r + "\n" + tail;
  }

  lemma KeptCons(line: string, lines: seq<string>, max: nat)
    ensures KeptLines([line] + lines, max) ==
            if |line| <= max then [StripCr(line)] + KeptLines(lines, max) else KeptLines(lines, max)
  {
    assert ([line] + lines)[1..] == lines;
    assert [] + KeptLines(lines, max) == KeptLines(lines, max);
  }

  /** Split just before the line feed of an oversize line, one blank line more is framed. */
  lemma SplitAddsABlank(a: string, tail: string, max: nat)
    requires |Cut(a).1| > max
    ensures var b := "\n" + tail;
            && FeedAll([a + b], max).1 == KeptLines(Cut(a).0, max) + KeptLines(Cut(tail).0, max)
            && FeedAll([a, b], max).1 == KeptLines(Cut(a).0, max) + ([""] + KeptLines(Cut(tail).0, max))
  {
    var b := "\n" + tail;
    NoLfNoCut("");
    hide Cut, FeedAll, DrainAll, KeptLines;
    OneChunk(a + b, max);
    TwoChunks(a, b, max);
    DrainAllKeeps(a + b, max);
    DrainAllKeeps(a, max);
    DrainAllKeeps("" + b, max);
    CutAtLf(a, tail);
    CutAtLf("", tail);
    KeptConcat(Cut(a).0, [Cut(a).1] + Cut(tail).0, max);
    KeptCons(Cut(a).1, Cut(tail).0, max);
    KeptCons("", Cut(tail).0, max);
    assert [] + ([""] + Cut(tail).0) == [""] + Cut(tail).0;
  }

  /**
   Chunk independence, exactly. The lines of a stream are independent of how it is split, and are
   then the lines of the whole stream, if and only if every complete line is within the cap; the
   leftover is independent of the split if and only if the unfinished rest is within the cap.
   */
  lemma ChunksDoNotMatter(s: string, max: nat)
    ensures SplitsFrame(s, max) <==> AllWithin(Cut(s).0, max)
    ensures SplitsAgree(s, max) <==> AllWithin(Cut(s).0, max)
    ensures SplitsLeave(s, max) <==> |Cut(s).1| <= max
  {
    if AllWithin(Cut(s).0, max) {
      forall chunks | Stream(chunks) == s ensures FeedAll(chunks, max).1 == LinesOf(s) {
        SplitKeepsLines(chunks, max);
      }
    } else {
      OversizeDependsOnChunks(s, max);
    }
    OneChunk(s, max);
    LeftoverIsCapped(s, max);
    if |Cut(s).1| <= max {
      forall chunks | Stream(chunks) == s ensures FeedAll(chunks, max).0 == Cut(s).1 { SplitKeepsRest(chunks, max); }
    }
  }

  /** With an oversize complete line, some split frames a line that the whole stream does not. */
  lemma OversizeDependsOnChunks(s: string, max: nat)
    requires !AllWithin(Cut(s).0, max)
    ensures !SplitsAgree(s, max) && !SplitsFrame(s, max)
  {
    hide Cut, FeedAll, KeptLines, DrainAll, AllWithin;
    var a, tail := BeyondTheCap(s, max);
    var b := "\n" + tail;
    SplitAddsABlank(a, tail, max);
    KeptIsAll(Cut(s).0, max);
    DrainAllKeeps(s, max);
    OneChunk(s, max);
    TwoChunks(a, b, max);
    assert |FeedAll([s], max).1| < |FeedAll([a, b], max).1|;
  }

  // ---- events --------------------------------------------------------------

  function JoinLf(lines: seq<string>): string
    requires lines != []
  {
    if |lines| == 1 then lines[0] else lines[0] + "\n" + JoinLf(lines[1..])
  }

  predicate StartsWith(s: string, p: string) {
    |p| <= |s| && s[..|p|] == p
  }

  /** Drop exactly one leading space. */
  function OneSpaceOff(s: string): string {
    if s != "" && s[0] == ' ' then s[1..] else s
  }

  /** The gossip accumulator: the data lines so far, and the payload a blank line dispatches. */
  function Process(data: seq<string>, line: string): (seq<string>, Option<string>) {
    if line == "" then (if data == [] then ([], None) else ([], Some(JoinLf(data))))
    else if line[0] == ':' then (data, None)
    else if StartsWith(line, "data:") then (data + [OneSpaceOff(line[5..])], None)
    else (data, None)
  }

  function ProcessAll(data: seq<string>, lines: seq<string>): (seq<string>, seq<string>) {
    if lines == [] then (data, []) else
      var n := |lines| - 1;
      var (d, es) := ProcessAll(data, lines[..n]);
      var (d', e) := Process(d, lines[n]);
      (d', if e.Some? then es + [e.value] else es)
  }

  lemma {:induction false} ProcessConcat(data: seq<string>, a: seq<string>, b: seq<string>)
    ensures var (d, es) := ProcessAll(data, a); var (d', more) := ProcessAll(d, b);
            ProcessAll(data, a + b) == (d', es + more)
    decreases |b|
  {
    hide Process;
    var (d, es) := ProcessAll(data, a);
    if b == [] {
      assert a + b == a && es + [] == es;
    } else {
      var n := |b| - 1;
      ProcessConcat(data, a, b[..n]);
      AppendLast(a, b);
      var (d1, more) := ProcessAll(d, b[..n]);
      var e := Process(d1, b[n]).1;
      if e.Some? { assert (es + more) + [e.value] == es + (more + [e.value]); }
    }
  }

  lemma AppendLast(a: seq<string>, b: seq<string>)
    requires b != []
    ensures var n := |b| - 1;
            a + b != [] && (a + b)[..|a + b| - 1] == a + b[..n] && (a + b)[|a + b| - 1] == b[n]
  {
  }

  /** The session of `run_sse_loop`: a byte buffer and an accumulator fed chunk by chunk. */
  class SseSession {
    var buf: string
    var data: seq<string>

    constructor ()
      ensures buf == "" && data == []
    {
      buf, data := "", [];
    }

    method DrainLineCapped(max: nat) returns (out: Drained)
      modifies this`buf
      ensures (buf, out) == Drain(old(buf), max)
    {
      var i := 0;
      while i < |buf| && buf[i] != '\n'
        invariant 0 <= i <= |buf| && forall j :: 0 <= j < i ==> buf[j] != '\n'
      {
        i := i + 1;
      }
      assert i == FirstLf(buf);
      if i == |buf| {
        if |buf| > max {
          buf := "";
          return Oversize;
        }
        return Pending;
      }
      var line := buf[..i];
      buf := buf[i + 1..];
      if i > max { return Oversize; }
      if line != "" && line[|line| - 1] == '\r' { line := line[..|line| - 1]; }
      out := Line(line);
    }

    method ProcessLine(line: string) returns (event: Option<string>)
      modifies this`data
      ensures (data, event) == Process(old(data), line)
    {
      if line == "" {
        if data == [] { return None; }
        event := Some(JoinLf(data));
        data := [];
        return;
      }
      if line[0] == ':' { return None; }
      if StartsWith(line, "data:") {
        data := data + [OneSpaceOff(line[5..])];
      }
      event := None;
    }

    /** One chunk: append it, then process every complete line now available. */
    method Feed(chunk: string, max: nat) returns (ghost lines: seq<string>, events: seq<string>)
      modifies this
      ensures (buf, lines) == DrainAll(old(buf) + chunk, max)
      ensures (data, events) == ProcessAll(old(data), lines)
      ensures |buf| <= max
    {
      buf := buf + chunk;
      lines, events := [], [];
      ghost var all := buf;
      LeftoverIsCapped(all, max);
      ThenNothing(DrainAll(all, max), buf);
      var more := true;
      while more
        invariant (data, events) == ProcessAll(old(data), lines)
        invariant DrainAll(all, max) == Then(lines, DrainAll(buf, max))
        invariant !more ==> DrainAll(buf, max) == (buf, [])
        decreases |buf|, more
      {
        ghost var rest := buf;
        var out := DrainLineCapped(max);
        match out
        case Line(l) =>
          var event := ProcessLine(l);
          ghost var before := lines;
          lines := lines + [l];
          assert lines[..|lines| - 1] == before;
          ThenLine(before, l, DrainAll(buf, max));
          if event.Some? { events := events + [event.value]; }
        case Oversize =>
        case Pending => more := false;
      }
      ThenNothing((buf, lines), buf);
    }
  }

  /** Lines already taken, then the outcome of draining what is left. */
  function Then(lines: seq<string>, rest: (string, seq<string>)): (string, seq<string>) {
    (rest.0, lines + rest.1)
  }

  lemma ThenLine(lines: seq<string>, l: string, rest: (string, seq<string>))
    ensures Then(lines + [l], rest) == Then(lines, (rest.0, [l] + rest.1))
  {
    assert (lines + [l]) + rest.1 == lines + ([l] + rest.1);
  }

  lemma ThenNothing(rest: (string, seq<string>), buf: string)
    ensures Then([], rest) == rest && Then(rest.1, (buf, [])) == (buf, rest.1)
  {
    assert [] + rest.1 == rest.1 && rest.1 + [] == rest.1;
  }

  /** A session fed chunk by chunk dispatches what one fed with the whole stream dispatches. */
  function Session(chunks: seq<string>, max: nat): (string, seq<string>, seq<string>) {
    if chunks == [] then ("", [], []) else
      var (buf, data, es) := Session(chunks[..|chunks| - 1], max);
      var (left, lines) := DrainAll(buf + chunks[|chunks| - 1], max);
      var (d, more) := ProcessAll(data, lines);
      (left, d, es + more)
  }

  lemma {:induction false} SessionReadsLines(chunks: seq<string>, max: nat)
    ensures var (buf, lines) := FeedAll(chunks, max); var (d, es) := ProcessAll([], lines);
            Session(chunks, max) == (buf, d, es)
    decreases |chunks|
  {
    if chunks != [] {
      var n := |chunks| - 1;
      SessionReadsLines(chunks[..n], max);
      var (buf, lines) := FeedAll(chunks[..n], max);
      ProcessConcat([], lines, DrainAll(buf + chunks[n], max).1);
    }
  }

  /**
   Two splits of a stream whose complete lines are within the cap dispatch the same events and
   collect the same data, those of the whole stream; both end with the same buffer when the
   unfinished rest is within the cap too.
   */
  lemma SameStreamSameEvents(a: seq<string>, b: seq<string>, max: nat)
    requires Stream(a) == Stream(b) && AllWithin(Cut(Stream(a)).0, max)
    ensures Session(a, max).1 == Session(b, max).1 && Session(a, max).2 == Session(b, max).2
    ensures (Session(a, max).1, Session(a, max).2) == ProcessAll([], LinesOf(Stream(a)))
    ensures |Cut(Stream(a)).1| <= max ==> Session(a, max).0 == Session(b, max).0 == Cut(Stream(a)).1
  {
    SplitKeepsLines(a, max);
    SplitKeepsLines(b, max);
    SessionReadsLines(a, max);
    SessionReadsLines(b, max);
  }

  function Repeat(c: char, n: nat): string {
    seq(n, i => c)
  }

  /**
   What a split of an oversize line can do to the events: the blank line it leaves behind ends an
   event that the stream has not ended.
   */
  lemma OversizeLineEndsAnEvent(max: nat)
    requires max >= 6
    ensures var a, b := "data:a\n" + Repeat('x', max + 1), "\n";
            Session([a + b], max).2 == [] && Session([a, b], max).2 == ["a"]
  {
    var long := Repeat('x', max + 1);
    var a := "data:a\n" + long;
    DataLineThenLong(long);
    BlankAfterLong(a, long, max);
    SessionReadsLines([a + "\n"], max);
    SessionReadsLines([a, "\n"], max);
    hide FeedAll, Session, Cut, ProcessAll;
    DataThenBlank();
  }

  lemma BlankAfterLong(a: string, long: string, max: nat)
    requires max >= 6 && Cut(a) == (["data:a"], long) && |long| > max
    ensures FeedAll([a + "\n"], max).1 == ["data:a"]
    ensures FeedAll([a, "\n"], max).1 == ["data:a", ""]
  {
    NoLfNoCut("");
    assert "\n" + "" == "\n";
    hide Cut, FeedAll;
    SplitAddsABlank(a, "", max);
    DataLineKept(max);
    NothingKept(max);
    hide KeptLines;
    assert ["data:a"] + [] == ["data:a"] && ["data:a"] + ([""] + []) == ["data:a", ""];
  }

  lemma DataLineKept(max: nat)
    requires max >= 6
    ensures KeptLines(["data:a"], max) == ["data:a"]
  {
    KeptCons("data:a", [], max);
    NothingKept(max);
    assert ["data:a"] + [] == ["data:a"] && |"data:a"| == 6 && StripCr("data:a") == "data:a";
  }

  lemma NothingKept(max: nat)
    ensures KeptLines([], max) == []
  {
  }

  lemma DataLineThenLong(long: string)
    requires '\n' !in long
    ensures Cut("data:a\n" + long) == (["data:a"], long)
  {
    NoLfNoCut(long);
    assert "data:a\n" == "data:a" + "\n";
    CutLine("data:a", long);
    assert ["data:a"] + [] == ["data:a"];
  }

  lemma DataThenBlank()
    ensures ProcessAll([], ["data:a"]) == (["a"], []) && ProcessAll([], ["data:a", ""]) == ([], ["a"])
  {
    assert ["data:a"][..0] == [] && ["data:a", ""][..1] == ["data:a"];
    assert "data:a"[..5] == "data:" && "data:a"[5..] == "a";
    assert [] + ["a"] == ["a"] && JoinLf(["a"]) == "a";
  }
}
