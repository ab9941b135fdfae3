/**
 Writing an event and reading it back: a payload sent as `data:` lines is dispatched unchanged, by the
 gossip accumulator (src/transport.rs) and by the direct-message accumulator, which also needs the
 event's name (src/direct_transport.rs).
 */
module SseRoundTrip {
  import opened Options
  import opened Sse
  import opened Text

  // ---- splitting and joining a payload -------------------------------------

  /** All lines of a payload, the last one included. */
  function SplitLf(p: string): (ls: seq<string>)
    ensures ls != []
  {
    Cut(p).0 + [Cut(p).1]
  }

  lemma {:induction false} JoinSplit(p: string)
    ensures JoinLf(SplitLf(p)) == p
    ensures forall i :: 0 <= i < |SplitLf(p)| ==> '\n' !in SplitLf(p)[i]
    decreases |p|
  {
    if FirstLf(p) < |p| {
      var line, tail := FirstLine(p);
      CutLine(line, tail);
      JoinSplit(tail);
      assert SplitLf(p) == [line] + SplitLf(tail);
      assert SplitLf(p)[1..] == SplitLf(tail);
    } else {
      assert SplitLf(p) == [p];
    }
  }

  /** `data: ` in front of every line. */
  function DataLines(ls: seq<string>): string {
    if ls == [] then "" else "data: " + ls[0] + "\n" + DataLines(ls[1..])
  }

  /** The event on the wire: its data lines and a blank line. */
  function Encode(p: string): string {
    DataLines(SplitLf(p)) + "\n"
  }

  function Prefixed(ls: seq<string>): seq<string> {
    seq(|ls|, i requires 0 <= i < |ls| => "data: " + ls[i])
  }

  lemma {:induction false} CutDataLines(ls: seq<string>)
    requires forall i :: 0 <= i < |ls| ==> '\n' !in ls[i]
    ensures Cut(DataLines(ls) + "\n") == (Prefixed(ls) + [""], "")
  {
    if ls == [] {
      CutLine("", "");
      assert DataLines(ls) + "\n" == "" + "\n" + "";
      assert Cut("") == ([], "") && [""] + Cut("").0 == [""];
      assert Prefixed(ls) == [] && Prefixed(ls) + [""] == [""];
    } else {
      CutDataLines(ls[1..]);
      OneMoreLine("data: " + ls[0], DataLines(ls[1..]) + "\n", Prefixed(ls[1..]));
      assert DataLines(ls) + "\n" == "data: " + ls[0] + "\n" + (DataLines(ls[1..]) + "\n");
      assert Prefixed(ls) == ["data: " + ls[0]] + Prefixed(ls[1..]);
    }
  }

  lemma OneMoreLine(head: string, rest: string, more: seq<string>)
    requires '\n' !in head && Cut(rest) == (more + [""], "")
    ensures Cut(head + "\n" + rest) == (([head] + more) + [""], "")
  {
    CutLine(head, rest);
    assert [head] + (more + [""]) == ([head] + more) + [""];
  }

  lemma StripPrefixed(l: string)
    ensures StripCr("data: " + l) == "data: " + StripCr(l)
  {
    var s := "data: " + l;
    if l != "" { assert s[|s| - 1] == l[|l| - 1]; }
  }

  lemma LinesOfEncode(p: string)
    ensures LinesOf(Encode(p)) == Prefixed(StripAll(SplitLf(p))) + [""]
    ensures Cut(Encode(p)).1 == ""
  {
    JoinSplit(p);
    var ls := SplitLf(p);
    CutDataLines(ls);
    forall i | 0 <= i < |ls| ensures StripCr(Prefixed(ls)[i]) == Prefixed(StripAll(ls))[i] { StripPrefixed(ls[i]); }
  }

  // ---- what framing does to a stream ---------------------------------------

  /**
   A stream is its lines with a line feed after each, and the rest; a framed line is such a line
   without the one carriage return it may end with.
   */
  lemma LinesAreFramed(s: string)
    ensures JoinLf(Cut(s).0 + [Cut(s).1]) == s && '\n' !in Cut(s).1
    ensures |LinesOf(s)| == |Cut(s).0|
    ensures forall i :: 0 <= i < |LinesOf(s)| ==>
              var line, raw := LinesOf(s)[i], Cut(s).0[i];
              '\n' !in raw && (raw == line + "\r" || (raw == line && (line == "" || line[|line| - 1] != '\r')))
  {
    JoinSplit(s);
    NoLfInRest(s);
    var raws := Cut(s).0;
    forall i | 0 <= i < |raws|
      ensures var line, raw := LinesOf(s)[i], raws[i];
              '\n' !in raw && (raw == line + "\r" || (raw == line && (line == "" || line[|line| - 1] != '\r')))
    {
      assert SplitLf(s)[i] == raws[i];
    }
  }

  // ---- events from lines ---------------------------------------------------

  /** The values of the `data:` lines, in order, each without one leading space. */
  function DataValues(lines: seq<string>): seq<string> {
    if lines == [] then [] else
      var n := |lines| - 1;
      var l := lines[n];
      DataValues(lines[..n]) +
      (if |l| < 5 || l[..5] != "data:" then [] else if |l| > 5 && l[5] == ' ' then [l[6..]] else [l[5..]])
  }

  predicate NoBlank(lines: seq<string>) {
    forall i :: 0 <= i < |lines| ==> lines[i] != ""
  }

  lemma {:induction false} LinesCollect(lines: seq<string>)
    requires NoBlank(lines)
    ensures ProcessAll([], lines) == (DataValues(lines), [])
    decreases |lines|
  {
    if lines != [] {
      var n := |lines| - 1;
      LinesCollect(lines[..n]);
      assert DataValues(lines[..n]) + [] == DataValues(lines[..n]);
    }
  }

  /**
   Lines up to a blank one dispatch the values of their `data:` lines, joined by line feeds, and nothing
   when there is no such line; comments and other fields do not matter, and nothing is carried over.
   */
  lemma BlockDispatches(lines: seq<string>)
    requires NoBlank(lines)
    ensures var values := DataValues(lines);
            ProcessAll([], lines + [""]) == ([], if values == [] then [] else [JoinLf(values)])
  {
    LinesCollect(lines);
    var values, all := DataValues(lines), lines + [""];
    assert all[..|all| - 1] == lines && all[|all| - 1] == "";
    hide DataValues, JoinLf;
    if values != [] { assert [] + [JoinLf(values)] == [JoinLf(values)]; }
  }

  // ---- the gossip accumulator ----------------------------------------------

  lemma DataLineReads(data: seq<string>, l: string)
    ensures Process(data, "data: " + l) == (data + [l], None)
  {
    var line := "data: " + l;
    assert line[..5] == "data:" && line[5..] == " " + l && line[5..][1..] == l;
  }

  lemma {:induction false} DataLinesAccumulate(data: seq<string>, ls: seq<string>)
    ensures ProcessAll(data, Prefixed(ls)) == (data + ls, [])
    decreases |ls|
  {
    if ls == [] {
      assert data + ls == data;
    } else {
      var n := |ls| - 1;
      DataLinesAccumulate(data, ls[..n]);
      DataLineReads(data + ls[..n], ls[n]);
      assert Prefixed(ls)[..n] == Prefixed(ls[..n]) && Prefixed(ls)[n] == "data: " + ls[n];
      assert data + ls[..n] + [ls[n]] == data + ls;
    }
  }

  function TotalLength(ls: seq<string>): nat {
    if ls == [] then 0 else |ls[0]| + TotalLength(ls[1..])
  }

  lemma {:induction false} JoinLength(ls: seq<string>)
    requires ls != []
    ensures |JoinLf(ls)| == TotalLength(ls) + |ls| - 1
  {
    if |ls| > 1 { JoinLength(ls[1..]); } else { assert TotalLength(ls[1..]) == 0; }
  }

  lemma {:induction false} StripShortens(ls: seq<string>)
    ensures TotalLength(StripAll(ls)) <= TotalLength(ls)
    ensures TotalLength(StripAll(ls)) == TotalLength(ls) <==> StripAll(ls) == ls
  {
    if ls != [] {
      StripShortens(ls[1..]);
      assert StripAll(ls)[1..] == StripAll(ls[1..]);
      assert StripAll(ls) == [StripCr(ls[0])] + StripAll(ls[1..]);
      assert ls == [ls[0]] + ls[1..];
    }
  }

  /** No line of the payload ends in a carriage return. */
  predicate CrSafe(p: string) {
    forall i :: 0 <= i < |SplitLf(p)| ==> StripCr(SplitLf(p)[i]) == SplitLf(p)[i]
  }

  /**
   An encoded payload is dispatched as one event and nothing is left over; the event is the payload
   itself exactly when no line of it ends in a carriage return, which framing removes.
   */
  lemma PayloadRoundTrip(p: string)
    ensures var (left, events) := ProcessAll([], LinesOf(Encode(p)));
            && left == [] && |events| == 1 && Cut(Encode(p)).1 == ""
            && (events == [p] <==> CrSafe(p))
  {
    var ls := SplitLf(p);
    var got := StripAll(ls);
    LinesOfEncode(p);
    DataLinesAccumulate([], got);
    assert [] + got == got;
    var all := Prefixed(got) + [""];
    assert all[..|all| - 1] == Prefixed(got);
    assert ProcessAll([], all) == ([], [] + [JoinLf(got)]);
    StrippedJoin(p);
  }

  lemma StrippedJoin(p: string)
    ensures JoinLf(StripAll(SplitLf(p))) == p <==> CrSafe(p)
  {
    var ls := SplitLf(p);
    var got := StripAll(ls);
    JoinSplit(p);
    StripShortens(ls);
    JoinLength(ls);
    JoinLength(got);
    hide SplitLf, JoinLf, TotalLength, StripCr;
    if JoinLf(got) == p { assert got == ls; assert forall i :: 0 <= i < |ls| ==> got[i] == ls[i]; }
    if CrSafe(p) { assert got == ls; }
  }

  // ---- the direct-message accumulator --------------------------------------

  datatype DirectState = DirectState(event: Option<string>, data: seq<string>)

  const LIVE_EVENT := "direct_message"
  const REPLAY_EVENT := "history_direct_message"

  /** A blank line dispatches only the two message events; anything else is dropped with its data. */
  function DirectStep(s: DirectState, line: string): (DirectState, Option<(bool, string)>) {
    if line == "" then
      if s.data == [] then (DirectState(None, []), None)
      else if s.event == Some(LIVE_EVENT) then (DirectState(None, []), Some((false, JoinLf(s.data))))
      else if s.event == Some(REPLAY_EVENT) then (DirectState(None, []), Some((true, JoinLf(s.data))))
      else (DirectState(None, []), None)
    else if line[0] == ':' then (s, None)
    else if StartsWith(line, "event:") then (s.(event := Some(Trim(OneSpaceOff(line[6..])))), None)
    else if StartsWith(line, "data:") then (s.(data := s.data + [OneSpaceOff(line[5..])]), None)
    else (s, None)
  }

  function DirectAll(s: DirectState, lines: seq<string>): (DirectState, seq<(bool, string)>) {
    if lines == [] then (s, []) else
      var n := |lines| - 1;
      var (t, es) := DirectAll(s, lines[..n]);
      var (t', e) := DirectStep(t, lines[n]);
      (t', if e.Some? then es + [e.value] else es)
  }

  class DirectSseAccumulator {
    var event: Option<string>
    var data: seq<string>

    constructor ()
      ensures DirectState(event, data) == DirectState(None, [])
    {
      event, data := None, [];
    }

    method ProcessLine(line: string) returns (out: Option<(bool, string)>)
      modifies this
      ensures (DirectState(event, data), out) == DirectStep(DirectState(old(event), old(data)), line)
    {
      if line == "" {
        var name := event;
        event := None;
        if data == [] { return None; }
        var payload := JoinLf(data);
        data := [];
        if name == Some(LIVE_EVENT) { return Some((false, payload)); }
        if name == Some(REPLAY_EVENT) { return Some((true, payload)); }
        return None;
      }
      if line[0] == ':' { return None; }
      if StartsWith(line, "event:") {
        event := Some(Trim(OneSpaceOff(line[6..])));
        return None;
      }
      if StartsWith(line, "data:") {
        data := data + [OneSpaceOff(line[5..])];
      }
      out := None;
    }
  }

  /** The name on the last `event:` line. */
  function LastName(lines: seq<string>): Option<string> {
    if lines == [] then None else
      var n := |lines| - 1;
      var l := lines[n];
      if |l| < 6 || l[..6] != "event:" then LastName(lines[..n])
      else Some(Trim(if |l| > 6 && l[6] == ' ' then l[7..] else l[6..]))
  }

  lemma {:induction false} DirectLinesCollect(lines: seq<string>)
    requires NoBlank(lines)
    ensures DirectAll(DirectState(None, []), lines) == (DirectState(LastName(lines), DataValues(lines)), [])
    decreases |lines|
  {
    if lines != [] {
      var n := |lines| - 1;
      DirectLinesCollect(lines[..n]);
      var l := lines[n];
      assert DataValues(lines[..n]) + [] == DataValues(lines[..n]);
      if l[0] == 'e' { assert !StartsWith(l, "data:"); } else { assert !StartsWith(l, "event:"); }
    }
  }

  /**
   Lines up to a blank one dispatch one direct message when the last `event:` line names a live or a
   replayed one and there is data; any other block is dropped, and nothing is carried over.
   */
  lemma DirectBlockDispatches(lines: seq<string>)
    requires NoBlank(lines)
    ensures var name, values := LastName(lines), DataValues(lines);
            DirectAll(DirectState(None, []), lines + [""]) ==
            (DirectState(None, []),
             if values == [] then []
             else if name == Some("direct_message") then [(false, JoinLf(values))]
             else if name == Some("history_direct_message") then [(true, JoinLf(values))]
             else [])
  {
    DirectLinesCollect(lines);
    var name, values := LastName(lines), DataValues(lines);
    NextDirectLine(DirectState(None, []), lines, "");
    hide DirectAll, DataValues, LastName, JoinLf;
    if values != [] {
      assert [] + [(false, JoinLf(values))] == [(false, JoinLf(values))];
      assert [] + [(true, JoinLf(values))] == [(true, JoinLf(values))];
    }
  }

  lemma NextDirectLine(s: DirectState, lines: seq<string>, l: string)
    ensures var (t, es) := DirectAll(s, lines); var (t', e) := DirectStep(t, l);
            DirectAll(s, lines + [l]) == (t', if e.Some? then es + [e.value] else es)
  {
    hide DirectStep;
    var all := lines + [l];
    assert all[..|all| - 1] == lines && all[|all| - 1] == l;
  }

  function EncodeNamed(name: string, p: string): string {
    "event: " + name + "\n" + Encode(p)
  }

  lemma DirectDataLineReads(s: DirectState, l: string)
    ensures DirectStep(s, "data: " + l) == (s.(data := s.data + [l]), None)
  {
    var line := "data: " + l;
    assert line[..5] == "data:" && line[5..] == " " + l && line[5..][1..] == l && line[0] == 'd';
    assert !StartsWith(line, "event:");
  }

  lemma {:induction false} DirectDataLines(s: DirectState, first: string, ls: seq<string>)
    requires DirectStep(DirectState(None, []), first) == (s, None) && s.data == []
    ensures DirectAll(DirectState(None, []), [first] + Prefixed(ls)) == (s.(data := ls), [])
    decreases |ls|
  {
    var start := DirectState(None, []);
    var all := [first] + Prefixed(ls);
    if ls == [] {
      assert all == [first] && all[..0] == [];
      assert DirectAll(start, all[..0]) == (start, []);
    } else {
      var n := |ls| - 1;
      DirectDataLines(s, first, ls[..n]);
      DirectDataLineReads(s.(data := ls[..n]), ls[n]);
      assert all[..n + 1] == [first] + Prefixed(ls[..n]) && all[n + 1] == "data: " + ls[n];
      assert ls[..n] + [ls[n]] == ls;
    }
  }

  lemma EventLineReads(name: string)
    requires name == LIVE_EVENT || name == REPLAY_EVENT
    ensures StripCr("event: " + name) == "event: " + name && '\n' !in "event: " + name
    ensures DirectStep(DirectState(None, []), "event: " + name) == (DirectState(Some(name), []), None)
  {
    var line := "event: " + name;
    assert line[..6] == "event:" && line[6..] == " " + name && line[6..][1..] == name && line[0] == 'e';
    assert line[|line| - 1] == name[|name| - 1] == 'e';
    assert TrimLeft(name) == name && TrimRight(name) == name;
    EventLineIsOneLine(name);
  }

  lemma EventLineIsOneLine(name: string)
    requires name == LIVE_EVENT || name == REPLAY_EVENT
    ensures '\n' !in "event: " + name
  {
    assert '\n' !in "event: " && '\n' !in LIVE_EVENT && '\n' !in REPLAY_EVENT;
  }

  /**
   A direct-message event, live or replayed, is dispatched once and flagged as what it is; it is
   unchanged exactly when no line of it ends in a carriage return.
   */
  lemma DirectRoundTrip(replayed: bool, p: string)
    ensures var name := if replayed then REPLAY_EVENT else LIVE_EVENT;
            var (state, events) := DirectAll(DirectState(None, []), LinesOf(EncodeNamed(name, p)));
            && state == DirectState(None, []) && |events| == 1 && events[0].0 == replayed
            && (events[0].1 == p <==> CrSafe(p))
  {
    var name := if replayed then REPLAY_EVENT else LIVE_EVENT;
    var first := "event: " + name;
    var got := StripAll(SplitLf(p));
    EventLineReads(name);
    NamedLines(first, p);
    DirectDataLines(DirectState(Some(name), []), first, got);
    StrippedJoin(p);
    var body := [first] + Prefixed(got);
    var all := body + [""];
    assert all[..|all| - 1] == body && all[|all| - 1] == "";
    hide LinesOf, Encode, Prefixed, SplitLf, JoinLf, StripAll, CrSafe;
    var t := DirectState(Some(name), got);
    assert |LIVE_EVENT| != |REPLAY_EVENT|;
    assert DirectStep(t, "") == (DirectState(None, []), Some((replayed, JoinLf(got))));
    assert [] + [(replayed, JoinLf(got))] == [(replayed, JoinLf(got))];
  }

  lemma NamedLines(first: string, p: string)
    requires StripCr(first) == first && '\n' !in first
    ensures LinesOf(first + "\n" + Encode(p)) == [first] + Prefixed(StripAll(SplitLf(p))) + [""]
  {
    var got := StripAll(SplitLf(p));
    LinesOfEncode(p);
    LinesAfter(first, Encode(p));
    assert [first] + (Prefixed(got) + [""]) == [first] + Prefixed(got) + [""];
  }

  lemma LinesAfter(first: string, rest: string)
    requires '\n' !in first
    ensures LinesOf(first + "\n" + rest) == [StripCr(first)] + LinesOf(rest)
  {
    CutLine(first, rest);
  }
}
