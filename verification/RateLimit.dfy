/**
 The fixed-window rate limiter (src/rate_limit.rs): one window per principal, opened by its first
 request and reopened by the first request at least 60 seconds later.
 */
module RateLimit {
  import opened Options

  const WINDOW_SECS := 60

  datatype Window = Window(start: nat, count: nat)

  type Windows = map<string, Window>

  function SaturatingSub(a: nat, b: nat): nat {
    if a >= b then a - b else 0
  }

  /** The window a request falls in: a fresh one when there is none or it has rolled over. */
  function Current(ws: Windows, principal: string, now: nat): Window {
    if principal !in ws || SaturatingSub(now, ws[principal].start) >= WINDOW_SECS then Window(now, 0) else ws[principal]
  }

  /** The windows after one request, and the retry delay of a refused one. */
  function Check(ws: Windows, principal: string, quota: nat, now: nat): (Windows, Option<nat>) {
    var w := Current(ws, principal, now);
    if w.count >= quota then
      var left := SaturatingSub(WINDOW_SECS, SaturatingSub(now, w.start));
      (ws[principal := w], Some(if left >= 1 then left else 1))
    else (ws[principal := w.(count := w.count + 1)], None)
  }

  class RateLimiter {
    var windows: Windows

    constructor ()
      ensures windows == map[]
    {
      windows := map[];
    }

    /** `check`: None admits; otherwise the seconds until the window rolls, from 1 to 60. */
    method CheckRequest(principal: string, quota: nat, now: nat) returns (retry: Option<nat>)
      modifies this
      ensures (windows, retry) == Check(old(windows), principal, quota, now)
      ensures retry.Some? ==> 1 <= retry.value <= 60
      ensures forall p :: p in old(windows) && p != principal ==> p in windows && windows[p] == old(windows)[p]
    {
      if principal !in windows { windows := windows[principal := Window(now, 0)]; }
      var entry := windows[principal];
      if SaturatingSub(now, entry.start) >= WINDOW_SECS { entry := Window(now, 0); }
      if entry.count >= quota {
        windows := windows[principal := entry];
        assert windows == old(windows)[principal := entry];
        var left := SaturatingSub(WINDOW_SECS, SaturatingSub(now, entry.start));
        return Some(if left >= 1 then left else 1);
      }
      entry := entry.(count := entry.count + 1);
      windows := windows[principal := entry];
      assert windows == old(windows)[principal := entry];
      retry := None;
    }
  }

  // ---- traces --------------------------------------------------------------

  datatype Request = Request(principal: string, now: nat)

  /** An admitted request and the start of the window it was counted in. */
  datatype Admit = Admit(principal: string, now: nat, start: nat)

  /** The windows after a trace, and what it admitted, oldest first. */
  function Serve(trace: seq<Request>, quota: nat): (Windows, seq<Admit>) {
    if trace == [] then (map[], []) else
      var n := |trace| - 1;
      ServeOne(Serve(trace[..n], quota), trace[n], quota)
  }

  function ServeOne(s: (Windows, seq<Admit>), r: Request, quota: nat): (Windows, seq<Admit>) {
    var (ws, retry) := Check(s.0, r.principal, quota, r.now);
    (ws, if retry.None? then s.1 + [Admit(r.principal, r.now, Current(s.0, r.principal, r.now).start)] else s.1)
  }

  ghost predicate ClockRuns(trace: seq<Request>) {
    forall i, j :: 0 <= i < j < |trace| ==> trace[i].now <= trace[j].now
  }

  /** How many admits of one principal a window, or an interval of 60 seconds, holds. */
  function InWindow(log: seq<Admit>, p: string, start: nat): nat {
    if log == [] then 0 else
      var a := log[|log| - 1];
      InWindow(log[..|log| - 1], p, start) + (if a.principal == p && a.start == start then 1 else 0)
  }

  function InMinute(log: seq<Admit>, p: string, t: nat): nat {
    if log == [] then 0 else
      var a := log[|log| - 1];
      InMinute(log[..|log| - 1], p, t) + (if a.principal == p && t <= a.now < t + 60 then 1 else 0)
  }

  // ---- the invariant -------------------------------------------------------

  predicate AdmitOk(a: Admit) {
    a.start <= a.now < a.start + 60
  }

  /** Windows of one principal that differ start at least 60 seconds apart. */
  predicate Apart(a: nat, b: nat) {
    a == b || a + 60 <= b
  }

  ghost predicate GrantsOk(ws: Windows, log: seq<Admit>, quota: nat, clock: nat) {
    && (forall i :: 0 <= i < |log| ==> AdmitOk(log[i]) && log[i].now <= clock)
    && (forall i, j :: 0 <= i < j < |log| && log[i].principal == log[j].principal ==> Apart(log[i].start, log[j].start))
    && (forall i :: 0 <= i < |log| ==> log[i].principal in ws && Apart(log[i].start, ws[log[i].principal].start))
    && (forall p :: p in ws ==> WindowOk(log, p, ws[p], quota, clock))
    && (forall p, s :: InWindow(log, p, s) <= quota)
  }

  predicate WindowOk(log: seq<Admit>, p: string, w: Window, quota: nat, clock: nat) {
    w.count == InWindow(log, p, w.start) && w.count <= quota && w.start <= clock
  }

  lemma {:induction false} NoneBefore(log: seq<Admit>, p: string, start: nat)
    requires forall i :: 0 <= i < |log| && log[i].principal == p ==> log[i].start != start
    ensures InWindow(log, p, start) == 0
  {
    if log != [] { NoneBefore(log[..|log| - 1], p, start); }
  }

  /** The window a request is counted in holds what its count says. */
  lemma CurrentCounts(ws: Windows, log: seq<Admit>, quota: nat, clock: nat, p: string, now: nat)
    requires GrantsOk(ws, log, quota, clock) && clock <= now
    ensures var w := Current(ws, p, now);
            && w.count == InWindow(log, p, w.start) && w.start <= now < w.start + 60
            && forall i :: 0 <= i < |log| && log[i].principal == p ==> Apart(log[i].start, w.start)
  {
    if p in ws { assert WindowOk(log, p, ws[p], quota, clock); }
    var w := Current(ws, p, now);
    if p !in ws || w != ws[p] {
      forall i | 0 <= i < |log| && log[i].principal == p ensures log[i].start != now && Apart(log[i].start, now) {
        assert AdmitOk(log[i]) && Apart(log[i].start, ws[p].start);
      }
      NoneBefore(log, p, now);
    }
  }

  lemma AppendCounts(log: seq<Admit>, a: Admit, p: string, s: nat)
    ensures InWindow(log + [a], p, s) == InWindow(log, p, s) + (if a.principal == p && a.start == s then 1 else 0)
  {
    assert (log + [a])[..|log|] == log;
  }

  /** One request either refuses and stores its window, or counts itself in it. */
  lemma CheckEffect(ws: Windows, log: seq<Admit>, quota: nat, r: Request)
    ensures var w := Current(ws, r.principal, r.now);
            ServeOne((ws, log), r, quota) ==
              if w.count >= quota then (ws[r.principal := w], log)
              else (ws[r.principal := w.(count := w.count + 1)], log + [Admit(r.principal, r.now, w.start)])
  {
    hide Current, SaturatingSub;
  }

  /** One more admission in the window `w` of `p`: every window still holds at most the quota. */
  lemma GrantKeepsCounts(log: seq<Admit>, quota: nat, a: Admit, w: Window, q: string)
    requires w.start == a.start && w.count == InWindow(log, a.principal, w.start) && w.count < quota
    requires forall s :: InWindow(log, q, s) <= quota
    ensures forall s :: InWindow(log + [a], q, s) <= quota
    ensures q == a.principal ==> InWindow(log + [a], q, w.start) == w.count + 1
    ensures q != a.principal ==> forall s :: InWindow(log + [a], q, s) == InWindow(log, q, s)
  {
    hide InWindow;
    forall s
      ensures InWindow(log + [a], q, s) <= quota
      ensures q != a.principal ==> InWindow(log + [a], q, s) == InWindow(log, q, s)
    {
      AppendCounts(log, a, q, s);
    }
    AppendCounts(log, a, q, w.start);
  }

  lemma KnownWindow(ws: Windows, log: seq<Admit>, quota: nat, clock: nat, q: string)
    requires GrantsOk(ws, log, quota, clock)
    ensures q in ws ==> WindowOk(log, q, ws[q], quota, clock)
    ensures forall s :: InWindow(log, q, s) <= quota
  {
  }

  lemma RequestKeepsCounts(ws: Windows, log: seq<Admit>, quota: nat, clock: nat, r: Request, q: string)
    requires GrantsOk(ws, log, quota, clock) && clock <= r.now
    ensures var (ws', log') := ServeOne((ws, log), r, quota);
            && (forall s :: InWindow(log', q, s) <= quota)
            && (q in ws' ==> WindowOk(log', q, ws'[q], quota, r.now))
  {
    hide GrantsOk, Current, ServeOne, InWindow, Apart;
    var w := Current(ws, r.principal, r.now);
    CurrentCounts(ws, log, quota, clock, r.principal, r.now);
    CheckEffect(ws, log, quota, r);
    KnownWindow(ws, log, quota, clock, q);
    KnownWindow(ws, log, quota, clock, r.principal);
    if w.count < quota { GrantKeepsCounts(log, quota, Admit(r.principal, r.now, w.start), w, q); }
  }

  lemma RequestKeepsStarts(ws: Windows, log: seq<Admit>, quota: nat, clock: nat, r: Request)
    requires GrantsOk(ws, log, quota, clock) && clock <= r.now
    ensures var (ws', log') := ServeOne((ws, log), r, quota);
            && (forall i :: 0 <= i < |log'| ==> AdmitOk(log'[i]) && log'[i].now <= r.now)
            && (forall i, j :: 0 <= i < j < |log'| && log'[i].principal == log'[j].principal ==>
                Apart(log'[i].start, log'[j].start))
            && (forall i :: 0 <= i < |log'| ==>
                log'[i].principal in ws' && Apart(log'[i].start, ws'[log'[i].principal].start))
  {
    CurrentCounts(ws, log, quota, clock, r.principal, r.now);
    CheckEffect(ws, log, quota, r);
    hide Current, ServeOne, InWindow, WindowOk, Apart;
    assert Apart(Current(ws, r.principal, r.now).start, Current(ws, r.principal, r.now).start) by {
      SamePoint(Current(ws, r.principal, r.now).start);
    }
  }

  lemma SamePoint(s: nat)
    ensures Apart(s, s)
  {
  }

  lemma RequestKeepsLog(ws: Windows, log: seq<Admit>, quota: nat, clock: nat, r: Request)
    requires GrantsOk(ws, log, quota, clock) && clock <= r.now
    ensures var (ws', log') := ServeOne((ws, log), r, quota); GrantsOk(ws', log', quota, r.now)
  {
    var (ws', log') := ServeOne((ws, log), r, quota);
    RequestKeepsStarts(ws, log, quota, clock, r);
    forall q, s ensures InWindow(log', q, s) <= quota { RequestKeepsCounts(ws, log, quota, clock, r, q); }
    forall q | q in ws' ensures WindowOk(log', q, ws'[q], quota, r.now) {
      RequestKeepsCounts(ws, log, quota, clock, r, q);
    }
    hide InWindow, WindowOk, ServeOne, AdmitOk, Apart;
  }

  lemma {:induction false} ServeKeepsLog(trace: seq<Request>, quota: nat)
    requires ClockRuns(trace)
    ensures var (ws, log) := Serve(trace, quota);
            GrantsOk(ws, log, quota, if trace == [] then 0 else trace[|trace| - 1].now)
    decreases |trace|
  {
    if trace != [] {
      var n := |trace| - 1;
      ServeKeepsLog(trace[..n], quota);
      var (ws, log) := Serve(trace[..n], quota);
      RequestKeepsLog(ws, log, quota, if n == 0 then 0 else trace[n - 1].now, trace[n]);
    }
  }

  // ---- the bound -----------------------------------------------------------

  predicate Counted(log: seq<Admit>, p: string, t: nat, i: int) {
    0 <= i < |log| && log[i].principal == p && t <= log[i].now < t + 60
  }

  lemma {:induction false} CoveredByTwo(log: seq<Admit>, p: string, t: nat, s1: nat, s2: nat)
    requires forall i :: Counted(log, p, t, i) ==> log[i].start == s1 || log[i].start == s2
    ensures InMinute(log, p, t) <= InWindow(log, p, s1) + InWindow(log, p, s2)
  {
    if log != [] {
      var n := |log| - 1;
      forall i | Counted(log[..n], p, t, i) ensures log[..n][i].start == s1 || log[..n][i].start == s2 {
        assert Counted(log, p, t, i);
      }
      CoveredByTwo(log[..n], p, t, s1, s2);
      if InMinute(log, p, t) != InMinute(log[..n], p, t) { assert Counted(log, p, t, n); }
    }
  }

  /** Sixty seconds meet at most two windows: starts of three would span at least two minutes. */
  lemma TwoWindows(ws: Windows, log: seq<Admit>, quota: nat, clock: nat, p: string, t: nat) returns (s1: nat, s2: nat)
    requires GrantsOk(ws, log, quota, clock)
    ensures forall i :: Counted(log, p, t, i) ==> log[i].start == s1 || log[i].start == s2
  {
    s1, s2 := 0, 0;
    if i :| Counted(log, p, t, i) {
      s1, s2 := log[i].start, log[i].start;
      if j :| Counted(log, p, t, j) && log[j].start != s1 {
        s2 := log[j].start;
        forall k | Counted(log, p, t, k) ensures log[k].start == s1 || log[k].start == s2 {
          StartsClose(ws, log, quota, clock, p, t, i, j);
          StartsClose(ws, log, quota, clock, p, t, i, k);
          StartsClose(ws, log, quota, clock, p, t, j, k);
        }
      }
    }
  }

  lemma StartsClose(ws: Windows, log: seq<Admit>, quota: nat, clock: nat, p: string, t: nat, i: int, j: int)
    requires GrantsOk(ws, log, quota, clock) && Counted(log, p, t, i) && Counted(log, p, t, j)
    ensures -120 < log[i].start - log[j].start < 120
    ensures log[i].start != log[j].start ==> log[i].start + 60 <= log[j].start || log[j].start + 60 <= log[i].start
  {
    assert AdmitOk(log[i]) && AdmitOk(log[j]);
    if i < j { assert Apart(log[i].start, log[j].start); }
    if j < i { assert Apart(log[j].start, log[i].start); }
  }

  /**
   The rate bound: with a clock that does not go back, every window admits at most the quota of one
   principal, and every interval of 60 seconds at most twice the quota.
   */
  lemma RateBound(trace: seq<Request>, quota: nat, p: string, t: nat, start: nat)
    requires ClockRuns(trace)
    ensures InWindow(Serve(trace, quota).1, p, start) <= quota
    ensures InMinute(Serve(trace, quota).1, p, t) <= 2 * quota
  {
    ServeKeepsLog(trace, quota);
    var (ws, log) := Serve(trace, quota);
    var s1, s2 := TwoWindows(ws, log, quota, if trace == [] then 0 else trace[|trace| - 1].now, p, t);
    CoveredByTwo(log, p, t, s1, s2);
  }

  // ---- who is refused, and for how long ------------------------------------

  lemma {:induction false} WindowIsWithin(log: seq<Admit>, p: string, start: nat, t: nat)
    requires forall i :: 0 <= i < |log| && log[i].principal == p && log[i].start == start ==> t <= log[i].now < t + 60
    ensures InWindow(log, p, start) <= InMinute(log, p, t)
  {
    if log != [] {
      var n := |log| - 1;
      forall i | 0 <= i < n && log[..n][i].principal == p && log[..n][i].start == start
        ensures t <= log[..n][i].now < t + 60
      {
        assert log[..n][i] == log[i];
      }
      WindowIsWithin(log[..n], p, start, t);
    }
  }

  /** One more request on top of a trace, at a clock that does not go back. */
  ghost predicate Next(trace: seq<Request>, r: Request) {
    ClockRuns(trace) && (trace != [] ==> trace[|trace| - 1].now <= r.now)
  }

  /**
   A request is refused only when at least the quota of its principal was admitted in the last sixty
   seconds. The delay it is told is exact: it is refused again for as long as that, and admitted then.
   */
  lemma RefusedExactly(trace: seq<Request>, quota: nat, r: Request)
    requires Next(trace, r)
    ensures var (ws, log) := Serve(trace, quota);
            var (after, retry) := Check(ws, r.principal, quota, r.now);
            retry.Some? ==>
              && InMinute(log, r.principal, if r.now >= 59 then r.now - 59 else 0) >= quota
              && 1 <= retry.value <= 60
              && (forall later: nat :: r.now <= later < r.now + retry.value ==>
                  Check(after, r.principal, quota, later).1.Some?)
              && (quota > 0 ==> Check(after, r.principal, quota, r.now + retry.value).1.None?)
  {
    ServeKeepsLog(trace, quota);
    var (ws, log) := Serve(trace, quota);
    var clock := if trace == [] then 0 else trace[|trace| - 1].now;
    CurrentCounts(ws, log, quota, clock, r.principal, r.now);
    var w := Current(ws, r.principal, r.now);
    if w.count >= quota {
      forall i | 0 <= i < |log| && log[i].principal == r.principal && log[i].start == w.start
        ensures var t := if r.now >= 59 then r.now - 59 else 0; t <= log[i].now < t + 60
      {
        assert AdmitOk(log[i]);
      }
      WindowIsWithin(log, r.principal, w.start, if r.now >= 59 then r.now - 59 else 0);
    }
  }

  /** An admitted request is logged under its principal and time; a refused one leaves the log alone. */
  lemma AdmittedIsLogged(trace: seq<Request>, quota: nat, r: Request)
    requires Next(trace, r)
    ensures var (ws, log) := Serve(trace, quota);
            var refused := Check(ws, r.principal, quota, r.now).1.Some?;
            var more := Serve(trace + [r], quota).1;
            && (refused ==> more == log)
            && (!refused ==> exists start: nat ::
                  && more == log + [Admit(r.principal, r.now, start)] && start <= r.now < start + 60
                  && InWindow(log, r.principal, start) < quota)
  {
    OnlyAppend(trace, r, quota);
    ServeKeepsLog(trace, quota);
    var (ws, log) := Serve(trace, quota);
    CurrentCounts(ws, log, quota, if trace == [] then 0 else trace[|trace| - 1].now, r.principal, r.now);
    hide Serve, GrantsOk;
  }

  // ---- independence --------------------------------------------------------

  /** The requests of one principal. */
  function Only(trace: seq<Request>, p: string): seq<Request> {
    if trace == [] then [] else
      var n := |trace| - 1;
      Only(trace[..n], p) + (if trace[n].principal == p then [trace[n]] else [])
  }

  function OnlyAdmits(log: seq<Admit>, p: string): seq<Admit> {
    if log == [] then [] else
      var n := |log| - 1;
      OnlyAdmits(log[..n], p) + (if log[n].principal == p then [log[n]] else [])
  }

  lemma OnlyAdmitsAppend(log: seq<Admit>, a: Admit, p: string)
    ensures OnlyAdmits(log + [a], p) == OnlyAdmits(log, p) + (if a.principal == p then [a] else [])
  {
    assert (log + [a])[..|log|] == log;
  }

  /** One principal's share of a state: its window and its admits. */
  function Share(s: (Windows, seq<Admit>), p: string): (Option<Window>, seq<Admit>) {
    (if p in s.0 then Some(s.0[p]) else None, OnlyAdmits(s.1, p))
  }

  lemma ShareAfterRequest(s: (Windows, seq<Admit>), r: Request, quota: nat, p: string)
    ensures r.principal != p ==> Share(ServeOne(s, r, quota), p) == Share(s, p)
  {
    var a := Admit(r.principal, r.now, Current(s.0, r.principal, r.now).start);
    OnlyAdmitsAppend(s.1, a, p);
    assert OnlyAdmits(s.1, p) + [] == OnlyAdmits(s.1, p);
  }

  /** Equal shares are served equally. */
  lemma ShareDecides(s: (Windows, seq<Admit>), t: (Windows, seq<Admit>), r: Request, quota: nat)
    requires Share(s, r.principal) == Share(t, r.principal)
    ensures Share(ServeOne(s, r, quota), r.principal) == Share(ServeOne(t, r, quota), r.principal)
    ensures Check(s.0, r.principal, quota, r.now).1 == Check(t.0, r.principal, quota, r.now).1
  {
    var a := Admit(r.principal, r.now, Current(s.0, r.principal, r.now).start);
    OnlyAdmitsAppend(s.1, a, r.principal);
    OnlyAdmitsAppend(t.1, a, r.principal);
    assert Current(s.0, r.principal, r.now) == Current(t.0, r.principal, r.now) by { hide OnlyAdmits; }
    hide Current, SaturatingSub, OnlyAdmits;
  }

  lemma OnlyAppend(trace: seq<Request>, r: Request, quota: nat)
    ensures Serve(trace + [r], quota) == ServeOne(Serve(trace, quota), r, quota)
  {
    assert (trace + [r])[..|trace|] == trace;
  }

  /** What one principal is granted does not depend on anybody else's requests. */
  lemma {:induction false} Independent(trace: seq<Request>, quota: nat, p: string)
    ensures Share(Serve(trace, quota), p) == Share(Serve(Only(trace, p), quota), p)
    decreases |trace|
  {
    if trace != [] {
      hide Share, ServeOne;
      var n := |trace| - 1;
      var before := Serve(trace[..n], quota);
      var rest := Only(trace[..n], p);
      Independent(trace[..n], quota, p);
      if trace[n].principal == p {
        ShareDecides(before, Serve(rest, quota), trace[n], quota);
        OnlyAppend(rest, trace[n], quota);
      } else {
        ShareAfterRequest(before, trace[n], quota, p);
        assert Only(trace, p) == rest;
      }
    }
  }
}
