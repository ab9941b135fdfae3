/** White space as `str::trim` and `str::is_empty` see it: the Unicode property White_Space. */
module Text {

  predicate IsWhitespace(c: char) {
    var n := c as int;
    || 0x09 <= n <= 0x0d || n == 0x20 || n == 0x85 || n == 0xa0 || n == 0x1680 || 0x2000 <= n <= 0x200a
    || n == 0x2028 || n == 0x2029 || n == 0x202f || n == 0x205f || n == 0x3000
  }

  /** The 25 code points with that property. */
  lemma WhitespacePoints(c: char)
    ensures IsWhitespace(c) <==>
            (c as int) in [0x09, 0x0a, 0x0b, 0x0c, 0x0d, 0x20, 0x85, 0xa0, 0x1680, 0x2000, 0x2001, 0x2002, 0x2003,
              0x2004,
              0x2005, 0x2006, 0x2007, 0x2008, 0x2009, 0x200a, 0x2028, 0x2029, 0x202f, 0x205f, 0x3000]
  {
  }

  /** `trim().is_empty()`. */
  predicate IsBlank(s: string) {
    forall i :: 0 <= i < |s| ==> IsWhitespace(s[i])
  }

  function TrimLeft(s: string): string {
    if s != "" && IsWhitespace(s[0]) then TrimLeft(s[1..]) else s
  }

  function TrimRight(s: string): string {
    if s != "" && IsWhitespace(s[|s| - 1]) then TrimRight(s[..|s| - 1]) else s
  }

  function Trim(s: string): string {
    TrimRight(TrimLeft(s))
  }

  /** What is trimmed on the left is white space, and what is left does not start with any. */
  lemma {:induction false} TrimLeftCuts(s: string) returns (cut: nat)
    ensures cut <= |s| && TrimLeft(s) == s[cut..] && IsBlank(s[..cut])
    ensures cut == |s| || !IsWhitespace(s[cut])
  {
    if s != "" && IsWhitespace(s[0]) {
      var rest := TrimLeftCuts(s[1..]);
      cut := rest + 1;
      assert s[1..][rest..] == s[cut..];
      forall i | 0 <= i < cut ensures IsWhitespace(s[i]) { if i > 0 { assert s[i] == s[1..][..rest][i - 1]; } }
    } else {
      cut := 0;
      assert s[0..] == s;
    }
  }

  lemma {:induction false} TrimRightCuts(s: string) returns (kept: nat)
    ensures kept <= |s| && TrimRight(s) == s[..kept] && IsBlank(s[kept..])
    ensures kept == 0 || !IsWhitespace(s[kept - 1])
  {
    if s != "" && IsWhitespace(s[|s| - 1]) {
      var n := |s| - 1;
      kept := TrimRightCuts(s[..n]);
      assert s[..n][..kept] == s[..kept];
      forall i | kept <= i < |s| ensures IsWhitespace(s[i]) { if i < n { assert s[i] == s[..n][kept..][i - kept]; } }
    } else {
      kept := |s|;
      assert s[..|s|] == s;
    }
  }

  /** Trimming cuts white space at both ends and stops at the first other character on each side. */
  lemma TrimCuts(s: string) returns (from: nat, to: nat)
    ensures from <= to <= |s| && Trim(s) == s[from..to]
    ensures IsBlank(s[..from]) && IsBlank(s[to..])
    ensures from < to ==> !IsWhitespace(s[from]) && !IsWhitespace(s[to - 1])
  {
    from := TrimLeftCuts(s);
    var t := s[from..];
    var kept := TrimRightCuts(t);
    to := from + kept;
    assert t[..kept] == s[from..to] && t[kept..] == s[to..];
    assert kept > 0 ==> t[kept - 1] == s[to - 1];
  }
}
