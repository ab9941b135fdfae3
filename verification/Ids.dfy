/**
 Event ids. An event id is 32 bytes, written as 64 lowercase hex digits; the model keeps the
 256-bit number those digits spell. Reading the digits of a tag value is therefore also what
 lower-cases it, and comparing numbers is comparing the canonical texts (`HexOrder`).
 */
module Ids {
  import opened Options

  type EventId = nat

  function LowerChar(c: char): char {
    if 'A' <= c <= 'Z' then (c as int + 32) as char else c
  }

  /** ASCII lower-casing. */
  function Lower(s: string): (r: string)
    ensures |r| == |s|
  {
    seq(|s|, i requires 0 <= i < |s| => LowerChar(s[i]))
  }

  const CAPITALS := "ABCDEFGHIJKLMNOPQRSTUVWXYZ"
  const SMALL_LETTERS := "abcdefghijklmnopqrstuvwxyz"

  /** Lower-casing maps each capital letter to its small one and leaves every other character alone. */
  lemma LowerLetters(s: string, i: nat, letter: nat)
    requires i < |s| && letter < 26
    ensures s[i] == CAPITALS[letter] ==> Lower(s)[i] == SMALL_LETTERS[letter]
    ensures s[i] !in CAPITALS ==> Lower(s)[i] == s[i]
  {
    assert forall j :: 0 <= j < 26 ==> CAPITALS[j] as int == 'A' as int + j;
    assert forall j :: 0 <= j < 26 ==> SMALL_LETTERS[j] as int == 'a' as int + j;
    if 'A' <= s[i] <= 'Z' { assert s[i] == CAPITALS[s[i] as int - 'A' as int]; }
  }

  /** Byte-wise lexicographic order: Rust's `String` order and SQLite's BINARY collation. */
  predicate LexLess(a: string, b: string) {
    |b| > 0 && (|a| == 0 || a[0] < b[0] || (a[0] == b[0] && LexLess(a[1..], b[1..])))
  }

  /** The order is strict, total and transitive. */
  lemma {:induction false} LexIsTotal(a: string, b: string)
    ensures a == b || LexLess(a, b) || LexLess(b, a)
    ensures !LexLess(a, a)
    decreases |a|
  {
    if a != [] {
      LexIsTotal(a[1..], if b != [] then b[1..] else []);
      assert a == [a[0]] + a[1..];
      if b != [] { assert b == [b[0]] + b[1..]; }
    }
  }

  lemma {:induction false} LexIsTransitive(a: string, b: string, c: string)
    requires LexLess(a, b) && LexLess(b, c)
    ensures LexLess(a, c)
    decreases |a|
  {
    if a != [] && a[0] == b[0] == c[0] { LexIsTransitive(a[1..], b[1..], c[1..]); }
  }

  predicate IsHexDigit(c: char) {
    '0' <= c <= '9' || 'a' <= c <= 'f' || 'A' <= c <= 'F'
  }

  function DigitValue(c: char): (v: nat)
    requires IsHexDigit(c)
    ensures v < 16
  {
    if '0' <= c <= '9' then c as int - '0' as int
    else if 'a' <= c <= 'f' then c as int - 'a' as int + 10
    else c as int - 'A' as int + 10
  }

  predicate AllHex(s: string) {
    forall i :: 0 <= i < |s| ==> IsHexDigit(s[i])
  }

  predicate Is64Hex(s: string) {
    |s| == 64 && AllHex(s)
  }

  /** The number a hex text spells, most significant digit first. */
  function HexValue(s: string): nat
    requires AllHex(s)
  {
    if s == [] then 0 else 16 * HexValue(s[..|s| - 1]) + DigitValue(s[|s| - 1])
  }

  /** `canonical_event_id` without its error text: an id, or nothing for other input. */
  function ParseId(s: string): Option<EventId> {
    if Is64Hex(s) then Some(HexValue(s)) else None
  }

  lemma HexDigitOrder(c: char, d: char)
    requires IsHexDigit(c) && IsHexDigit(d)
    ensures LowerChar(c) < LowerChar(d) <==> DigitValue(c) < DigitValue(d)
    ensures LowerChar(c) == LowerChar(d) <==> DigitValue(c) == DigitValue(d)
  {
  }

  lemma {:induction false} LexSnoc(a: string, b: string, c: char, d: char)
    requires |a| == |b|
    ensures LexLess(a + [c], b + [d]) <==> LexLess(a, b) || (a == b && c < d)
  {
    if a == [] {
      assert a + [c] == [c] && b + [d] == [d];
    } else {
      assert (a + [c])[1..] == a[1..] + [c];
      assert (b + [d])[1..] == b[1..] + [d];
      LexSnoc(a[1..], b[1..], c, d);
      assert a == [a[0]] + a[1..] && b == [b[0]] + b[1..];
    }
  }

  /**
   Comparing ids as numbers is comparing their canonical lowercase texts: the numbers are equal
   exactly when the canonical texts are, and ordered exactly as the texts are.
   */
  lemma {:induction false} HexOrder(a: string, b: string)
    requires AllHex(a) && AllHex(b) && |a| == |b|
    ensures HexValue(a) < HexValue(b) <==> LexLess(Lower(a), Lower(b))
    ensures HexValue(a) == HexValue(b) <==> Lower(a) == Lower(b)
  {
    if a == [] {
      assert Lower(a) == [] && Lower(b) == [];
    } else {
      var n := |a| - 1;
      HexDigitOrder(a[n], b[n]);
      HexOrder(a[..n], b[..n]);
      assert Lower(a) == Lower(a[..n]) + [LowerChar(a[n])];
      assert Lower(b) == Lower(b[..n]) + [LowerChar(b[n])];
      assert Lower(a)[..n] == Lower(a[..n]) && Lower(b)[..n] == Lower(b[..n]);
      assert Lower(a)[n] == LowerChar(a[n]) && Lower(b)[n] == LowerChar(b[n]);
      LexSnoc(Lower(a[..n]), Lower(b[..n]), LowerChar(a[n]), LowerChar(b[n]));
    }
  }

  const HEX_DIGITS := "0123456789abcdefABCDEF"

  lemma HexDigits(c: char)
    ensures IsHexDigit(c) <==> c in HEX_DIGITS
  {
    assert forall j :: 0 <= j < 10 ==> HEX_DIGITS[j] as int == '0' as int + j;
    assert forall j :: 10 <= j < 16 ==> HEX_DIGITS[j] as int == 'a' as int + j - 10;
    assert forall j :: 16 <= j < 22 ==> HEX_DIGITS[j] as int == 'A' as int + j - 16;
    if '0' <= c <= '9' { assert HEX_DIGITS[c as int - '0' as int] == c; }
    if 'a' <= c <= 'f' { assert HEX_DIGITS[c as int - 'a' as int + 10] == c; }
    if 'A' <= c <= 'F' { assert HEX_DIGITS[c as int - 'A' as int + 16] == c; }
  }

  /** A text names an id exactly when it is 64 hex digits, and two texts the same id up to case. */
  lemma TextsOfIds(s: string, t: string)
    ensures ParseId(s).Some? <==> |s| == 64 && forall i :: 0 <= i < 64 ==> s[i] in HEX_DIGITS
    ensures ParseId(s).Some? && ParseId(t).Some? ==> (ParseId(s) == ParseId(t) <==> Lower(s) == Lower(t))
  {
    forall i | 0 <= i < |s| ensures IsHexDigit(s[i]) <==> s[i] in HEX_DIGITS { HexDigits(s[i]); }
    if ParseId(s).Some? && ParseId(t).Some? { HexOrder(s, t); }
  }
}
