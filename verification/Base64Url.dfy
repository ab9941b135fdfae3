/**
 Base64 with the URL-safe alphabet and no padding (section 5 of RFC 4648), as the strict decoder reads
 it: no '=' and no stray bits in the last character. So a text is the encoding of what it decodes to.
 */
module Base64Url {
  import opened Options
  import opened Ids

  type Byte = b: nat | b < 256

  type Bytes = seq<Byte>

  type Sextet = v: nat | v < 64

  function Letter(v: Sextet): char {
    if v < 26 then ('A' as int + v) as char
    else if v < 52 then ('a' as int + v - 26) as char
    else if v < 62 then ('0' as int + v - 52) as char
    else if v == 62 then '-'
    else '_'
  }

  function ValueOf(c: char): Option<Sextet> {
    if 'A' <= c <= 'Z' then Some(c as int - 'A' as int)
    else if 'a' <= c <= 'z' then Some(c as int - 'a' as int + 26)
    else if '0' <= c <= '9' then Some(c as int - '0' as int + 52)
    else if c == '-' then Some(62)
    else if c == '_' then Some(63)
    else None
  }

  lemma LetterReads(v: Sextet, c: char)
    ensures ValueOf(Letter(v)) == Some(v)
    ensures ValueOf(c) == Some(v) <==> c == Letter(v)
    ensures Letter(v) != '.'
  {
  }

  function Letters(vs: seq<Sextet>): string {
    seq(|vs|, i requires 0 <= i < |vs| => Letter(vs[i]))
  }

  predicate InAlphabet(s: string) {
    forall i :: 0 <= i < |s| ==> ValueOf(s[i]).Some?
  }

  function Values(s: string): seq<Sextet>
    requires InAlphabet(s)
  {
    seq(|s|, i requires 0 <= i < |s| => ValueOf(s[i]).value)
  }

  /** Three bytes are four sextets; one or two bytes left over are two or three. */
  function Sextets(b: Bytes): seq<Sextet> {
    if |b| == 0 then []
    else if |b| == 1 then [b[0] / 4, b[0] % 4 * 16]
    else if |b| == 2 then [b[0] / 4, b[0] % 4 * 16 + b[1] / 16, b[1] % 16 * 4]
    else Four(b[0], b[1], b[2]) + Sextets(b[3..])
  }

  function Four(a: Byte, b: Byte, c: Byte): seq<Sextet> {
    [a / 4, a % 4 * 16 + b / 16, b % 16 * 4 + c / 64, c % 64]
  }

  function Three(v: Sextet, w: Sextet, x: Sextet, y: Sextet): Bytes {
    [v * 4 + w / 16, w % 16 * 16 + x / 4, x % 4 * 64 + y]
  }

  function One(v: Sextet, w: Sextet): Bytes {
    [v * 4 + w / 16]
  }

  function Two(v: Sextet, w: Sextet, x: Sextet): Bytes {
    [v * 4 + w / 16, w % 16 * 16 + x / 4]
  }

  /** Unused low bits of the last sextet must be zero. */
  function Unpack(vs: seq<Sextet>): Option<Bytes> {
    if |vs| == 0 then Some([])
    else if |vs| == 1 then None
    else if |vs| == 2 then (if vs[1] % 16 != 0 then None else Some(One(vs[0], vs[1])))
    else if |vs| == 3 then
      (if vs[2] % 4 != 0 then None else Some(Two(vs[0], vs[1], vs[2])))
    else match Unpack(vs[4..])
      case None => None
      case Some(rest) => Some(Three(vs[0], vs[1], vs[2], vs[3]) + rest)
  }

  function Encode(b: Bytes): string {
    Letters(Sextets(b))
  }

  function Decode(s: string): Option<Bytes> {
    if InAlphabet(s) then Unpack(Values(s)) else None
  }

  lemma FourThree(a: Byte, b: Byte, c: Byte)
    ensures var f := Four(a, b, c); Three(f[0], f[1], f[2], f[3]) == [a, b, c]
  {
  }

  lemma By4(q: nat, r: nat)
    requires r < 4
    ensures (q * 4 + r) / 4 == q && (q * 4 + r) % 4 == r
  {
  }

  lemma By16(q: nat, r: nat)
    requires r < 16
    ensures (q * 16 + r) / 16 == q && (q * 16 + r) % 16 == r
  {
  }

  lemma By64(q: nat, r: nat)
    requires r < 64
    ensures (q * 64 + r) / 64 == q && (q * 64 + r) % 64 == r
  {
  }

  lemma ThreeFour(v: Sextet, w: Sextet, x: Sextet, y: Sextet)
    ensures var t := Three(v, w, x, y); Four(t[0], t[1], t[2]) == [v, w, x, y]
  {
    By4(v, w / 16);
    By16(w % 16, x / 4);
    By64(x % 4, y);
  }

  lemma {:induction false} UnpackSextets(b: Bytes)
    ensures Unpack(Sextets(b)) == Some(b)
  {
    if |b| >= 3 {
      UnpackSextets(b[3..]);
      FourThree(b[0], b[1], b[2]);
      hide Four, Three;
      assert Sextets(b)[4..] == Sextets(b[3..]);
      assert b == [b[0], b[1], b[2]] + b[3..];
    } else if |b| == 2 {
      LastTwo(b[0], b[1]);
      assert b == [b[0], b[1]];
    } else if |b| == 1 {
      assert b[0] % 4 * 16 % 16 == 0 && b[0] % 4 * 16 / 16 == b[0] % 4;
      assert One(b[0] / 4, b[0] % 4 * 16) == [b[0]] == b;
    }
  }

  lemma LastTwo(a: Byte, b: Byte)
    ensures b % 16 * 4 % 4 == 0
    ensures Two(a / 4, a % 4 * 16 + b / 16, b % 16 * 4) == [a, b]
  {
    assert b % 16 * 4 / 4 == b % 16;
  }

  lemma {:induction false} SextetsUnpack(vs: seq<Sextet>)
    requires Unpack(vs).Some?
    ensures Sextets(Unpack(vs).value) == vs
  {
    if |vs| >= 4 {
      SextetsUnpack(vs[4..]);
      ThreeFour(vs[0], vs[1], vs[2], vs[3]);
      var t, rest := Three(vs[0], vs[1], vs[2], vs[3]), Unpack(vs[4..]).value;
      var b := t + rest;
      assert |t| == 3 && b[3..] == rest && b[0] == t[0] && b[1] == t[1] && b[2] == t[2];
      hide Four, Three;
      assert vs == [vs[0], vs[1], vs[2], vs[3]] + vs[4..];
    }
  }

  lemma LettersRead(vs: seq<Sextet>)
    ensures InAlphabet(Letters(vs)) && Values(Letters(vs)) == vs && '.' !in Letters(vs)
  {
    forall i | 0 <= i < |vs| ensures ValueOf(Letters(vs)[i]) == Some(vs[i]) && Letters(vs)[i] != '.' {
      LetterReads(vs[i], '.');
    }
  }

  lemma ValuesWrite(s: string)
    requires InAlphabet(s)
    ensures Letters(Values(s)) == s
  {
    forall i | 0 <= i < |s| ensures Letter(ValueOf(s[i]).value) == s[i] {
      LetterReads(ValueOf(s[i]).value, s[i]);
    }
  }

  /** Decoding undoes encoding, and a text that decodes is the encoding of what it decodes to. */
  lemma Base64RoundTrip(s: string, b: Bytes)
    ensures Decode(s) == Some(b) <==> s == Encode(b)
  {
    LettersRead(Sextets(b));
    UnpackSextets(b);
    if Decode(s) == Some(b) {
      SextetsUnpack(Values(s));
      ValuesWrite(s);
    }
  }

  // ---- the text as a number ------------------------------------------------

  const ALPHABET := CAPITALS + SMALL_LETTERS + "0123456789-_"

  lemma LetterIsInAlphabet(v: Sextet)
    ensures |ALPHABET| == 64 && Letter(v) == ALPHABET[v]
  {
    assert forall j :: 0 <= j < 26 ==> CAPITALS[j] as int == 'A' as int + j;
    assert forall j :: 0 <= j < 26 ==> SMALL_LETTERS[j] as int == 'a' as int + j;
    assert forall j :: 0 <= j < 10 ==> "0123456789-_"[j] as int == '0' as int + j;
  }

  /** The number whose digits, most significant first, are these bytes or these sextets. */
  function ByteNumber(acc: nat, b: Bytes): nat
    decreases |b|
  {
    if b == [] then acc else ByteNumber(acc * 256 + b[0], b[1..])
  }

  function SextetNumber(acc: nat, vs: seq<Sextet>): nat
    decreases |vs|
  {
    if vs == [] then acc else SextetNumber(acc * 64 + vs[0], vs[1..])
  }

  /** The zero bits that fill up the last sextet: none, four or two. */
  function Filler(n: nat): nat {
    if n % 3 == 0 then 1 else if n % 3 == 1 then 16 else 4
  }

  lemma TakeSextet(acc: nat, v: Sextet, rest: seq<Sextet>)
    ensures SextetNumber(acc, [v] + rest) == SextetNumber(acc * 64 + v, rest)
    ensures SextetNumber(acc, []) == acc
  {
    assert ([v] + rest)[1..] == rest;
  }

  lemma TakeByte(acc: nat, a: Byte, rest: Bytes)
    ensures ByteNumber(acc, [a] + rest) == ByteNumber(acc * 256 + a, rest)
    ensures ByteNumber(acc, []) == acc
  {
    assert ([a] + rest)[1..] == rest;
  }

  lemma TakeFour(acc: nat, v: Sextet, w: Sextet, x: Sextet, y: Sextet, rest: seq<Sextet>)
    ensures SextetNumber(acc, [v, w, x, y] + rest) == SextetNumber((((acc * 64 + v) * 64 + w) * 64 + x) * 64 + y, rest)
  {
    hide SextetNumber;
    TakeSextet(acc, v, [w, x, y] + rest);
    TakeSextet(acc * 64 + v, w, [x, y] + rest);
    TakeSextet((acc * 64 + v) * 64 + w, x, [y] + rest);
    TakeSextet(((acc * 64 + v) * 64 + w) * 64 + x, y, rest);
    assert [v, w, x, y] + rest == [v] + ([w, x, y] + rest) && [w, x, y] + rest == [w] + ([x, y] + rest);
    assert [x, y] + rest == [x] + ([y] + rest);
  }

  lemma TakeThree(acc: nat, a: Byte, b: Byte, c: Byte, rest: Bytes)
    ensures ByteNumber(acc, [a, b, c] + rest) == ByteNumber(((acc * 256 + a) * 256 + b) * 256 + c, rest)
  {
    hide ByteNumber;
    TakeByte(acc, a, [b, c] + rest);
    TakeByte(acc * 256 + a, b, [c] + rest);
    TakeByte((acc * 256 + a) * 256 + b, c, rest);
    assert [a, b, c] + rest == [a] + ([b, c] + rest) && [b, c] + rest == [b] + ([c] + rest);
  }

  /** Three bytes in their bit fields are four sextets. */
  lemma SameBits(acc: nat, a1: nat, a2: nat, b1: nat, b2: nat, c1: nat, c2: nat)
    ensures (((acc * 64 + a1) * 64 + (a2 * 16 + b1)) * 64 + (b2 * 4 + c1)) * 64 + c2
            == ((acc * 256 + (a1 * 4 + a2)) * 256 + (b1 * 16 + b2)) * 256 + (c1 * 64 + c2)
  {
  }

  lemma FourNumber(acc: nat, a: Byte, b: Byte, c: Byte, rest: seq<Sextet>)
    ensures SextetNumber(acc, Four(a, b, c) + rest) == SextetNumber(((acc * 256 + a) * 256 + b) * 256 + c, rest)
  {
    var f := Four(a, b, c);
    TakeFour(acc, f[0], f[1], f[2], f[3], rest);
    assert f == [f[0], f[1], f[2], f[3]];
    SameBits(acc, a / 4, a % 4, b / 16, b % 16, c / 64, c % 64);
  }

  lemma OneByteLeft(acc: nat, a: Byte)
    ensures SextetNumber(acc, [a / 4, a % 4 * 16]) == (acc * 256 + a) * 16
    ensures ByteNumber(acc, [a]) == acc * 256 + a
  {
    var v, w: Sextet := a / 4, a % 4 * 16;
    TakeSextet(acc, v, [w]);
    TakeSextet(acc * 64 + v, w, []);
    TakeByte(acc, a, []);
    hide SextetNumber, ByteNumber;
    assert [v, w] == [v] + [w] && [w] + [] == [w] && [a] + [] == [a];
  }

  lemma TwoBytesLeft(acc: nat, a: Byte, b: Byte)
    ensures SextetNumber(acc, [a / 4, a % 4 * 16 + b / 16, b % 16 * 4]) == ((acc * 256 + a) * 256 + b) * 4
    ensures ByteNumber(acc, [a, b]) == (acc * 256 + a) * 256 + b
  {
    var v, w, x: Sextet := a / 4, a % 4 * 16 + b / 16, b % 16 * 4;
    TakeSextet(acc, v, [w, x]);
    TakeSextet(acc * 64 + v, w, [x]);
    TakeSextet((acc * 64 + v) * 64 + w, x, []);
    TakeByte(acc, a, [b]);
    TakeByte(acc * 256 + a, b, []);
    hide SextetNumber, ByteNumber;
    assert [v, w, x] == [v] + [w, x] && [w, x] == [w] + [x] && [x] + [] == [x] && [a, b] == [a] + [b]
      && [b] + [] == [b];
    TwoByteBits(acc, a / 4, a % 4, b / 16, b % 16);
  }

  lemma TwoByteBits(acc: nat, a1: nat, a2: nat, b1: nat, b2: nat)
    ensures ((acc * 64 + a1) * 64 + (a2 * 16 + b1)) * 64 + b2 * 4
            == ((acc * 256 + (a1 * 4 + a2)) * 256 + (b1 * 16 + b2)) * 4
  {
  }

  /**
   The sextets spell the same number as the bytes, most significant first, filled up with zero bits to
   a whole number of sextets.
   */
  lemma {:induction false} SextetsSpellBytes(acc: nat, b: Bytes)
    ensures SextetNumber(acc, Sextets(b)) == ByteNumber(acc, b) * Filler(|b|)
    ensures 6 * |Sextets(b)| == 8 * |b| + (if |b| % 3 == 0 then 0 else if |b| % 3 == 1 then 4 else 2)
    decreases |b|
  {
    if |b| == 1 {
      OneByteLeft(acc, b[0]);
      assert b == [b[0]];
    } else if |b| == 2 {
      TwoBytesLeft(acc, b[0], b[1]);
      assert b == [b[0], b[1]];
    } else if |b| >= 3 {
      SextetsSpellBytes(((acc * 256 + b[0]) * 256 + b[1]) * 256 + b[2], b[3..]);
      MoreBytes(acc, b);
    }
  }

  lemma MoreBytes(acc: nat, b: Bytes)
    requires |b| >= 3
    ensures var next, rest := ((acc * 256 + b[0]) * 256 + b[1]) * 256 + b[2], b[3..];
            && SextetNumber(acc, Sextets(b)) == SextetNumber(next, Sextets(rest))
            && ByteNumber(acc, b) == ByteNumber(next, rest)
            && Filler(|b|) == Filler(|rest|) && |Sextets(b)| == 4 + |Sextets(rest)|
  {
    hide SextetNumber, ByteNumber, Four, Sextets, Filler;
    FourNumber(acc, b[0], b[1], b[2], Sextets(b[3..]));
    TakeThree(acc, b[0], b[1], b[2], b[3..]);
    ThreeMore(b);
  }

  lemma ThreeMore(b: Bytes)
    requires |b| >= 3
    ensures Sextets(b) == Four(b[0], b[1], b[2]) + Sextets(b[3..]) && |Sextets(b)| == 4 + |Sextets(b[3..])|
    ensures b == [b[0], b[1], b[2]] + b[3..] && Filler(|b|) == Filler(|b[3..]|)
  {
    hide Four, Filler;
    SextetsStep(b);
    FourLength(b[0], b[1], b[2]);
    FillerStep(|b|);
    hide Sextets;
  }

  lemma SextetsStep(b: Bytes)
    requires |b| >= 3
    ensures Sextets(b) == Four(b[0], b[1], b[2]) + Sextets(b[3..])
  {
    hide Four, Filler;
  }

  lemma FillerStep(n: nat)
    requires n >= 3
    ensures Filler(n) == Filler(n - 3)
  {
    assert n % 3 == (n - 3) % 3;
  }

  lemma FourLength(a: Byte, b: Byte, c: Byte)
    ensures |Four(a, b, c)| == 4
  {
  }

  /** Encoding writes that number with the 64 letters of the URL-safe alphabet. */
  lemma EncodeSpellsBytes(b: Bytes) returns (vs: seq<Sextet>)
    ensures |Encode(b)| == |vs| && forall i :: 0 <= i < |vs| ==> Encode(b)[i] == ALPHABET[vs[i]]
    ensures SextetNumber(0, vs) == ByteNumber(0, b) * Filler(|b|)
    ensures |vs| == (4 * |b| + 2) / 3
  {
    vs := Sextets(b);
    SextetsSpellBytes(0, b);
    forall i | 0 <= i < |vs| ensures Encode(b)[i] == ALPHABET[vs[i]] { LetterIsInAlphabet(vs[i]); }
  }

  // ---- tokens: two encoded halves around one dot ---------------------------

  /** Index of the first dot, or the length of the text. */
  function FirstDot(s: string): (i: nat)
    ensures i <= |s| && (i < |s| ==> s[i] == '.') && forall j :: 0 <= j < i ==> s[j] != '.'
  {
    if s == "" then 0 else if s[0] == '.' then 0 else 1 + FirstDot(s[1..])
  }

  function Token(left: Bytes, right: Bytes): string {
    Encode(left) + "." + Encode(right)
  }

  /** Split at the first dot, refuse a second one, decode both halves. */
  function ReadToken(s: string): Option<(Bytes, Bytes)> {
    var i := FirstDot(s);
    if i == |s| || '.' in s[i + 1..] then None
    else match (Decode(s[..i]), Decode(s[i + 1..]))
      case (Some(l), Some(r)) => Some((l, r))
      case _ => None
  }

  /** A text reads as a token of two halves exactly when it is the token of those halves. */
  lemma TokenRoundTrip(s: string, left: Bytes, right: Bytes)
    ensures ReadToken(s) == Some((left, right)) <==> s == Token(left, right)
  {
    hide Encode, Decode;
    if s == Token(left, right) {
      LettersHaveNoDot(left);
      LettersHaveNoDot(right);
      Base64RoundTrip(Encode(left), left);
      Base64RoundTrip(Encode(right), right);
      var n := |Encode(left)|;
      assert s[n] == '.' && s[..n] == Encode(left) && s[n + 1..] == Encode(right);
      assert forall i :: 0 <= i < n ==> s[i] == Encode(left)[i];
    }
    if ReadToken(s) == Some((left, right)) {
      var i := FirstDot(s);
      Base64RoundTrip(s[..i], left);
      Base64RoundTrip(s[i + 1..], right);
      assert s == s[..i] + [s[i]] + s[i + 1..];
    }
  }

  /** The alphabet has no dot, which is what separates the two halves of a token. */
  lemma LettersHaveNoDot(b: Bytes)
    ensures '.' !in Encode(b)
  {
    LettersRead(Sextets(b));
  }
}
