/**
 Invite codes, policy receipts and claim adjudication (src/invites.rs, src/join_policy.rs). Signatures,
 MACs, JSON and UTF-8 are library code: here they are the functions of a `Codecs` and an `Authority`
 value, about which only the laws in `Lawful` and `Ideal` are assumed.
 */
module Invites {
  import opened Options
  import opened Ids
  import opened Events
  import opened Tables
  import opened Base64Url
  import opened Text
  import opened Groups
  import opened GroupState

  datatype InviteError =
    | MalformedRequest
    | TtlOutOfRange
    | MalformedCode
    | InvalidCode
    | ExpiredCode
    | NotAdmin
    | PolicyDisabled
    | PolicyVersionMismatch
    | PolicyReceiptInvalid
    | AgeAttestationRequired
    | MembershipWriteFailed
    | AuthorityUnavailable

  datatype Checked<+T> = Pass(value: T) | Fail(error: InviteError)

  const PAYLOAD_VERSION := 1
  const SIGNATURE_LENGTH := 64
  const DEFAULT_TTL := 86_400
  const MAX_TTL := 30 * 86_400
  const U64_MAX: nat := 0xffff_ffff_ffff_ffff

  datatype Payload = Payload(v: nat, cid: string, aid: string, exp: nat, n: string)

  // ---- library code, as laws -----------------------------------------------

  datatype Codecs = Codecs(
    utf8: string -> Bytes,
    fromUtf8: Bytes -> Option<string>,
    toJson: Payload -> string,
    fromJson: string -> Option<Payload>)

  ghost predicate Lawful(k: Codecs) {
    && (forall s :: k.fromUtf8(k.utf8(s)) == Some(s))
    && (forall p :: k.fromJson(k.toJson(p)) == Some(p))
  }

  datatype Authority = Authority(
    publicKey: string,
    sign: string -> Bytes,
    verify: (string, Bytes) -> bool,
    mac: string -> Bytes)

  /** Signing with an unchanged key produces 64 bytes that verify. */
  ghost predicate Ideal(a: Authority) {
    forall p :: a.verify(p, a.sign(p)) && |a.sign(p)| == SIGNATURE_LENGTH
  }

  datatype Policy = Policy(version: string, ageRequired: bool)

  predicate Enabled(p: Policy) {
    !IsBlank(p.version)
  }

  // ---- the invite code -----------------------------------------------------

  datatype CodeView = CodeView(payload: Payload, json: string, sig: Bytes)

  function EncodeCode(k: Codecs, json: string, sig: Bytes): string {
    Token(k.utf8(json), sig)
  }

  /** `parse_invite_code`: structure only; every failure is the same error. */
  function ParseCode(k: Codecs, code: string): Checked<CodeView> {
    match ReadToken(code)
    case None => Fail(MalformedCode)
    case Some((left, sig)) =>
      match k.fromUtf8(left)
      case None => Fail(MalformedCode)
      case Some(json) =>
        match k.fromJson(json)
        case None => Fail(MalformedCode)
        case Some(p) =>
          if p.v != PAYLOAD_VERSION || p.cid == "" || p.aid == "" then Fail(MalformedCode)
          else Pass(CodeView(p, json, sig))
  }

  predicate Routable(p: Payload) {
    p.v == PAYLOAD_VERSION && p.cid != "" && p.aid != ""
  }

  /** A code reads back as what was encoded exactly when its payload is routable. */
  lemma CodeRoundTrip(k: Codecs, p: Payload, sig: Bytes)
    requires Lawful(k)
    ensures ParseCode(k, EncodeCode(k, k.toJson(p), sig)) ==
            if Routable(p) then Pass(CodeView(p, k.toJson(p), sig)) else Fail(MalformedCode)
  {
    TokenRoundTrip(EncodeCode(k, k.toJson(p), sig), k.utf8(k.toJson(p)), sig);
    assert k.fromJson(k.toJson(p)) == Some(p);
  }

  // ---- the policy receipt --------------------------------------------------

  function Age(confirmed: bool): string {
    if confirmed then "1" else "0"
  }

  function ReceiptMessage(code: string, version: string, age: bool): string {
    code + "|" + version + "|" + Age(age)
  }

  function FirstBar(s: string): (i: nat)
    ensures i <= |s| && (i < |s| ==> s[i] == '|') && forall j :: 0 <= j < i ==> s[j] != '|'
  {
    if s == "" then 0 else if s[0] == '|' then 0 else 1 + FirstBar(s[1..])
  }

  /** `split('|')`. */
  function SplitBars(s: string): seq<string>
    decreases |s|
  {
    var i := FirstBar(s);
    if i == |s| then [s] else [s[..i]] + SplitBars(s[i + 1..])
  }

  datatype ReceiptParts = ReceiptParts(code: string, version: string, age: bool, message: string, mac: Bytes)

  function AgeOf(s: string): Option<bool> {
    if s == "1" || s == "true" then Some(true)
    else if s == "0" || s == "false" then Some(false)
    else None
  }

  function EncodeReceipt(k: Codecs, message: string, mac: Bytes): string {
    Token(k.utf8(message), mac)
  }

  /** `parse_receipt`: exactly three fields, the first two not empty. */
  function ParseReceipt(k: Codecs, receipt: string): Option<ReceiptParts> {
    match ReadToken(receipt)
    case None => None
    case Some((left, mac)) =>
      match k.fromUtf8(left)
      case None => None
      case Some(message) =>
        var fields := SplitBars(message);
        if |fields| != 3 || fields[0] == "" || fields[1] == "" then None
        else match AgeOf(fields[2])
          case None => None
          case Some(age) => Some(ReceiptParts(fields[0], fields[1], age, message, mac))
  }

  predicate BarFree(s: string) {
    '|' !in s
  }

  lemma {:induction false} BarsCount(s: string)
    ensures |SplitBars(s)| == 1 <==> BarFree(s)
    ensures BarFree(s) ==> SplitBars(s) == [s]
    ensures |SplitBars(s)| >= 1
    decreases |s|
  {
    var i := FirstBar(s);
    if i < |s| {
      BarsCount(s[i + 1..]);
    }
  }

  /** Splitting after a bar-free prefix. */
  lemma SplitAfter(a: string, rest: string)
    requires BarFree(a)
    ensures SplitBars(a + "|" + rest) == [a] + SplitBars(rest)
  {
    var s := a + "|" + rest;
    assert s[|a|] == '|' && forall j :: 0 <= j < |a| ==> s[j] == a[j];
    assert FirstBar(s) == |a|;
    assert s[..|a|] == a && s[|a| + 1..] == rest;
  }

  lemma {:induction false} SplitJoins(a: string, rest: string)
    ensures |SplitBars(a + "|" + rest)| == |SplitBars(a)| + |SplitBars(rest)|
    decreases |a|
  {
    var i := FirstBar(a);
    var s := a + "|" + rest;
    if i == |a| {
      BarsCount(a);
      SplitAfter(a, rest);
    } else {
      var head, tail := a[..i], a[i + 1..];
      SplitJoins(tail, rest);
      assert s == head + "|" + (tail + "|" + rest) by { assert a == head + "|" + tail; }
      SplitAfter(head, tail + "|" + rest);
    }
  }

  /** The three fields of a receipt message, or a wrong number of them. */
  lemma MessageFields(code: string, version: string, age: bool)
    ensures var fields := SplitBars(ReceiptMessage(code, version, age));
            && (|fields| == 3 <==> BarFree(code) && BarFree(version))
            && (BarFree(code) && BarFree(version) ==> fields == [code, version, Age(age)])
  {
    hide SplitBars, FirstBar, Age, BarFree;
    var tail := version + "|" + Age(age);
    assert ReceiptMessage(code, version, age) == code + "|" + tail;
    AgeIsBarFree(age);
    BarsCount(Age(age));
    BarsCount(code);
    BarsCount(version);
    SplitJoins(code, tail);
    SplitJoins(version, Age(age));
    if BarFree(code) && BarFree(version) {
      BarsSplit(code, version, Age(age));
    }
  }

  lemma AgeIsBarFree(age: bool)
    ensures BarFree(Age(age))
  {
  }

  lemma BarsSplit(a: string, b: string, c: string)
    requires BarFree(a) && BarFree(b) && SplitBars(c) == [c]
    ensures SplitBars(a + "|" + (b + "|" + c)) == [a, b, c]
  {
    hide SplitBars, FirstBar, BarFree;
    SplitAfter(a, b + "|" + c);
    SplitAfter(b, c);
    assert [a] + ([b] + [c]) == [a, b, c];
  }

  /**
   A receipt reads back as the code, version and age it was made for exactly when code and version
   are not empty and contain no bar; otherwise it does not read at all.
   */
  lemma ReceiptRoundTrip(k: Codecs, code: string, version: string, age: bool, mac: Bytes)
    requires Lawful(k)
    ensures var m := ReceiptMessage(code, version, age);
            ParseReceipt(k, EncodeReceipt(k, m, mac)) ==
            if code != "" && version != "" && BarFree(code) && BarFree(version)
            then Some(ReceiptParts(code, version, age, m, mac)) else None
  {
    var m := ReceiptMessage(code, version, age);
    TokenRoundTrip(EncodeReceipt(k, m, mac), k.utf8(m), mac);
    MessageFields(code, version, age);
    assert k.fromUtf8(k.utf8(m)) == Some(m);
    assert AgeOf(Age(age)) == Some(age);
    hide SplitBars, ReceiptMessage, ReadToken, Token, Age, AgeOf;
  }

  /** A byte-wise comparison that always looks at every byte. */
  method ConstantTimeEq(a: seq<bv8>, b: seq<bv8>) returns (equal: bool)
    ensures equal <==> a == b
  {
    if |a| != |b| { return false; }
    var diff: bv8 := 0;
    for i := 0 to |a|
      invariant diff == 0 <==> a[..i] == b[..i]
    {
      NoDifference(diff, a[i], b[i]);
      assert a[..i + 1] == a[..i] + [a[i]] && b[..i + 1] == b[..i] + [b[i]];
      diff := diff | (a[i] ^ b[i]);
    }
    assert a[..|a|] == a && b[..|b|] == b;
    equal := diff == 0;
  }

  lemma NoDifference(d: bv8, x: bv8, y: bv8)
    ensures (d | (x ^ y)) == 0 <==> d == 0 && x == y
  {
  }

  // ---- minting -------------------------------------------------------------

  /** `mint`: admin gate, time to live within bounds, then sign exactly the bytes that travel. */
  function Mint(k: Codecs, a: Authority, isAdmin: bool, aid: string, nonce: string, ttl: Option<nat>,
        now: nat): Checked<(string, nat)>
  {
    var t := ttl.GetOr(DEFAULT_TTL);
    if !isAdmin then Fail(InviteError.NotAdmin)
    else if t == 0 || t > MAX_TTL then Fail(TtlOutOfRange)
    else if now + t > U64_MAX then Fail(TtlOutOfRange)
    else if aid == "" then Fail(MalformedRequest)
    else
      var json := k.toJson(Payload(PAYLOAD_VERSION, a.publicKey, aid, now + t, nonce));
      Pass((EncodeCode(k, json, a.sign(json)), now + t))
  }

  /** `accept_policy`: a receipt for the current version only. */
  function AcceptPolicy(k: Codecs, a: Authority, policy: Policy, code: string, version: string,
        age: bool): Checked<string>
  {
    if !Enabled(policy) then Fail(PolicyDisabled)
    else if code == "" || version == "" then Fail(MalformedRequest)
    else if version != policy.version then Fail(PolicyVersionMismatch)
    else
      var m := ReceiptMessage(code, policy.version, age);
      Pass(EncodeReceipt(k, m, a.mac(m)))
  }

  // ---- adjudication --------------------------------------------------------

  datatype Claim = Claim(code: string, receipt: Option<string>, joiner: string)

  datatype ClaimResponse = ClaimResponse(status: string, communityId: string)

  /** The code half of `apply_claim`: parse, signature, our own community, not expired. */
  function CheckCode(k: Codecs, a: Authority, code: string, now: nat): Checked<CodeView> {
    match ParseCode(k, code)
    case Fail(e) => Fail(e)
    case Pass(view) =>
      if |view.sig| != SIGNATURE_LENGTH || !a.verify(view.json, view.sig) then Fail(InvalidCode)
      else if view.payload.cid != a.publicKey then Fail(InvalidCode)
      else if view.payload.exp <= now then Fail(ExpiredCode)
      else Pass(view)
  }

  /** The policy half: authentic receipt, for this code, for the live version, with the age it needs. */
  function CheckReceipt(k: Codecs, a: Authority, policy: Policy, code: string,
        receipt: Option<string>): Option<InviteError>
  {
    if !Enabled(policy) then None
    else if receipt.None? then Some(PolicyReceiptInvalid)
    else match ParseReceipt(k, receipt.value)
      case None => Some(PolicyReceiptInvalid)
      case Some(parts) =>
        if a.mac(parts.message) != parts.mac then Some(PolicyReceiptInvalid)
        else if parts.code != code then Some(PolicyReceiptInvalid)
        else if parts.version != policy.version then Some(PolicyVersionMismatch)
        else if policy.ageRequired && !parts.age then Some(AgeAttestationRequired)
        else None
  }

  function CheckClaim(k: Codecs, a: Authority, policy: Policy, c: Claim, now: nat): Option<InviteError> {
    if c.joiner == "" then Some(MalformedRequest)
    else match CheckCode(k, a, c.code, now)
      case Fail(e) => Some(e)
      case Pass(_) => CheckReceipt(k, a, policy, c.code, c.receipt)
  }

  /** Listed in some stored, live member list. */
  ghost predicate CommunityMember(db: Db, joiner: string) {
    Is64Hex(joiner) && exists id :: ListsMember(db, id, Lower(joiner))
  }

  predicate ListsMember(db: Db, id: EventId, key: string) {
    && IsLiveOfKind(db.events, KIND_MEMBERS, id)
    && Listed(PEntries(db.events[id].ev.tags), key)
  }

  /** What an authority needs to adjudicate besides its store. */
  datatype Office = Office(k: Codecs, a: Authority, r: Relay, policy: Policy, primary: string)

  function JoinResponse(o: Office, status: string): ClaimResponse {
    ClaimResponse(status, o.a.publicKey)
  }

  /** `apply_claim`: every check first, then at most one membership write. */
  ghost function ApplyClaim(db: Db, o: Office, c: Claim, now: nat, stamp: nat): (Db, Checked<ClaimResponse>) {
    match CheckClaim(o.k, o.a, o.policy, c, now)
    case Some(e) => (db, Fail(e))
    case None =>
      if CommunityMember(db, c.joiner) then (db, Pass(JoinResponse(o, "already_member")))
      else match AddMember(db, o.r, o.primary, c.joiner, stamp)
        case (d, Denied(_)) => (d, Fail(MembershipWriteFailed))
        case (d, AdmitErrored) => (d, Fail(MembershipWriteFailed))
        case (d, _) => (d, Pass(JoinResponse(o, "joined")))
  }

  // ---- what a fresh invite achieves ----------------------------------------

  lemma {:induction false} TokensHaveNoBar(b: Bytes)
    ensures BarFree(Encode(b))
  {
    var vs := Sextets(b);
    forall i | 0 <= i < |vs| ensures Letters(vs)[i] != '|' { LetterReads(vs[i], '|'); }
  }

  lemma CodesHaveNoBar(left: Bytes, right: Bytes)
    ensures BarFree(Token(left, right)) && Token(left, right) != ""
  {
    TokensHaveNoBar(left);
    TokensHaveNoBar(right);
  }

  /**
   An invite minted by an admin, with the receipt of its policy, passes every check of a later claim
   before it expires, if and only if the policy version has no bar or no policy is in force.
   */
  lemma FreshInvitePasses(o: Office, aid: string, nonce: string, ttl: Option<nat>, minted: nat, age: bool,
        joiner: string, now: nat)
    requires Lawful(o.k) && Ideal(o.a) && o.a.publicKey != "" && joiner != ""
    requires Mint(o.k, o.a, true, aid, nonce, ttl, minted).Pass?
    requires now < Mint(o.k, o.a, true, aid, nonce, ttl, minted).value.1
    requires o.policy.ageRequired ==> age
    ensures var code := Mint(o.k, o.a, true, aid, nonce, ttl, minted).value.0;
            var accepted := AcceptPolicy(o.k, o.a, o.policy, code, o.policy.version, age);
            var receipt := if accepted.Pass? then Some(accepted.value) else None;
            && (accepted.Pass? <==> Enabled(o.policy))
            && (CheckClaim(o.k, o.a, o.policy, Claim(code, receipt, joiner), now) ==
                if Enabled(o.policy) && !BarFree(o.policy.version) then Some(PolicyReceiptInvalid) else None)
  {
    var code := Mint(o.k, o.a, true, aid, nonce, ttl, minted).value.0;
    MintedCodePasses(o.k, o.a, aid, nonce, ttl, minted, now);
    FreshReceiptPasses(o.k, o.a, o.policy, code, age);
    hide CheckCode, CheckReceipt, AcceptPolicy, Mint, Enabled, BarFree;
  }

  lemma MintedCodePasses(k: Codecs, a: Authority, aid: string, nonce: string, ttl: Option<nat>, minted: nat, now: nat)
    requires Lawful(k) && Ideal(a) && a.publicKey != ""
    requires Mint(k, a, true, aid, nonce, ttl, minted).Pass? && now < Mint(k, a, true, aid, nonce, ttl, minted).value.1
    ensures var code := Mint(k, a, true, aid, nonce, ttl, minted).value.0;
            CheckCode(k, a, code, now).Pass? && BarFree(code) && code != ""
  {
    var p := Payload(PAYLOAD_VERSION, a.publicKey, aid, minted + ttl.GetOr(DEFAULT_TTL), nonce);
    var json := k.toJson(p);
    assert a.verify(json, a.sign(json)) && |a.sign(json)| == SIGNATURE_LENGTH;
    CodeRoundTrip(k, p, a.sign(json));
    CodesHaveNoBar(k.utf8(json), a.sign(json));
    hide Token, ReadToken, BarFree, ParseCode;
  }

  lemma FreshReceiptPasses(k: Codecs, a: Authority, policy: Policy, code: string, age: bool)
    requires Lawful(k) && BarFree(code) && code != "" && (policy.ageRequired ==> age)
    ensures var accepted := AcceptPolicy(k, a, policy, code, policy.version, age);
            var receipt := if accepted.Pass? then Some(accepted.value) else None;
            && (accepted.Pass? <==> Enabled(policy))
            && CheckReceipt(k, a, policy, code, receipt) ==
               (if Enabled(policy) && !BarFree(policy.version) then Some(PolicyReceiptInvalid) else None)
  {
    var m := ReceiptMessage(code, policy.version, age);
    ReceiptRoundTrip(k, code, policy.version, age, a.mac(m));
    assert Enabled(policy) ==> policy.version != "";
    hide BarFree, ReceiptMessage, EncodeReceipt, ParseReceipt, Enabled;
  }
}
