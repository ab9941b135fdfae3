/**
 What an accepted claim proves about the code and the receipt it carried (src/invites.rs,
 src/join_policy.rs): both are tokens this authority authenticated, and every other claim is refused
 with the error that names its first defect.
 */
module ClaimChecks {
  import opened Options
  import opened Ids
  import opened Events
  import opened Tables
  import opened Attach
  import opened Groups
  import opened GroupState
  import opened GroupRuns
  import opened Base64Url
  import opened Text
  import opened Invites
  import opened Adjudication

  /** Strict UTF-8 decoding accepts exactly what encoding produces. */
  ghost predicate StrictUtf8(k: Codecs) {
    forall b, s :: k.fromUtf8(b) == Some(s) <==> b == k.utf8(s)
  }

  /** A well-formed code carrying this JSON text, this payload and this signature. */
  predicate CodeCarries(k: Codecs, code: string, json: string, p: Payload, sig: Bytes) {
    && code == Encode(k.utf8(json)) + "." + Encode(sig)
    && k.fromJson(json) == Some(p) && p.v == 1 && p.cid != "" && p.aid != ""
  }

  /** Signed by this authority for its own community. */
  predicate SignedHere(a: Authority, json: string, p: Payload, sig: Bytes) {
    |sig| == 64 && a.verify(json, sig) && p.cid == a.publicKey
  }

  /** A code this authority signed, whether expired or not. */
  ghost predicate SignedCode(k: Codecs, a: Authority, code: string, p: Payload) {
    exists json, sig :: CodeCarries(k, code, json, p, sig) && SignedHere(a, json, p, sig)
  }

  ghost predicate AuthenticCode(k: Codecs, a: Authority, code: string, now: nat) {
    exists p :: SignedCode(k, a, code, p) && now < p.exp
  }

  /** A receipt for this code and version whose age field is `age`, under a MAC of its own message. */
  predicate ReceiptCarries(k: Codecs, receipt: string, code: string, version: string, age: string, mac: Bytes) {
    && receipt == Encode(k.utf8(code + "|" + version + "|" + age)) + "." + Encode(mac)
    && code != "" && version != "" && '|' !in code && '|' !in version
    && (age == "1" || age == "true" || age == "0" || age == "false")
  }

  predicate Macs(a: Authority, code: string, version: string, age: string, mac: Bytes) {
    mac == a.mac(code + "|" + version + "|" + age)
  }

  /** What a receipt says under this authority's MAC: a code, a version and an age. */
  ghost predicate Says(k: Codecs, a: Authority, receipt: string, code: string, version: string, age: bool) {
    exists text, mac ::
      && ReceiptCarries(k, receipt, code, version, text, mac) && Macs(a, code, version, text, mac)
      && age == (text == "1" || text == "true")
  }

  ghost predicate AuthenticReceipt(k: Codecs, a: Authority, policy: Policy, code: string, receipt: string) {
    exists age :: Says(k, a, receipt, code, policy.version, age) && (policy.ageRequired ==> age)
  }

  /** A policy is in force when its version has a character that is not white space. */
  ghost predicate InForce(policy: Policy) {
    exists i :: 0 <= i < |policy.version| && !IsWhitespace(policy.version[i])
  }

  // ---- the code ------------------------------------------------------------

  /** A code parses exactly when it carries a routable payload, and then into what it carries. */
  lemma ParsesWhatItCarries(k: Codecs, code: string, json: string, p: Payload, sig: Bytes)
    requires StrictUtf8(k)
    ensures ParseCode(k, code) == Pass(CodeView(p, json, sig)) <==> CodeCarries(k, code, json, p, sig)
    ensures ParseCode(k, code).Fail? ==> ParseCode(k, code) == Fail(MalformedCode)
  {
    TokenRoundTrip(code, k.utf8(json), sig);
    hide Encode, ReadToken;
    if ParseCode(k, code) == Pass(CodeView(p, json, sig)) {
      var t := ReadToken(code).value;
      assert t.0 == k.utf8(json);
    }
  }

  /** Which defect of a code is reported, in the order of the checks. */
  lemma CodeDefects(k: Codecs, a: Authority, code: string, now: nat)
    requires StrictUtf8(k)
    ensures var r := CheckCode(k, a, code, now);
            && (r.Pass? <==> AuthenticCode(k, a, code, now))
            && (r == Fail(MalformedCode) <==> forall json, p, sig :: !CodeCarries(k, code, json, p, sig))
            && (r == Fail(ExpiredCode) <==> exists p :: SignedCode(k, a, code, p) && p.exp <= now)
            && (r == Fail(InvalidCode) <==>
                && (exists json, p, sig :: CodeCarries(k, code, json, p, sig))
                && forall p :: !SignedCode(k, a, code, p))
  {
    hide ParseCode, CodeCarries;
    forall json, p, sig
      ensures ParseCode(k, code) == Pass(CodeView(p, json, sig)) <==> CodeCarries(k, code, json, p, sig)
      ensures ParseCode(k, code).Fail? ==> ParseCode(k, code) == Fail(MalformedCode)
    {
      ParsesWhatItCarries(k, code, json, p, sig);
    }
    if ParseCode(k, code).Pass? {
      var v := ParseCode(k, code).value;
      assert CodeCarries(k, code, v.json, v.payload, v.sig);
      if SignedHere(a, v.json, v.payload, v.sig) { assert SignedCode(k, a, code, v.payload); }
    } else {
      ParsesWhatItCarries(k, code, "", Payload(0, "", "", 0, ""), []);
    }
  }

  // ---- the receipt ---------------------------------------------------------

  /** The first of several fields ends at the first bar. */
  lemma FirstField(s: string) returns (head: string, tail: string)
    requires |SplitBars(s)| > 1
    ensures s == head + "|" + tail && '|' !in head && SplitBars(s) == [head] + SplitBars(tail)
  {
    var i := FirstBar(s);
    head, tail := s[..i], s[i + 1..];
    assert s == s[..i] + [s[i]] + s[i + 1..];
  }

  lemma Regroup(a: string, b: string, c: string)
    ensures a + "|" + (b + "|" + c) == a + "|" + b + "|" + c
  {
  }

  /** Three fields come from exactly two bars. */
  lemma ThreeFields(m: string)
    requires |SplitBars(m)| == 3
    ensures var f := SplitBars(m); m == f[0] + "|" + f[1] + "|" + f[2] && '|' !in f[0] && '|' !in f[1]
  {
    hide SplitBars, FirstBar;
    var a, rest := FirstField(m);
    var b, c := FirstField(rest);
    BarsCount(c);
    Regroup(a, b, c);
  }

  lemma FieldsOf(code: string, version: string, age: string)
    requires '|' !in code && '|' !in version && '|' !in age
    ensures SplitBars(code + "|" + version + "|" + age) == [code, version, age]
  {
    BarsCount(age);
    BarsSplit(code, version, age);
    Regroup(code, version, age);
  }

  predicate AgeText(age: string) {
    age == "1" || age == "true" || age == "0" || age == "false"
  }

  lemma AgeTextReads(age: string)
    ensures AgeOf(age).Some? <==> AgeText(age)
    ensures AgeOf(age) == Some(true) <==> age == "1" || age == "true"
    ensures AgeText(age) ==> '|' !in age
  {
  }

  /** What a receipt parses into is what it carries. */
  lemma ReceiptReads(k: Codecs, receipt: string)
    requires StrictUtf8(k) && ParseReceipt(k, receipt).Some?
    ensures var r := ParseReceipt(k, receipt).value;
            exists age :: ReceiptCarries(k, receipt, r.code, r.version, age, r.mac)
              && r.message == r.code + "|" + r.version + "|" + age && AgeOf(age) == Some(r.age)
  {
    var t := ReadToken(receipt).value;
    TokenRoundTrip(receipt, t.0, t.1);
    var m := k.fromUtf8(t.0).value;
    ThreeFields(m);
    var age := SplitBars(m)[2];
    AgeTextReads(age);
    hide ReadToken, Encode, SplitBars, AgeOf, FirstBar;
    var r := ParseReceipt(k, receipt).value;
    assert ReceiptCarries(k, receipt, r.code, r.version, age, r.mac);
  }

  lemma CarriedReceiptParses(k: Codecs, receipt: string, code: string, version: string, age: string, mac: Bytes)
    requires StrictUtf8(k) && ReceiptCarries(k, receipt, code, version, age, mac)
    ensures ParseReceipt(k, receipt) ==
            Some(ReceiptParts(code, version, age == "1" || age == "true", code + "|" + version + "|" + age, mac))
  {
    var m := code + "|" + version + "|" + age;
    AgeTextReads(age);
    FieldsOf(code, version, age);
    TokenRoundTrip(receipt, k.utf8(m), mac);
    hide Encode, ReadToken, SplitBars, AgeOf;
    assert k.fromUtf8(k.utf8(m)) == Some(m);
  }

  lemma SaysWhatItParses(k: Codecs, a: Authority, receipt: string, code: string, version: string, age: bool)
    requires StrictUtf8(k)
    ensures var r := ParseReceipt(k, receipt);
            Says(k, a, receipt, code, version, age) <==>
              && r.Some? && r.value.code == code && r.value.version == version && r.value.age == age
              && a.mac(r.value.message) == r.value.mac
  {
    hide ParseReceipt, ReceiptCarries, AgeOf;
    if ParseReceipt(k, receipt).Some? {
      ReceiptReads(k, receipt);
      var r := ParseReceipt(k, receipt).value;
      var text :| ReceiptCarries(k, receipt, r.code, r.version, text, r.mac)
        && r.message == r.code + "|" + r.version + "|" + text && AgeOf(text) == Some(r.age);
      AgeTextReads(text);
      if a.mac(r.message) == r.mac { assert Macs(a, r.code, r.version, text, r.mac); }
    }
    if Says(k, a, receipt, code, version, age) {
      var text, mac :| ReceiptCarries(k, receipt, code, version, text, mac) && Macs(a, code, version, text, mac)
        && age == (text == "1" || text == "true");
      CarriedReceiptParses(k, receipt, code, version, text, mac);
    }
  }

  /** Which defect of a receipt is reported, in the order of the checks. */
  lemma ReceiptDefects(k: Codecs, a: Authority, policy: Policy, code: string, receipt: string)
    requires StrictUtf8(k) && InForce(policy)
    ensures var e := CheckReceipt(k, a, policy, code, Some(receipt));
            && (e == Some(PolicyReceiptInvalid) <==> forall version, age :: !Says(k, a, receipt, code, version, age))
            && (e == Some(PolicyVersionMismatch) <==>
                exists version, age :: version != policy.version && Says(k, a, receipt, code, version, age))
            && (e == Some(AgeAttestationRequired) <==>
                policy.ageRequired && Says(k, a, receipt, code, policy.version, false))
            && (e.None? <==> AuthenticReceipt(k, a, policy, code, receipt))
  {
    hide ParseReceipt, Says;
    forall version, age
      ensures Says(k, a, receipt, code, version, age) <==>
              var r := ParseReceipt(k, receipt);
              && r.Some? && r.value.code == code && r.value.version == version && r.value.age == age
              && a.mac(r.value.message) == r.value.mac
    {
      SaysWhatItParses(k, a, receipt, code, version, age);
    }
    if ParseReceipt(k, receipt).Some? {
      var r := ParseReceipt(k, receipt).value;
      if r.code == code && a.mac(r.message) == r.mac { assert Says(k, a, receipt, code, r.version, r.age); }
    }
  }

  // ---- the claim -----------------------------------------------------------

  /** A claim this authority may honour, in terms of what was signed and what was MACed. */
  ghost predicate AuthenticClaim(o: Office, c: Claim, now: nat) {
    && c.joiner != "" && AuthenticCode(o.k, o.a, c.code, now)
    && (InForce(o.policy) ==> c.receipt.Some? && AuthenticReceipt(o.k, o.a, o.policy, c.code, c.receipt.value))
  }

  lemma ClaimIsChecked(o: Office, c: Claim, now: nat)
    requires StrictUtf8(o.k)
    ensures CheckClaim(o.k, o.a, o.policy, c, now).None? <==> AuthenticClaim(o, c, now)
  {
    hide CheckCode, CheckReceipt, AuthenticCode, AuthenticReceipt, InForce;
    CodeDefects(o.k, o.a, c.code, now);
    ReceiptErrors(o.k, o.a, o.policy, c.code, c.receipt);
    if InForce(o.policy) && c.receipt.Some? { ReceiptDefects(o.k, o.a, o.policy, c.code, c.receipt.value); }
  }

  /**
   A claim is accepted exactly when it is authentic and the store can honour it: it names a joiner;
   its code carries an unexpired payload for this community under a signature this authority
   verifies; and when a policy is in force, its receipt carries this code, the live version and the
   age attestation the policy asks for, under this authority's MAC of exactly that message.
   */
  lemma AcceptedExactlyWhenAuthentic(u: Universe, db: Db, o: Office, c: Claim, now: nat, stamp: nat)
    requires GroupOk(u, o.r, db) && WithinCaps(db) && StrictUtf8(o.k)
    ensures ApplyClaim(db, o, c, now, stamp).1.Pass? <==> AuthenticClaim(o, c, now) && CanBeHonoured(db, o, c, stamp)
  {
    hide GroupOk, WithinCaps, StrictUtf8, AuthenticClaim, CanBeHonoured, ApplyClaim, CheckClaim;
    ClaimIsChecked(o, c, now);
    ApplyClaimDecides(u, db, o, c, now, stamp);
  }

  /** Nobody but the authority can have signed: then the code is the one it minted. */
  lemma AcceptedCodeWasSigned(u: Universe, db: Db, o: Office, c: Claim, now: nat, stamp: nat)
    returns (json: string, p: Payload)
    requires GroupOk(u, o.r, db) && WithinCaps(db) && StrictUtf8(o.k)
    requires forall m, s :: o.a.verify(m, s) <==> s == o.a.sign(m)
    requires ApplyClaim(db, o, c, now, stamp).1.Pass?
    ensures c.joiner != "" && c.code == EncodeCode(o.k, json, o.a.sign(json))
    ensures o.k.fromJson(json) == Some(p) && p.cid == o.a.publicKey && now < p.exp
  {
    hide GroupOk, WithinCaps, StrictUtf8, CanBeHonoured, ApplyClaim;
    AcceptedExactlyWhenAuthentic(u, db, o, c, now, stamp);
    var sig;
    p :| SignedCode(o.k, o.a, c.code, p) && now < p.exp;
    json, sig :| CodeCarries(o.k, c.code, json, p, sig) && SignedHere(o.a, json, p, sig);
  }

  /**
   A refused claim is refused for its first defect: no joiner; a code that is not well formed, that
   this authority did not sign for its own community, or that has expired; then, when a policy is in
   force, a receipt that is missing or not MACed for this code, of another version, or without the
   age attestation; and last a membership that could not be written.
   */
  lemma RefusalNamesTheDefect(u: Universe, db: Db, o: Office, c: Claim, now: nat, stamp: nat)
    requires StrictUtf8(o.k)
    ensures var out := ApplyClaim(db, o, c, now, stamp).1;
            && (out == Fail(MalformedRequest) <==> c.joiner == "")
            && (out == Fail(MalformedCode) <==>
                c.joiner != "" && forall json, p, sig :: !CodeCarries(o.k, c.code, json, p, sig))
            && (out == Fail(InvalidCode) <==>
                && c.joiner != "" && (exists json, p, sig :: CodeCarries(o.k, c.code, json, p, sig))
                && forall p :: !SignedCode(o.k, o.a, c.code, p))
            && (out == Fail(ExpiredCode) <==>
                c.joiner != "" && exists p :: SignedCode(o.k, o.a, c.code, p) && p.exp <= now)
            && (out == Fail(PolicyReceiptInvalid) <==>
                && c.joiner != "" && AuthenticCode(o.k, o.a, c.code, now) && InForce(o.policy)
                && (c.receipt.Some? ==>
                      forall version, age :: !Says(o.k, o.a, c.receipt.value, c.code, version, age)))
            && (out == Fail(PolicyVersionMismatch) <==>
                && c.joiner != "" && AuthenticCode(o.k, o.a, c.code, now) && InForce(o.policy) && c.receipt.Some?
                && exists version, age ::
                     version != o.policy.version && Says(o.k, o.a, c.receipt.value, c.code, version, age))
            && (out == Fail(AgeAttestationRequired) <==>
                && c.joiner != "" && AuthenticCode(o.k, o.a, c.code, now) && InForce(o.policy) && c.receipt.Some?
                && o.policy.ageRequired && Says(o.k, o.a, c.receipt.value, c.code, o.policy.version, false))
            && (out == Fail(MembershipWriteFailed) ==> AuthenticClaim(o, c, now))
  {
    hide CheckCode, CheckReceipt, AuthenticCode, InForce, Says, SignedCode, CodeCarries, AddMember, CommunityMember,
      AuthenticClaim;
    CodeDefects(o.k, o.a, c.code, now);
    CodeErrors(o.k, o.a, c.code, now);
    ReceiptErrors(o.k, o.a, o.policy, c.code, c.receipt);
    ClaimIsChecked(o, c, now);
    if InForce(o.policy) && c.receipt.Some? { ReceiptDefects(o.k, o.a, o.policy, c.code, c.receipt.value); }
  }

  lemma CodeErrors(k: Codecs, a: Authority, code: string, now: nat)
    ensures var r := CheckCode(k, a, code, now);
            r.Fail? ==> r.error == MalformedCode || r.error == InvalidCode || r.error == ExpiredCode
  {
    hide ReadToken;
  }

  lemma ReceiptErrors(k: Codecs, a: Authority, policy: Policy, code: string, receipt: Option<string>)
    ensures var e := CheckReceipt(k, a, policy, code, receipt);
            && (e.Some? ==> InForce(policy))
            && (e.Some? ==> e.value in {PolicyReceiptInvalid, PolicyVersionMismatch, AgeAttestationRequired})
            && (InForce(policy) && receipt.None? ==> e == Some(PolicyReceiptInvalid))
            && (receipt.None? && e.Some? ==> e.value == PolicyReceiptInvalid)
  {
    hide ParseReceipt;
  }

  // ---- membership ----------------------------------------------------------

  /** A stored, undeleted event of kind 39002 has a `p` tag with this key in lower case. */
  ghost predicate InSomeList(db: Db, key: string) {
    exists id, i ::
      && id in db.events && !db.events[id].deleted && db.events[id].ev.kind == 39002
      && 0 <= i < |db.events[id].ev.tags| && NamesKey(db.events[id].ev.tags[i], Lower(key))
  }

  predicate NamesKey(t: Tag, key: string) {
    |t| >= 2 && t[0] == "p" && t[1] == key
  }

  lemma ListedByTag(tags: seq<Tag>, key: string)
    ensures Listed(PEntries(tags), key) <==> exists i :: 0 <= i < |tags| && NamesKey(tags[i], key)
  {
    var es := PEntries(tags);
    if k :| 0 <= k < |es| && es[k].0 == key {
      EntriesAreRead(tags, es[k]);
      var i :| 0 <= i < |tags| && Entitles(tags[i], es[k]);
      assert NamesKey(tags[i], key);
    }
    if i :| 0 <= i < |tags| && NamesKey(tags[i], key) {
      var e := (key, if |tags[i]| == 2 || tags[i][2] == "" then "member" else tags[i][2]);
      assert Entitles(tags[i], e);
      EntriesAreRead(tags, e);
      var k :| 0 <= k < |es| && es[k] == e;
      assert es[k].0 == key;
    }
  }

  lemma MembersAreListed(db: Db, joiner: string)
    ensures CommunityMember(db, joiner) <==>
            |joiner| == 64 && (forall i :: 0 <= i < 64 ==> joiner[i] in HEX_DIGITS) && InSomeList(db, joiner)
  {
    TextsOfIds(joiner, joiner);
    forall id | id in db.events
      ensures Listed(PEntries(db.events[id].ev.tags), Lower(joiner)) <==>
              exists i :: 0 <= i < |db.events[id].ev.tags| && NamesKey(db.events[id].ev.tags[i], Lower(joiner))
    {
      ListedByTag(db.events[id].ev.tags, Lower(joiner));
    }
    hide NamesKey, Listed, PEntries;
    if CommunityMember(db, joiner) {
      var id :| ListsMember(db, id, Lower(joiner));
      var i :| 0 <= i < |db.events[id].ev.tags| && NamesKey(db.events[id].ev.tags[i], Lower(joiner));
    }
    if Is64Hex(joiner) && InSomeList(db, joiner) {
      var id, i :| id in db.events && !db.events[id].deleted && db.events[id].ev.kind == 39002
        && 0 <= i < |db.events[id].ev.tags| && NamesKey(db.events[id].ev.tags[i], Lower(joiner));
      assert ListsMember(db, id, Lower(joiner));
    }
  }

  /**
   An accepted claim reports "already_member" exactly when the joiner was in a stored member list, and
   then writes nothing; otherwise "joined". Either way the joiner, a 64-hex key, is in one afterwards.
   */
  lemma AcceptedClaimLists(u: Universe, db: Db, o: Office, c: Claim, now: nat, stamp: nat)
    requires GroupOk(u, o.r, db) && WithinCaps(db) && ApplyClaim(db, o, c, now, stamp).1.Pass?
    ensures var (d, out) := ApplyClaim(db, o, c, now, stamp);
            && |c.joiner| == 64 && (forall i :: 0 <= i < 64 ==> c.joiner[i] in HEX_DIGITS) && InSomeList(d, c.joiner)
            && out.value == ClaimResponse(if InSomeList(db, c.joiner) then "already_member"
               else "joined", o.a.publicKey)
            && (InSomeList(db, c.joiner) ==> d == db)
  {
    ApplyClaimDecides(u, db, o, c, now, stamp);
    hide GroupOk, WithinCaps, CheckClaim, InSomeList, CanBeHonoured, AddMember, CommunityMember;
    MembersAreListed(db, c.joiner);
    MembersAreListed(ApplyClaim(db, o, c, now, stamp).0, c.joiner);
  }

  // ---- minting -------------------------------------------------------------

  /**
   An invite is minted exactly for an admin, a named agent and a time to live from one second to
   thirty days that does not overflow; the code is signed, routed to that agent, and honoured by
   every check until the moment it expires and not after.
   */
  lemma MintedIsAuthentic(k: Codecs, a: Authority, isAdmin: bool, aid: string, nonce: string, ttl: Option<nat>,
        minted: nat, now: nat)
    requires StrictUtf8(k) && Lawful(k) && Ideal(a) && a.publicKey != ""
    ensures var r := Mint(k, a, isAdmin, aid, nonce, ttl, minted);
            var t := if ttl.Some? then ttl.value else 86_400;
            && (r.Pass? <==> isAdmin && aid != "" && 1 <= t <= 2_592_000 && minted + t < 0x1_0000_0000_0000_0000)
            && (r.Pass? ==>
                  && r.value.1 == minted + t
                  && SignedCode(k, a, r.value.0, Payload(1, a.publicKey, aid, minted + t, nonce))
                  && (AuthenticCode(k, a, r.value.0, now) <==> now < minted + t))
  {
    var t := if ttl.Some? then ttl.value else 86_400;
    var p := Payload(1, a.publicKey, aid, minted + t, nonce);
    var json := k.toJson(p);
    var code := EncodeCode(k, json, a.sign(json));
    if Mint(k, a, isAdmin, aid, nonce, ttl, minted).Pass? {
      hide Encode;
      assert k.fromJson(json) == Some(p) && a.verify(json, a.sign(json)) && |a.sign(json)| == SIGNATURE_LENGTH;
      assert CodeCarries(k, code, json, p, a.sign(json)) && SignedHere(a, json, p, a.sign(json));
      forall json2, p2, sig2 | CodeCarries(k, code, json2, p2, sig2) ensures p2 == p {
        ParsesWhatItCarries(k, code, json, p, a.sign(json));
        ParsesWhatItCarries(k, code, json2, p2, sig2);
      }
    }
  }

  /**
   A receipt is made exactly when a policy is in force and its version is the one accepted; it then
   says, under this authority's MAC, exactly the code, that version and the age that was confirmed.
   */
  lemma ReceiptSaysWhatWasAccepted(k: Codecs, a: Authority, policy: Policy, code: string, version: string, age: bool,
        other: bool)
    requires StrictUtf8(k) && '|' !in code && '|' !in version
    ensures var r := AcceptPolicy(k, a, policy, code, version, age);
            && (r.Pass? <==> InForce(policy) && code != "" && version == policy.version)
            && (r.Pass? ==> (Says(k, a, r.value, code, version, other) <==> other == age))
  {
    hide Encode;
    var text := if age then "1" else "0";
    var r := AcceptPolicy(k, a, policy, code, version, age);
    if r.Pass? {
      var m := code + "|" + version + "|" + text;
      assert ReceiptCarries(k, r.value, code, version, text, a.mac(m)) && Macs(a, code, version, text, a.mac(m));
      CarriedReceiptParses(k, r.value, code, version, text, a.mac(m));
      hide ReceiptCarries, ParseReceipt, Says;
      SaysWhatItParses(k, a, r.value, code, version, other);
    }
  }
}
