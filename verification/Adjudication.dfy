/**
 Claim adjudication against the authority's own store (src/invites.rs `apply_claim` over
 src/nip29.rs `add_member_from_invite`): what an accepted claim guarantees, and what a repeated one does.
 */
module Adjudication {
  import opened Options
  import opened Ids
  import opened Events
  import opened Tables
  import opened Engine
  import opened Attach
  import opened Groups
  import opened GroupState
  import opened GroupRuns
  import opened Invites

  /** A listed key of a channel's current list is a community member. */
  lemma ListedIsMember(u: Universe, r: Relay, db: Db, channel: string, joiner: string)
    requires GroupOk(u, r, db) && Is64Hex(joiner) && Listed(View(db, r, channel).members, Lower(joiner))
    ensures CommunityMember(db, joiner)
  {
    HolderIsStored(u, r, db, KIND_MEMBERS, channel);
    var e := Holder(db, r, KIND_MEMBERS, channel).value;
    AddressedHoldsSlot(u, r, db, KIND_MEMBERS, channel, e.id);
    assert ListsMember(db, e.id, Lower(joiner));
  }

  lemma AdmittedIsListed(c: ChannelState, key: string)
    ensures Listed(Admitted(c, key).members, key)
  {
    if !Listed(c.members, key) {
      assert Admitted(c, key).members[|c.members|].0 == key;
    }
  }

  /** Is this claim, valid in itself, one the store can honour? */
  ghost predicate CanBeHonoured(db: Db, o: Office, c: Claim, stamp: nat) {
    CommunityMember(db, c.joiner) ||
    (&& o.primary != "" && Is64Hex(c.joiner)
     && View(db, o.r, o.primary).meta.Some?
     && (Listed(View(db, o.r, o.primary).members, Lower(c.joiner))
         || StampFits(o.r, db, o.primary, KIND_MEMBERS, stamp)))
  }

  /**
   A claim is accepted exactly when it passes every check and the store can honour it. Accepted: the
   joiner is in a stored member list and the response names this community. Refused: nothing changed.
   */
  lemma ApplyClaimDecides(u: Universe, db: Db, o: Office, c: Claim, now: nat, stamp: nat)
    requires GroupOk(u, o.r, db) && WithinCaps(db)
    ensures var (d, out) := ApplyClaim(db, o, c, now, stamp);
            && GroupOk(u, o.r, d)
            && (out.Pass? <==> CheckClaim(o.k, o.a, o.policy, c, now).None? && CanBeHonoured(db, o, c, stamp))
            && (out.Pass? ==> CommunityMember(d, c.joiner) && out.value.communityId == o.a.publicKey)
            && (out.Fail? ==> d == db)
  {
    hide CheckClaim;
    if CheckClaim(o.k, o.a, o.policy, c, now).None? && !CommunityMember(db, c.joiner) {
      AdmissionRefines(u, o.r, db, o.primary, c.joiner, stamp);
      var (d, a) := AddMember(db, o.r, o.primary, c.joiner, stamp);
      var before := View(db, o.r, o.primary);
      hide GroupOk, CommunityMember, AddMember, Holder, View, StampFits;
      if a.Added? {
        AdmittedIsListed(before, Lower(c.joiner));
        StampedMeansFits(o.r, db, o.primary, stamp, d, u);
        ListedIsMember(u, o.r, d, o.primary, c.joiner);
      }
      if Is64Hex(c.joiner) && Listed(before.members, Lower(c.joiner)) {
        ListedIsMember(u, o.r, db, o.primary, c.joiner);
      }
    }
  }

  lemma StampedMeansFits(r: Relay, db: Db, channel: string, now: nat, d: Db, u: Universe)
    requires GroupOk(u, r, d) && StampedAt(r, db, channel, KIND_MEMBERS, now, d)
    ensures StampFits(r, db, channel, KIND_MEMBERS, now)
  {
    HolderIsStored(u, r, d, KIND_MEMBERS, channel);
  }

  /** After an accepted claim, any further valid claim by the same key reports membership and writes nothing. */
  lemma RepeatedClaimWritesNothing(u: Universe, db: Db, o: Office, c: Claim, now: nat, stamp: nat, again: Claim,
        later: nat, stamp2: nat)
    requires GroupOk(u, o.r, db) && WithinCaps(db)
    requires ApplyClaim(db, o, c, now, stamp).1.Pass? && again.joiner == c.joiner
    requires CheckClaim(o.k, o.a, o.policy, again, later).None?
    ensures var d := ApplyClaim(db, o, c, now, stamp).0;
            ApplyClaim(d, o, again, later, stamp2) == (d, Pass(JoinResponse(o, "already_member")))
  {
    ApplyClaimDecides(u, db, o, c, now, stamp);
    hide CheckClaim, CommunityMember, GroupOk;
  }

  /**
   End of the invite path: mint, accept the policy, claim before expiry. With a channel to join and a
   clock that fits, the joiner ends as a member; claiming again changes nothing.
   */
  lemma InviteAdmits(u: Universe, db: Db, o: Office, aid: string, nonce: string, ttl: Option<nat>, minted: nat,
                     age: bool,
                     joiner: string, now: nat, stamp: nat)
    requires GroupOk(u, o.r, db) && WithinCaps(db)
    requires Lawful(o.k) && Ideal(o.a) && o.a.publicKey != ""
    requires Mint(o.k, o.a, true, aid, nonce, ttl, minted).Pass?
    requires now < Mint(o.k, o.a, true, aid, nonce, ttl, minted).value.1
    requires (o.policy.ageRequired ==> age) && (Enabled(o.policy) ==> BarFree(o.policy.version))
    requires o.primary != "" && Is64Hex(joiner) && View(db, o.r, o.primary).meta.Some?
    requires StampFits(o.r, db, o.primary, KIND_MEMBERS, stamp)
    ensures var code := Mint(o.k, o.a, true, aid, nonce, ttl, minted).value.0;
            var accepted := AcceptPolicy(o.k, o.a, o.policy, code, o.policy.version, age);
            var c := Claim(code, if accepted.Pass? then Some(accepted.value) else None, joiner);
            var (d, out) := ApplyClaim(db, o, c, now, stamp);
            && out.Pass? && CommunityMember(d, joiner)
            && forall stamp2: nat :: ApplyClaim(d, o, c, now, stamp2) == (d, Pass(JoinResponse(o, "already_member")))
  {
    var code := Mint(o.k, o.a, true, aid, nonce, ttl, minted).value.0;
    FreshInvitePasses(o, aid, nonce, ttl, minted, age, joiner, now);
    hide Mint, AcceptPolicy, CheckClaim, GroupOk, WithinCaps, View, Lawful, Ideal;
    var accepted := AcceptPolicy(o.k, o.a, o.policy, code, o.policy.version, age);
    var c := Claim(code, if accepted.Pass? then Some(accepted.value) else None, joiner);
    ApplyClaimDecides(u, db, o, c, now, stamp);
    assert CanBeHonoured(db, o, c, stamp);
    var d := ApplyClaim(db, o, c, now, stamp).0;
    forall stamp2: nat ensures ApplyClaim(d, o, c, now, stamp2) == (d, Pass(JoinResponse(o, "already_member"))) {
      RepeatedClaimWritesNothing(u, db, o, c, now, stamp, c, now, stamp2);
    }
  }
}
