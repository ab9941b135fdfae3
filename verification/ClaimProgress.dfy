/**
 The other half of claim safety: when the network does deliver, a valid claim comes back. Five steps
 lead from any world in which the authority is idle to one in which the call has returned its verdict.
 */
module ClaimProgress {
  import opened Options
  import opened Events
  import opened Tables
  import opened Invites
  import opened ClaimProtocol

  /** Steps one after another, without regard to the invariant. */
  ghost predicate Path(env: Env, w: World, steps: seq<Step>, w': World) {
    if steps == [] then w' == w else
      var n := |steps| - 1;
      exists mid :: Path(env, w, steps[..n], mid) && Steps(env, mid, steps[n], w')
  }

  lemma OneMore(env: Env, w: World, steps: seq<Step>, mid: World, s: Step, w': World)
    requires Path(env, w, steps, mid) && Steps(env, mid, s, w')
    ensures Path(env, w, steps + [s], w')
  {
    assert (steps + [s])[..|steps|] == steps;
  }

  lemma FiveSteps(env: Env, w0: World, s1: Step, w1: World, s2: Step, w2: World, s3: Step, w3: World, s4: Step,
        w4: World, s5: Step, w5: World)
    requires Steps(env, w0, s1, w1) && Steps(env, w1, s2, w2) && Steps(env, w2, s3, w3)
    requires Steps(env, w3, s4, w4) && Steps(env, w4, s5, w5)
    ensures Path(env, w0, [s1, s2, s3, s4, s5], w5)
  {
    hide Steps;
    OneMore(env, w0, [], w0, s1, w1);
    assert [] + [s1] == [s1];
    OneMore(env, w0, [s1], w1, s2, w2);
    assert [s1] + [s2] == [s1, s2];
    OneMore(env, w0, [s1, s2], w2, s3, w3);
    assert [s1, s2] + [s3] == [s1, s2, s3];
    OneMore(env, w0, [s1, s2, s3], w3, s4, w4);
    assert [s1, s2, s3] + [s4] == [s1, s2, s3, s4];
    OneMore(env, w0, [s1, s2, s3, s4], w4, s5, w5);
    assert [s1, s2, s3, s4] + [s5] == [s1, s2, s3, s4, s5];
  }

  /** A claim as a claimant may send it, routed to an authority. */
  predicate Sendable(env: Env, c: BusClaim, aid: AgentId, cid: string, now: nat) {
    && c.claim.joiner != ""
    && var parsed := ParseCode(env.k, c.claim.code);
       && parsed.Pass? && now < parsed.value.payload.exp
       && AgentOf(parsed.value.payload.aid) == Some(aid) && parsed.value.payload.cid == cid
  }

  function ClaimFrame(n: AgentId, aid: AgentId, id: RequestId, c: BusClaim): Message {
    Message(aid, n, true, Some(ClaimMsg(ENVELOPE_VERSION, id, n, c)))
  }

  function ResultFrame(n: AgentId, aid: AgentId, id: RequestId, v: Verdict): Message {
    Message(n, aid, true, Some(ResultMsg(ENVELOPE_VERSION, id, FromVerdict(v))))
  }

  ghost predicate TwoBridges(w: World, n: AgentId, aid: AgentId) {
    n in w.bridges && aid in w.bridges && n != aid && AgentOf(n) == Some(n) && AgentOf(aid) == Some(aid)
  }

  ghost predicate CallIs(w: World, n: AgentId, id: RequestId, call: Call) {
    n in w.bridges && id in w.bridges[n].calls && w.bridges[n].calls[id] == call
  }

  ghost predicate Awaits(w: World, n: AgentId, id: RequestId, call: Call) {
    && CallIs(w, n, id, call) && call.status == Waiting
    && id in w.bridges[n].pending && w.bridges[n].pending[id] == Pending(call.aid, call.cid)
  }

  lemma Ask(env: Env, w: World, n: AgentId, aid: AgentId, cid: string, id: RequestId, c: BusClaim, now: nat)
    returns (w': World)
    requires TwoBridges(w, n, aid) && id !in w.asked && Sendable(env, c, aid, cid, now)
    ensures Steps(env, w, Step.Ask(n, id, c, now), w')
    ensures TwoBridges(w', n, aid) && Awaits(w', n, id, Call(aid, cid, c, Waiting))
            && ClaimFrame(n, aid, id, c) in w'.sent
    ensures w'.bridges[aid] == w.bridges[aid]
  {
    var b := w.bridges[n];
    w' := Put(w, n, b.(pending := b.pending[id := Pending(aid, cid)],
      calls := b.calls[id := Call(aid, cid, c, Waiting)]))
          .(sent := w.sent + {ClaimFrame(n, aid, id, c)}, asked := w.asked[id := Asked(n, aid, c)]);
  }

  lemma Queue(env: Env, w: World, n: AgentId, aid: AgentId, cid: string, id: RequestId, c: BusClaim, now: nat)
    returns (w': World)
    requires TwoBridges(w, n, aid) && Awaits(w, n, id, Call(aid, cid, c, Waiting))
             && ClaimFrame(n, aid, id, c) in w.sent
    requires Sendable(env, c, aid, cid, now) && Proven(env, c) && w.bridges[aid].work == []
    ensures Steps(env, w, Deliver(aid, ClaimFrame(n, aid, id, c)), w')
    ensures TwoBridges(w', n, aid) && Awaits(w', n, id, Call(aid, cid, c, Waiting))
    ensures w'.bridges[aid].db == w.bridges[aid].db && w'.bridges[aid].work == [Work(id, c, n)]
  {
    hide Proven, ParseCode;
    w' := Put(w, aid, w.bridges[aid].(work := [Work(id, c, n)]));
    assert Receive(env, aid, w.bridges[aid], ClaimFrame(n, aid, id, c)) == w'.bridges[aid];
  }

  lemma Decide(env: Env, w: World, n: AgentId, aid: AgentId, cid: string, id: RequestId, c: BusClaim, now: nat,
        stamp: nat, v: Verdict)
    returns (w': World)
    requires TwoBridges(w, n, aid) && Awaits(w, n, id, Call(aid, cid, c, Waiting))
    requires aid in env.office && w.bridges[aid].work == [Work(id, c, n)]
    requires ApplyClaim(w.bridges[aid].db, env.office[aid], c.claim, now, stamp).1 == v
    ensures Steps(env, w, Adjudicate(aid, now, stamp, true), w')
    ensures TwoBridges(w', n, aid) && Awaits(w', n, id, Call(aid, cid, c, Waiting))
            && ResultFrame(n, aid, id, v) in w'.sent
  {
    hide ApplyClaim, FromVerdict;
    var (d, _) := ApplyClaim(w.bridges[aid].db, env.office[aid], c.claim, now, stamp);
    var b := w.bridges[aid];
    w' := Put(w, aid, b.(db := d, work := b.work[1..]))
          .(sent := w.sent + {ResultFrame(n, aid, id, v)}, log := w.log + [Decision(aid, n, id, c, now, d, v)]);
  }

  lemma Answer(env: Env, w: World, n: AgentId, aid: AgentId, cid: string, id: RequestId, c: BusClaim, v: Verdict)
    returns (w': World)
    requires TwoBridges(w, n, aid) && Awaits(w, n, id, Call(aid, cid, c, Waiting))
             && ResultFrame(n, aid, id, v) in w.sent
    requires v.Pass? ==> v.value.communityId == cid
    ensures Steps(env, w, Deliver(n, ResultFrame(n, aid, id, v)), w')
    ensures CallIs(w', n, id, Call(aid, cid, c, Replied(v)))
  {
    VerdictRoundTrip(v, FromVerdict(v));
    w' := Put(w, n, TakeResult(w.bridges[n], aid, ResultMsg(ENVELOPE_VERSION, id, FromVerdict(v))));
  }

  lemma Return(env: Env, w: World, n: AgentId, aid: AgentId, cid: string, id: RequestId, c: BusClaim, v: Verdict)
    returns (w': World)
    requires CallIs(w, n, id, Call(aid, cid, c, Replied(v)))
    ensures Steps(env, w, Collect(n, id), w')
    ensures CallIs(w', n, id, Call(aid, cid, c, Returned(v)))
  {
    w' := Put(w, n, Finish(w.bridges[n], id, v));
  }

  /** A favourable verdict always names the community of the code it honoured. */
  lemma VerdictNamesCommunity(env: Env, aid: AgentId, db: Db, c: Claim, now: nat, stamp: nat)
    requires aid in env.office && env.office[aid].k == env.k && ApplyClaim(db, env.office[aid], c, now, stamp).1.Pass?
    ensures ParseCode(env.k, c.code).Pass?
    ensures ApplyClaim(db, env.office[aid], c, now, stamp).1.value.communityId
            == ParseCode(env.k, c.code).value.payload.cid
  {
    hide ParseCode, CheckReceipt, CommunityMember;
  }

  lemma VerdictNamesRoute(env: Env, c: BusClaim, aid: AgentId, cid: string, now: nat, db: Db, later: nat, stamp: nat,
        v: Verdict)
    requires aid in env.office && env.office[aid].k == env.k && Sendable(env, c, aid, cid, now)
    requires ApplyClaim(db, env.office[aid], c.claim, later, stamp).1 == v
    ensures v.Pass? ==> v.value.communityId == cid
  {
    hide ApplyClaim;
    if v.Pass? { VerdictNamesCommunity(env, aid, db, c.claim, later, stamp); }
  }

  /**
   A claim that is routed, proven and adjudicated comes back: there is a path of five steps to a world
   in which the call has returned exactly the authority's verdict.
   */
  lemma ClaimComesBack(env: Env, w: World, n: AgentId, aid: AgentId, cid: string, id: RequestId, c: BusClaim,
        now: nat, later: nat, stamp: nat, v: Verdict)
    returns (steps: seq<Step>, w': World)
    requires TwoBridges(w, n, aid) && id !in w.asked && w.bridges[aid].work == []
    requires aid in env.office && env.office[aid].k == env.k
    requires Sendable(env, c, aid, cid, now) && Proven(env, c)
    requires ApplyClaim(w.bridges[aid].db, env.office[aid], c.claim, later, stamp).1 == v
    ensures Path(env, w, steps, w') && |steps| == 5
    ensures CallIs(w', n, id, Call(aid, cid, c, Returned(v)))
  {
    hide Steps, ApplyClaim, ParseCode, Proven, Awaits, CallIs, ClaimFrame, ResultFrame, Sendable, Path;
    VerdictNamesRoute(env, c, aid, cid, now, w.bridges[aid].db, later, stamp, v);
    hide TwoBridges;
    var w1 := Ask(env, w, n, aid, cid, id, c, now);
    var w2 := Queue(env, w1, n, aid, cid, id, c, now);
    var w3 := Decide(env, w2, n, aid, cid, id, c, later, stamp, v);
    var w4 := Answer(env, w3, n, aid, cid, id, c, v);
    w' := Return(env, w4, n, aid, cid, id, c, v);
    steps := [Step.Ask(n, id, c, now), Deliver(aid, ClaimFrame(n, aid, id, c)), Adjudicate(aid, later, stamp, true),
              Deliver(n, ResultFrame(n, aid, id, v)), Collect(n, id)];
    FiveSteps(env, w, steps[0], w1, steps[1], w2, steps[2], w3, steps[3], w4, steps[4], w');
  }
}
