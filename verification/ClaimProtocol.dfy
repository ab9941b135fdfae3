/**
 The cross-node invite claim (src/m1b.rs): any number of bridges, each both claimant and authority,
 over a network that loses, duplicates and reorders messages and lets anybody inject frames the
 daemon could not verify. Verified frames name their true sender; agents that are not bridges of this
 model may send anything under their own name.
 */
module ClaimProtocol {
  import opened Options
  import opened Ids
  import opened Events
  import opened Tables
  import opened Attach
  import opened Groups
  import opened Base64Url
  import opened GroupState
  import opened GroupRuns
  import opened Invites
  import opened Adjudication
  import opened ClaimChecks

  type AgentId = string
  type RequestId = nat
  type Verdict = Checked<ClaimResponse>

  /** `AgentId::from_hex`: 64 hex digits, compared in lower case. */
  function AgentOf(s: string): Option<AgentId> {
    if Is64Hex(s) then Some(Lower(s)) else None
  }

  /** An agent is named by 64 hex digits, in either case, and is the same agent in both. */
  lemma AgentsUpToCase(s: string, t: string)
    ensures AgentOf(s).Some? <==> |s| == 64 && forall i :: 0 <= i < 64 ==> s[i] in HEX_DIGITS
    ensures AgentOf(s).Some? && AgentOf(t).Some? ==> (AgentOf(s) == AgentOf(t) <==> Lower(s) == Lower(t))
    ensures AgentOf(s).Some? ==> AgentOf(s).value == Lower(s)
  {
    TextsOfIds(s, t);
  }

  // ---- messages ------------------------------------------------------------

  datatype DirectResult = DirectResult(ok: bool, response: Option<ClaimResponse>, error: Option<InviteError>)

  function FromVerdict(v: Verdict): DirectResult {
    match v
    case Pass(r) => DirectResult(true, Some(r), None)
    case Fail(e) => DirectResult(false, None, Some(e))
  }

  function IntoVerdict(d: DirectResult): Option<Verdict> {
    match d
    case DirectResult(true, Some(r), None) => Some(Pass(r))
    case DirectResult(false, None, Some(e)) => Some(Fail(e))
    case _ => None
  }

  /** The wire form of a verdict reads back as it, and only well-shaped forms read at all. */
  lemma VerdictRoundTrip(v: Verdict, d: DirectResult)
    ensures IntoVerdict(d) == Some(v) <==> d == FromVerdict(v)
  {
  }

  /** A claim as it travels, with the joiner's portable proof. */
  datatype BusClaim = BusClaim(claim: Claim, proof: Option<nat>)

  const ENVELOPE_VERSION := 1

  datatype Envelope =
    | ClaimMsg(version: nat, requestId: RequestId, replyTo: string, claim: BusClaim)
    | ResultMsg(version: nat, requestId: RequestId, result: DirectResult)

  /** A received frame; a payload that does not parse is None. */
  datatype Message = Message(to: AgentId, sender: string, verified: bool, envelope: Option<Envelope>)

  // ---- bridges -------------------------------------------------------------

  datatype Pending = Pending(expectedAid: AgentId, expectedCid: string)

  /** A `request_claim` call; `Lost` is a reply sender dropped without a reply. */
  datatype CallStatus = Waiting | Replied(verdict: Verdict) | Lost | Returned(verdict: Verdict)

  datatype Call = Call(aid: AgentId, cid: string, claim: BusClaim, status: CallStatus)

  datatype Work = Work(requestId: RequestId, claim: BusClaim, replyTo: AgentId)

  datatype Bridge = Bridge(db: Db, pending: map<RequestId, Pending>, calls: map<RequestId, Call>, work: seq<Work>)

  /** What a bridge was asked, and what an authority decided: histories, not program state. */
  datatype Asked = Asked(claimant: AgentId, aid: AgentId, claim: BusClaim)

  datatype Decision = Decision(authority: AgentId, replyTo: AgentId, requestId: RequestId, claim: BusClaim, at: nat,
    after: Db, verdict: Verdict)

  datatype World = World(
    bridges: map<AgentId, Bridge>,
    sent: set<Message>,
    asked: map<RequestId, Asked>,
    log: seq<Decision>)

  /** The fixed surroundings: event ids, codecs, each bridge's office, what a proof attests. */
  datatype Env = Env(
    u: Universe,
    k: Codecs,
    office: map<AgentId, Office>,
    proves: (nat, string) -> Option<(string, Option<string>)>)

  /** The proof is the joiner's signature over exactly this code and receipt. */
  predicate Proven(env: Env, c: BusClaim) {
    c.proof.Some? && env.proves(c.proof.value, c.claim.joiner) == Some((c.claim.code, c.claim.receipt))
  }

  // ---- the inbox -----------------------------------------------------------

  /** `handle_incoming_claim`: every failed check drops the frame. */
  function TakeClaim(env: Env, self: AgentId, b: Bridge, sender: AgentId, m: Envelope): Bridge
    requires m.ClaimMsg?
  {
    match ParseCode(env.k, m.claim.claim.code)
    case Fail(_) => b
    case Pass(view) =>
      if AgentOf(m.replyTo) != Some(sender) || AgentOf(view.payload.aid) != Some(self) || !Proven(env, m.claim) then b
      else b.(work := b.work + [Work(m.requestId, m.claim, sender)])
  }

  /** An Ok result must carry a response for the expected community; an error needs only its sender. */
  predicate Expected(p: Pending, sender: AgentId, d: DirectResult) {
    && p.expectedAid == sender
    && (d.ok ==> d.response.Some? && d.response.value.communityId == p.expectedCid)
  }

  /** `handle_incoming_result`: validate, remove the entry, complete the waiting call. */
  function TakeResult(b: Bridge, sender: AgentId, m: Envelope): Bridge
    requires m.ResultMsg?
  {
    if m.requestId !in b.pending || !Expected(b.pending[m.requestId], sender, m.result) then b
    else
      var status := match IntoVerdict(m.result) { case Some(v) => Replied(v) case None => Lost };
      b.(pending := b.pending - {m.requestId},
         calls := if m.requestId in b.calls then b.calls[m.requestId := b.calls[m.requestId].(status := status)]
           else b.calls)
  }

  /** `handle_direct_message`. */
  function Receive(env: Env, self: AgentId, b: Bridge, msg: Message): Bridge {
    if !msg.verified then b
    else match (AgentOf(msg.sender), msg.envelope)
      case (Some(sender), Some(m)) =>
        if m.version != ENVELOPE_VERSION then b
        else if m.ClaimMsg? then TakeClaim(env, self, b, sender, m)
        else TakeResult(b, sender, m)
      case _ => b
  }

  /** What makes a bridge act on a claim frame: it is for this authority, proven, and from whom it says. */
  predicate ClaimCounts(env: Env, self: AgentId, sender: AgentId, m: Envelope)
    requires m.ClaimMsg?
  {
    && AgentOf(m.replyTo) == Some(sender) && Proven(env, m.claim)
    && ParseCode(env.k, m.claim.claim.code).Pass?
    && AgentOf(ParseCode(env.k, m.claim.claim.code).value.payload.aid) == Some(self)
  }

  /** What makes a bridge act on a result frame: a call waits for it, from this authority, about this community. */
  predicate ResultCounts(b: Bridge, sender: AgentId, m: Envelope)
    requires m.ResultMsg?
  {
    && m.requestId in b.pending && b.pending[m.requestId].expectedAid == sender
    && (m.result.ok ==>
          m.result.response.Some? && m.result.response.value.communityId == b.pending[m.requestId].expectedCid)
  }

  /**
   A frame changes a bridge exactly when it is verified, comes from an agent, parses as version 1 and
   counts: a claim then joins the work list, a result removes its entry. All other frames are dropped.
   */
  lemma FramesThatCount(env: Env, self: AgentId, b: Bridge, msg: Message)
    ensures Receive(env, self, b, msg) != b <==>
            && msg.verified && AgentOf(msg.sender).Some? && msg.envelope.Some? && msg.envelope.value.version == 1
            && var sender, m := AgentOf(msg.sender).value, msg.envelope.value;
               if m.ClaimMsg? then ClaimCounts(env, self, sender, m) else ResultCounts(b, sender, m)
    ensures var b' := Receive(env, self, b, msg);
            b' != b ==>
              var sender, m := AgentOf(msg.sender).value, msg.envelope.value;
              && b'.db == b.db
              && (m.ClaimMsg? ==> b' == b.(work := b.work + [Work(m.requestId, m.claim, sender)]))
              && (m.ResultMsg? ==> b'.pending == b.pending - {m.requestId} && b'.work == b.work)
  {
    hide ParseCode, Proven, AgentOf;
    var grown := if msg.envelope.Some? && msg.envelope.value.ClaimMsg? && AgentOf(msg.sender).Some?
                 then b.work + [Work(msg.envelope.value.requestId, msg.envelope.value.claim, AgentOf(msg.sender).value)]
                 else b.work;
    assert grown != b.work ==> |grown| == |b.work| + 1;
  }

  // ---- steps ---------------------------------------------------------------

  datatype Step =
    | Ask(n: AgentId, requestId: RequestId, claim: BusClaim, now: nat)
    | Deliver(n: AgentId, msg: Message)
    | Adjudicate(n: AgentId, now: nat, stamp: nat, replySent: bool)
    | Collect(n: AgentId, requestId: RequestId)
    | TimeOut(n: AgentId, requestId: RequestId)
    | Drop(n: AgentId, requestId: RequestId)
    | Store(n: AgentId, s: GroupStep)

  /** The network may deliver what was sent, any number of times, and frames nobody vouches for. */
  predicate Deliverable(w: World, msg: Message) {
    msg.verified && AgentOf(msg.sender).Some? && AgentOf(msg.sender).value in w.bridges ==> msg in w.sent
  }

  function Put(w: World, n: AgentId, b: Bridge): World {
    w.(bridges := w.bridges[n := b])
  }

  function Finish(b: Bridge, id: RequestId, v: Verdict): Bridge
    requires id in b.calls
  {
    b.(pending := b.pending - {id}, calls := b.calls[id := b.calls[id].(status := Returned(v))])
  }

  /** `claimant_claim` and `request_claim` up to the send: parse, fresh id, pending entry, claim frame. */
  ghost predicate Asks(env: Env, w: World, n: AgentId, id: RequestId, c: BusClaim, now: nat, w': World) {
    && n in w.bridges && id !in w.asked && c.claim.joiner != ""
    && match ParseCode(env.k, c.claim.code)
       case Fail(_) => false
       case Pass(view) =>
         && now < view.payload.exp && AgentOf(view.payload.aid).Some?
         && var aid := AgentOf(view.payload.aid).value;
            var b := w.bridges[n];
            w' == Put(w, n, b.(
              pending := b.pending[id := Pending(aid, view.payload.cid)],
              calls := b.calls[id := Call(aid, view.payload.cid, c, Waiting)]))
              .(sent := w.sent + {Message(aid, n, true, Some(ClaimMsg(ENVELOPE_VERSION, id, n, c)))},
                asked := w.asked[id := Asked(n, aid, c)])
  }

  /**
   A claimant asks only with a joiner and an unexpired, well-formed code; the frame goes to the agent the
   code names and to nobody else, and the call waits for that agent and the community of the code.
   */
  lemma AskedIsRouted(env: Env, w: World, n: AgentId, id: RequestId, c: BusClaim, now: nat, w': World)
    returns (json: string, p: Payload, sig: Bytes)
    requires Asks(env, w, n, id, c, now, w') && StrictUtf8(env.k)
    ensures c.claim.joiner != "" && CodeCarries(env.k, c.claim.code, json, p, sig) && now < p.exp
    ensures AgentOf(p.aid).Some? && n in w'.bridges && id in w'.bridges[n].pending
    ensures w'.bridges[n].pending[id] == Pending(AgentOf(p.aid).value, p.cid)
    ensures w'.sent == w.sent + {Message(AgentOf(p.aid).value, n, true, Some(ClaimMsg(1, id, n, c)))}
  {
    var view := ParseCode(env.k, c.claim.code).value;
    json, p, sig := view.json, view.payload, view.sig;
    hide ParseCode, CodeCarries, AgentOf;
    ParsesWhatItCarries(env.k, c.claim.code, json, p, sig);
  }

  /** The worker takes the next item, adjudicates it, and sends the result to whoever asked. */
  ghost predicate Adjudicates(env: Env, w: World, n: AgentId, now: nat, stamp: nat, replySent: bool, w': World) {
    && n in w.bridges && n in env.office && w.bridges[n].work != []
    && var b := w.bridges[n];
       var item := b.work[0];
       var (d, v) := ApplyClaim(b.db, env.office[n], item.claim.claim, now, stamp);
       var reply := Message(item.replyTo, n, true, Some(ResultMsg(ENVELOPE_VERSION, item.requestId, FromVerdict(v))));
       w' == Put(w, n, b.(db := d, work := b.work[1..]))
         .(sent := if replySent then w.sent + {reply} else w.sent,
           log := w.log + [Decision(n, item.replyTo, item.requestId, item.claim, now, d, v)])
  }

  ghost predicate Steps(env: Env, w: World, s: Step, w': World) {
    match s
    case Ask(n, id, c, now) => Asks(env, w, n, id, c, now, w')
    case Deliver(n, msg) =>
      n in w.bridges && msg.to == n && Deliverable(w, msg) && w' == Put(w, n, Receive(env, n, w.bridges[n], msg))
    case Adjudicate(n, now, stamp, replySent) => Adjudicates(env, w, n, now, stamp, replySent, w')
    case Collect(n, id) =>
      && n in w.bridges && id in w.bridges[n].calls && w.bridges[n].calls[id].status.Replied?
      && w' == Put(w, n, Finish(w.bridges[n], id, w.bridges[n].calls[id].status.verdict))
    case TimeOut(n, id) =>
      && n in w.bridges && id in w.bridges[n].calls && !w.bridges[n].calls[id].status.Returned?
      && w' == Put(w, n, Finish(w.bridges[n], id, Fail(AuthorityUnavailable)))
    case Drop(n, id) =>
      && n in w.bridges
      && w' == Put(w, n, w.bridges[n].(pending := w.bridges[n].pending - {id}, calls := w.bridges[n].calls - {id}))
    case Store(n, gs) =>
      && n in w.bridges && n in env.office && n in w'.bridges
      && w' == Put(w, n, w.bridges[n].(db := w'.bridges[n].db))
      && Performs(env.u, env.office[n].r, w.bridges[n].db, gs, w'.bridges[n].db)
  }

  // ---- the invariant -------------------------------------------------------

  /** Each bridge's store is sound, and its lists fit the query limit. */
  ghost predicate StoreOk(env: Env, w: World, n: AgentId) {
    n in w.bridges ==> n in env.office && env.office[n].k == env.k && GroupOk(env.u, env.office[n].r, w.bridges[n].db)
  }

  ghost predicate CapsOk(w: World) {
    forall n :: n in w.bridges ==> WithinCaps(w.bridges[n].db)
  }

  /** A decision on exactly this request, for exactly this asker. */
  ghost predicate Decided(w: World, authority: AgentId, replyTo: AgentId, id: RequestId, v: Verdict) {
    exists i :: 0 <= i < |w.log| && Matches(w.log[i], authority, replyTo, id, v)
  }

  predicate Matches(d: Decision, authority: AgentId, replyTo: AgentId, id: RequestId, v: Verdict) {
    d.authority == authority && d.replyTo == replyTo && d.requestId == id && d.verdict == v
  }

  /** A request from a bridge is the one on record. */
  predicate OnRecord(w: World, id: RequestId, claimant: AgentId, aid: AgentId, c: BusClaim) {
    claimant in w.bridges ==> id in w.asked && w.asked[id] == Asked(claimant, aid, c)
  }

  ghost predicate CallOk(env: Env, w: World, n: AgentId, id: RequestId) {
    n in w.bridges && id in w.bridges[n].calls ==>
      var call := w.bridges[n].calls[id];
      var view := ParseCode(env.k, call.claim.claim.code);
      && id in w.asked && w.asked[id] == Asked(n, call.aid, call.claim)
      && view.Pass? && AgentOf(view.value.payload.aid) == Some(call.aid) && view.value.payload.cid == call.cid
      && (call.status.Replied? ==> Backed(w, n, id, call, call.status.verdict))
      && (call.status.Returned? && call.status.verdict != Fail(AuthorityUnavailable) ==>
            Backed(w, n, id, call, call.status.verdict))
  }

  /** A success is for the expected community; when the authority is a bridge, the verdict was decided by it. */
  ghost predicate Backed(w: World, n: AgentId, id: RequestId, call: Call, v: Verdict) {
    && (v.Pass? ==> v.value.communityId == call.cid)
    && (call.aid in w.bridges ==> Decided(w, call.aid, n, id, v))
  }

  /** The entries are those of the calls that still wait. */
  ghost predicate EntryOk(w: World, n: AgentId, id: RequestId) {
    n in w.bridges ==>
      && (id in w.bridges[n].pending <==> id in w.bridges[n].calls && w.bridges[n].calls[id].status == Waiting)
      && (id in w.bridges[n].pending ==>
            w.bridges[n].pending[id] == Pending(w.bridges[n].calls[id].aid, w.bridges[n].calls[id].cid))
  }

  ghost predicate SentOk(w: World, msg: Message) {
    msg in w.sent ==>
      && msg.envelope.Some? && AgentOf(msg.sender) == Some(msg.sender) && msg.sender in w.bridges
      && (match msg.envelope.value
          case ClaimMsg(_, id, _, c) => OnRecord(w, id, msg.sender, msg.to, c)
          case ResultMsg(_, id, d) => exists v :: d == FromVerdict(v) && Decided(w, msg.sender, msg.to, id, v))
  }

  ghost predicate WorkOk(env: Env, w: World, n: AgentId) {
    n in w.bridges ==>
      forall i :: 0 <= i < |w.bridges[n].work| ==> ItemOk(env, w, n, w.bridges[n].work[i])
  }

  ghost predicate ItemOk(env: Env, w: World, n: AgentId, item: Work) {
    OnRecord(w, item.requestId, item.replyTo, n, item.claim) && Proven(env, item.claim) && Routed(env, n, item.claim)
  }

  /** The code names this agent as its authority. */
  predicate Routed(env: Env, n: AgentId, c: BusClaim) {
    var view := ParseCode(env.k, c.claim.code);
    view.Pass? && AgentOf(view.value.payload.aid) == Some(n)
  }

  /** A favourable decision was on a valid, proven claim and left the joiner in a stored member list. */
  ghost predicate DecisionOk(env: Env, w: World, d: Decision) {
    && OnRecord(w, d.requestId, d.replyTo, d.authority, d.claim)
    && Proven(env, d.claim) && Routed(env, d.authority, d.claim)
    && (d.verdict.Pass? ==>
          && CommunityMember(d.after, d.claim.claim.joiner)
          && d.authority in env.office && d.verdict.value.communityId == env.office[d.authority].a.publicKey
          && Passes(env.office[d.authority], d.claim.claim, d.at))
  }

  predicate Passes(o: Office, c: Claim, now: nat) {
    CheckClaim(o.k, o.a, o.policy, c, now).None?
  }

  ghost predicate DecisionsOk(env: Env, w: World) {
    forall i :: 0 <= i < |w.log| ==> DecisionOk(env, w, w.log[i])
  }

  /** Bridges are named by canonical agent ids. */
  predicate NamesOk(w: World) {
    forall n :: n in w.bridges ==> AgentOf(n) == Some(n)
  }

  ghost predicate WorldOk(env: Env, w: World) {
    && NamesOk(w) && DecisionsOk(env, w)
    && (forall n :: StoreOk(env, w, n))
    && (forall n, id :: CallOk(env, w, n, id))
    && (forall n, id :: EntryOk(w, n, id))
    && (forall msg :: SentOk(w, msg))
    && (forall n :: WorkOk(env, w, n))
  }

  // ---- growth keeps what is known ------------------------------------------

  /** Histories only grow and the set of bridges is fixed. */
  ghost predicate Later(w: World, w': World) {
    && w'.bridges.Keys == w.bridges.Keys
    && (forall id :: id in w.asked ==> id in w'.asked && w'.asked[id] == w.asked[id])
    && |w.log| <= |w'.log| && w'.log[..|w.log|] == w.log
  }

  lemma DecidedStays(w: World, w': World, authority: AgentId, replyTo: AgentId, id: RequestId, v: Verdict)
    requires Later(w, w') && Decided(w, authority, replyTo, id, v)
    ensures Decided(w', authority, replyTo, id, v)
  {
    var i :| 0 <= i < |w.log| && Matches(w.log[i], authority, replyTo, id, v);
    assert w'.log[i] == w'.log[..|w.log|][i] == w.log[i];
  }

  lemma SentStays(w: World, w': World, msg: Message)
    requires Later(w, w') && SentOk(w, msg) && msg in w.sent
    ensures SentOk(w', msg)
  {
    match msg.envelope.value
    case ClaimMsg(_, _, _, _) =>
    case ResultMsg(_, id, d) =>
      var v :| d == FromVerdict(v) && Decided(w, msg.sender, msg.to, id, v);
      DecidedStays(w, w', msg.sender, msg.to, id, v);
  }

  lemma CallStays(env: Env, w: World, w': World, n: AgentId, id: RequestId)
    requires Later(w, w') && CallOk(env, w, n, id)
    requires n in w.bridges && id in w.bridges[n].calls && id in w'.bridges[n].calls
             && w'.bridges[n].calls[id] == w.bridges[n].calls[id]
    ensures CallOk(env, w', n, id)
  {
    var call := w.bridges[n].calls[id];
    if call.status.Replied? && call.aid in w.bridges {
      DecidedStays(w, w', call.aid, n, id, call.status.verdict);
    }
    if call.status.Returned? && call.status.verdict != Fail(AuthorityUnavailable) && call.aid in w.bridges {
      DecidedStays(w, w', call.aid, n, id, call.status.verdict);
    }
  }

  /** What a step leaves untouched elsewhere. */
  lemma OthersStay(env: Env, w: World, w': World, n: AgentId)
    requires WorldOk(env, w) && Later(w, w') && n in w.bridges
    requires forall m :: m in w.bridges && m != n ==> w'.bridges[m] == w.bridges[m]
    ensures NamesOk(w')
    ensures forall m :: m != n ==> StoreOk(env, w', m) && WorkOk(env, w', m)
    ensures forall m, id :: m != n ==> CallOk(env, w', m, id) && EntryOk(w', m, id)
    ensures forall msg :: msg in w.sent ==> SentOk(w', msg)
    ensures forall i :: 0 <= i < |w.log| ==> DecisionOk(env, w', w.log[i])
    ensures forall item :: ItemOk(env, w, n, item) ==> ItemOk(env, w', n, item)
  {
    hide GroupOk, Proven, CommunityMember, ParseCode, AgentOf, Decided;
    forall m | m != n ensures StoreOk(env, w', m) && WorkOk(env, w', m) {
      assert StoreOk(env, w, m) && WorkOk(env, w, m);
    }
    forall m, id | m != n ensures CallOk(env, w', m, id) && EntryOk(w', m, id) {
      assert CallOk(env, w, m, id) && EntryOk(w, m, id);
      if m in w.bridges && id in w.bridges[m].calls { CallStays(env, w, w', m, id); }
    }
    forall msg | msg in w.sent ensures SentOk(w', msg) {
      assert SentOk(w, msg);
      SentStays(w, w', msg);
    }
  }

  /** A bridge whose calls and waiting entries did not move, and whose queue only got shorter. */
  lemma OwnCallsStay(env: Env, w: World, w': World, n: AgentId, taken: nat)
    requires WorldOk(env, w) && Later(w, w') && n in w.bridges
    requires w'.bridges[n].calls == w.bridges[n].calls && w'.bridges[n].pending == w.bridges[n].pending
    requires taken <= |w.bridges[n].work| && w'.bridges[n].work == w.bridges[n].work[taken..]
    ensures forall id :: CallOk(env, w', n, id) && EntryOk(w', n, id)
    ensures WorkOk(env, w', n)
  {
    hide GroupOk, Proven, CommunityMember, ParseCode, Decided, SentOk, StoreOk, DecisionsOk;
    forall id ensures CallOk(env, w', n, id) && EntryOk(w', n, id) {
      assert CallOk(env, w, n, id) && EntryOk(w, n, id);
      if id in w.bridges[n].calls { CallStays(env, w, w', n, id); }
    }
    assert WorkOk(env, w, n);
    forall i | 0 <= i < |w'.bridges[n].work| ensures ItemOk(env, w', n, w'.bridges[n].work[i]) {
      assert ItemOk(env, w, n, w.bridges[n].work[taken + i]);
    }
  }

  // ---- one step keeps it ---------------------------------------------------

  /** The new call waits for the authority its code names; the bridge's other calls stay. */
  lemma AskKeepsCall(env: Env, w: World, s: Step, w': World, id: RequestId)
    requires Steps(env, w, s, w') && s.Ask? && Later(w, w') && CallOk(env, w, s.n, id) && EntryOk(w, s.n, id)
    requires s.requestId !in w.asked
    ensures CallOk(env, w', s.n, id) && EntryOk(w', s.n, id)
  {
    hide Adjudicates, Receive, Finish, Performs, Deliverable, ParseCode, AgentOf, Decided;
    if id != s.requestId && id in w.bridges[s.n].calls { CallStays(env, w, w', s.n, id); }
  }

  /** What sending a claim leaves alone, and what it adds to the records. */
  lemma AskAdds(env: Env, w: World, s: Step, w': World)
    requires Steps(env, w, s, w') && s.Ask?
    ensures Later(w, w') && s.n in w.bridges && s.n in w'.bridges && s.requestId !in w.asked && w'.log == w.log
    ensures forall m :: m in w.bridges && m != s.n ==> w'.bridges[m] == w.bridges[m]
    ensures w'.bridges[s.n].db == w.bridges[s.n].db && w'.bridges[s.n].work == w.bridges[s.n].work
    ensures forall msg :: msg in w'.sent && msg !in w.sent ==>
              msg.sender == s.n && msg.envelope == Some(ClaimMsg(ENVELOPE_VERSION, s.requestId, s.n, s.claim))
              && OnRecord(w', s.requestId, s.n, msg.to, s.claim)
  {
    hide Adjudicates, Receive, Finish, Performs, Deliverable, ParseCode, AgentOf;
  }

  lemma AskKeepsOk(env: Env, w: World, s: Step, w': World)
    requires WorldOk(env, w) && Steps(env, w, s, w') && s.Ask?
    ensures WorldOk(env, w')
  {
    hide Steps, GroupOk, Proven, CommunityMember, Decided, DecisionOk, CallOk, EntryOk, ParseCode, Later, ItemOk;
    var n := s.n;
    AskAdds(env, w, s, w');
    OthersStay(env, w, w', n);
    assert StoreOk(env, w, n) && WorkOk(env, w, n);
    assert StoreOk(env, w', n) && WorkOk(env, w', n);
    forall id ensures CallOk(env, w', n, id) && EntryOk(w', n, id) {
      assert CallOk(env, w, n, id) && EntryOk(w, n, id);
      AskKeepsCall(env, w, s, w', id);
    }
    forall msg ensures SentOk(w', msg) { assert msg in w.sent ==> SentOk(w', msg); }
    assert DecisionsOk(env, w');
  }

  /** A step of one bridge that changes neither messages nor histories. */
  lemma QuietKeepsOk(env: Env, w: World, n: AgentId, w': World)
    requires WorldOk(env, w) && n in w.bridges && n in w'.bridges && w' == Put(w, n, w'.bridges[n])
    requires StoreOk(env, w', n) && WorkOk(env, w', n)
    requires forall id :: CallOk(env, w', n, id) && EntryOk(w', n, id)
    ensures WorldOk(env, w')
  {
    OthersStay(env, w, w', n);
    hide GroupOk, Proven, CommunityMember, ParseCode, Decided, StoreOk, WorkOk, CallOk, EntryOk;
    forall msg ensures SentOk(w', msg) { assert SentOk(w, msg); }
  }

  lemma FinishKeepsOk(env: Env, w: World, s: Step, w': World)
    requires WorldOk(env, w) && Steps(env, w, s, w') && (s.Collect? || s.TimeOut? || s.Drop?)
    ensures WorldOk(env, w')
  {
    hide Asks, Adjudicates, Receive, Performs, GroupOk, Proven, CommunityMember, ParseCode, Decided, SentOk,
      DecisionsOk,
      Deliverable;
    var n := s.n;
    assert StoreOk(env, w, n) && WorkOk(env, w, n);
    assert StoreOk(env, w', n);
    assert WorkOk(env, w', n) by {
      forall i | 0 <= i < |w'.bridges[n].work| ensures ItemOk(env, w', n, w'.bridges[n].work[i]) {
        assert ItemOk(env, w, n, w.bridges[n].work[i]);
      }
    }
    assert Later(w, w');
    forall id ensures CallOk(env, w', n, id) && EntryOk(w', n, id) {
      assert CallOk(env, w, n, id) && EntryOk(w, n, id);
      if id in w.bridges[n].calls { SameCallOrDone(env, w, s, w', id); }
    }
    QuietKeepsOk(env, w, n, w');
  }

  lemma SameCallOrDone(env: Env, w: World, s: Step, w': World, id: RequestId)
    requires WorldOk(env, w) && Steps(env, w, s, w') && (s.Collect? || s.TimeOut? || s.Drop?)
    requires Later(w, w') && CallOk(env, w, s.n, id) && id in w.bridges[s.n].calls
    ensures CallOk(env, w', s.n, id)
  {
    hide Asks, Adjudicates, Receive, Performs, Deliverable, EntryOk, GroupOk, Proven, CommunityMember, ParseCode,
      SentOk, WorkOk, StoreOk, DecisionsOk;
    var call := w.bridges[s.n].calls[id];
    if s.requestId != id {
      CallStays(env, w, w', s.n, id);
    } else if s.Collect? && call.aid in w.bridges {
      DecidedStays(w, w', call.aid, s.n, id, call.status.verdict);
    }
  }

  lemma StoreStepIsSound(env: Env, w: World, s: Step, w': World)
    requires WorldOk(env, w) && CapsOk(w) && Steps(env, w, s, w') && s.Store?
    ensures StoreOk(env, w', s.n) && Later(w, w') && s.n in w.bridges && s.n in w'.bridges
    ensures w' == Put(w, s.n, w.bridges[s.n].(db := w'.bridges[s.n].db))
  {
    hide Asks, Adjudicates, Receive, Finish, SentOk, DecisionsOk, CallOk, EntryOk, WorkOk, Performs, GroupOk,
      WithinCaps, NamesOk, Deliverable;
    assert StoreOk(env, w, s.n);
    StoreStepKeepsGroups(env.u, env.office[s.n].r, w.bridges[s.n].db, s.s, w'.bridges[s.n].db);
  }

  lemma StoreKeepsOk(env: Env, w: World, s: Step, w': World)
    requires WorldOk(env, w) && CapsOk(w) && Steps(env, w, s, w') && s.Store?
    ensures WorldOk(env, w')
  {
    StoreStepIsSound(env, w, s, w');
    hide WorldOk, Steps, CapsOk, StoreOk, CallOk, EntryOk, WorkOk, Later;
    var n := s.n;
    assert w.bridges[n].work[0..] == w.bridges[n].work;
    OwnCallsStay(env, w, w', n, 0);
    QuietKeepsOk(env, w, n, w');
  }

  /** Whatever a group step reports, even a storage error, it leaves group state sound. */
  lemma StoreStepKeepsGroups(u: Universe, r: Relay, db: Db, s: GroupStep, db': Db)
    requires GroupOk(u, r, db) && WithinCaps(db) && Performs(u, r, db, s, db')
    ensures GroupOk(u, r, db')
  {
    match s
    case Command(ev, clock, mirrored, _) =>
      if NamedChannel(ev).Some? { CommandRefines(u, r, db, ev, clock, mirrored, NamedChannel(ev).value); }
    case Admit(channel, claimant, now, _) => AdmissionRefines(u, r, db, channel, claimant, now);
    case Traffic(_, _) => TrafficStep(u, r, db, s, db');
  }

  /** The decision an adjudication appends to the log. */
  ghost function NewDecision(env: Env, w: World, s: Step): Decision
    requires s.Adjudicate? && s.n in w.bridges && s.n in env.office && w.bridges[s.n].work != []
  {
    var item := w.bridges[s.n].work[0];
    var (d, v) := ApplyClaim(w.bridges[s.n].db, env.office[s.n], item.claim.claim, s.now, s.stamp);
    Decision(s.n, item.replyTo, item.requestId, item.claim, s.now, d, v)
  }

  lemma DecisionIsSound(env: Env, w: World, s: Step, w': World)
    requires WorldOk(env, w) && CapsOk(w) && Steps(env, w, s, w') && s.Adjudicate?
    ensures StoreOk(env, w', s.n) && DecisionOk(env, w', NewDecision(env, w, s))
    ensures w'.log == w.log + [NewDecision(env, w, s)] && w'.bridges[s.n].db == NewDecision(env, w, s).after
  {
    hide Asks, Receive, Finish, Performs, CallOk, EntryOk, SentOk, DecisionsOk, GroupOk, Proven, CommunityMember,
      ParseCode,
      ApplyClaim, CheckClaim, CanBeHonoured, WithinCaps, Deliverable;
    var b := w.bridges[s.n];
    assert StoreOk(env, w, s.n) && WorkOk(env, w, s.n) && ItemOk(env, w, s.n, b.work[0]);
    ApplyClaimDecides(env.u, b.db, env.office[s.n], b.work[0].claim.claim, s.now, s.stamp);
  }

  lemma AdjudicateKeepsOk(env: Env, w: World, s: Step, w': World)
    requires WorldOk(env, w) && CapsOk(w) && Steps(env, w, s, w') && s.Adjudicate?
    ensures WorldOk(env, w')
  {
    hide Asks, Receive, Finish, Performs, CallOk, EntryOk, GroupOk, Proven, CommunityMember, ParseCode, ApplyClaim,
      WithinCaps, StoreOk, WorkOk;
    var last := NewDecision(env, w, s);
    DecisionIsSound(env, w, s, w');
    OthersStay(env, w, w', s.n);
    OwnCallsStay(env, w, w', s.n, 1);
    DecisionJoinsLog(env, w, w', last);
    hide DecisionOk, DecisionsOk;
    forall msg ensures SentOk(w', msg) {
      assert Decided(w', s.n, last.replyTo, last.requestId, last.verdict);
    }
  }

  lemma DecisionJoinsLog(env: Env, w: World, w': World, last: Decision)
    requires w'.log == w.log + [last] && DecisionOk(env, w', last)
    requires forall i :: 0 <= i < |w.log| ==> DecisionOk(env, w', w.log[i])
    ensures DecisionsOk(env, w') && Decided(w', last.authority, last.replyTo, last.requestId, last.verdict)
  {
    hide DecisionOk;
    forall i | 0 <= i < |w'.log| ensures DecisionOk(env, w', w'.log[i]) {
      if i < |w.log| { assert w'.log[i] == w.log[i]; }
    }
    assert Matches(w'.log[|w.log|], last.authority, last.replyTo, last.requestId, last.verdict);
  }

  lemma DeliverKeepsOk(env: Env, w: World, s: Step, w': World)
    requires WorldOk(env, w) && Steps(env, w, s, w') && s.Deliver?
    ensures WorldOk(env, w')
  {
    hide Asks, Adjudicates, Finish, Performs, GroupOk, Proven, CommunityMember, ParseCode, Decided, DecisionsOk;
    var n := s.n;
    var b := w.bridges[n];
    assert StoreOk(env, w, n) && WorkOk(env, w, n) && SentOk(w, s.msg);
    assert Later(w, w');
    DeliverKeepsWork(env, w, s, w');
    forall id ensures CallOk(env, w', n, id) && EntryOk(w', n, id) {
      assert CallOk(env, w, n, id) && EntryOk(w, n, id);
      DeliverKeepsCall(env, w, s, w', id);
    }
    hide CallOk, EntryOk, SentOk, WorkOk;
    assert StoreOk(env, w', n) by { assert w'.bridges[n].db == b.db; }
    QuietKeepsOk(env, w, n, w');
  }

  /** A claim from a bridge is queued only as that bridge sent it, to us, with a valid proof. */
  lemma DeliverKeepsWork(env: Env, w: World, s: Step, w': World)
    requires NamesOk(w) && Steps(env, w, s, w') && s.Deliver? && SentOk(w, s.msg) && WorkOk(env, w, s.n)
    ensures WorkOk(env, w', s.n)
  {
    hide Proven, ParseCode, IntoVerdict, Decided, Asks, Adjudicates, Finish, Performs;
    var n := s.n;
    var b, b' := w.bridges[n], w'.bridges[n];
    forall i | 0 <= i < |b'.work| ensures ItemOk(env, w', n, b'.work[i]) {
      if i < |b.work| {
        assert b'.work[i] == b.work[i] && ItemOk(env, w, n, b.work[i]);
      } else {
        var m := s.msg.envelope.value;
        assert m.ClaimMsg? && b'.work[i] == Work(m.requestId, m.claim, AgentOf(s.msg.sender).value);
      }
    }
  }

  /** A success is recorded only from the expected authority, for the expected community. */
  lemma DeliverKeepsCall(env: Env, w: World, s: Step, w': World, id: RequestId)
    requires NamesOk(w) && Steps(env, w, s, w') && s.Deliver? && SentOk(w, s.msg) && Later(w, w')
    requires CallOk(env, w, s.n, id) && EntryOk(w, s.n, id)
    ensures CallOk(env, w', s.n, id) && EntryOk(w', s.n, id)
  {
    hide Proven, ParseCode, Asks, Adjudicates, Finish, Performs;
    var n := s.n;
    var b, b' := w.bridges[n], w'.bridges[n];
    if id in b.calls {
      var call, call' := b.calls[id], b'.calls[id];
      if call' == call {
        CallStays(env, w, w', n, id);
      } else {
        var m := s.msg.envelope.value;
        assert m.ResultMsg? && m.requestId == id && Expected(b.pending[id], AgentOf(s.msg.sender).value, m.result);
        if call'.status.Replied? {
          var v := call'.status.verdict;
          VerdictRoundTrip(v, m.result);
          if call.aid in w.bridges {
            var v2 :| m.result == FromVerdict(v2) && Decided(w, s.msg.sender, s.msg.to, id, v2);
            VerdictRoundTrip(v2, m.result);
            DecidedStays(w, w', call.aid, n, id, v);
          }
        }
      }
    }
  }

  // ---- runs ----------------------------------------------------------------

  /** Bridges with sound stores, nothing sent, nothing pending. */
  ghost predicate Start(env: Env, w: World) {
    && NamesOk(w) && w.sent == {} && w.asked == map[] && w.log == []
    && (forall n :: StoreOk(env, w, n))
    && (forall n :: n in w.bridges ==>
        w.bridges[n].pending == map[] && w.bridges[n].calls == map[] && w.bridges[n].work == [])
  }

  ghost predicate Trace(env: Env, start: World, steps: seq<Step>, w: World) {
    && CapsOk(w)
    && if steps == [] then w == start else
         var n := |steps| - 1;
         exists prev :: Trace(env, start, steps[..n], prev) && Steps(env, prev, steps[n], w)
  }

  lemma StepKeepsOk(env: Env, w: World, s: Step, w': World)
    requires WorldOk(env, w) && CapsOk(w) && Steps(env, w, s, w')
    ensures WorldOk(env, w')
  {
    hide WorldOk, CapsOk, Steps;
    match s
    case Ask(_, _, _, _) => AskKeepsOk(env, w, s, w');
    case Deliver(_, _) => DeliverKeepsOk(env, w, s, w');
    case Adjudicate(_, _, _, _) => AdjudicateKeepsOk(env, w, s, w');
    case Collect(_, _) => FinishKeepsOk(env, w, s, w');
    case TimeOut(_, _) => FinishKeepsOk(env, w, s, w');
    case Drop(_, _) => FinishKeepsOk(env, w, s, w');
    case Store(_, _) => StoreKeepsOk(env, w, s, w');
  }

  lemma {:induction false} TraceIsOk(env: Env, start: World, steps: seq<Step>, w: World)
    requires Start(env, start) && Trace(env, start, steps, w)
    ensures WorldOk(env, w) && CapsOk(w)
    decreases |steps|
  {
    if steps == [] {
      StartIsOk(env, start);
    } else {
      hide WorldOk, CapsOk, Steps, Start;
      var n := |steps| - 1;
      var prev :| Trace(env, start, steps[..n], prev) && Steps(env, prev, steps[n], w);
      TraceIsOk(env, start, steps[..n], prev);
      StepKeepsOk(env, prev, steps[n], w);
    }
  }

  lemma StartIsOk(env: Env, w: World)
    requires Start(env, w)
    ensures WorldOk(env, w)
  {
    hide GroupOk;
  }

  /**
   Claim safety, end to end. If a call returned success and the code's authority is one of the
   bridges, then that authority had decided exactly this request with exactly this verdict, on a proof
   signed by the joiner over this code and receipt; at that moment the joiner was in a member list of
   its store; and the response names the community of the code, which is the authority's own.
   */
  lemma ClaimSafety(env: Env, start: World, steps: seq<Step>, w: World, n: AgentId, id: RequestId)
    requires Start(env, start) && Trace(env, start, steps, w)
    requires n in w.bridges && id in w.bridges[n].calls
    requires w.bridges[n].calls[id].status.Returned? && w.bridges[n].calls[id].status.verdict.Pass?
    requires w.bridges[n].calls[id].aid in w.bridges
    ensures var call := w.bridges[n].calls[id];
            var view := ParseCode(env.k, call.claim.claim.code);
            && view.Pass? && AgentOf(view.value.payload.aid) == Some(call.aid)
            && call.status.verdict.value.communityId == view.value.payload.cid
            && exists i :: 0 <= i < |w.log|
                 && Matches(w.log[i], call.aid, n, id, call.status.verdict)
                 && w.log[i].claim == call.claim && Proven(env, call.claim)
                 && CommunityMember(w.log[i].after, call.claim.claim.joiner)
                 && call.aid in env.office && env.office[call.aid].a.publicKey == view.value.payload.cid
  {
    hide ParseCode, Proven, CommunityMember, StoreOk, WorkOk, SentOk, EntryOk, Trace, Start, CheckClaim, Passes;
    TraceIsOk(env, start, steps, w);
    assert CallOk(env, w, n, id);
    var call := w.bridges[n].calls[id];
    var v := call.status.verdict;
    var i :| 0 <= i < |w.log| && Matches(w.log[i], call.aid, n, id, v);
    assert DecisionOk(env, w, w.log[i]);
  }

  /**
   Nobody makes up a verdict: what a call returns is what the authority its code names decided on exactly
   this request, or that the authority was unavailable. An entry waits exactly as long as its call does.
   */
  lemma VerdictsAreDecided(env: Env, start: World, steps: seq<Step>, w: World, n: AgentId, id: RequestId)
    requires Start(env, start) && Trace(env, start, steps, w) && n in w.bridges
    ensures id in w.bridges[n].pending <==> id in w.bridges[n].calls && w.bridges[n].calls[id].status == Waiting
    ensures id in w.bridges[n].calls && w.bridges[n].calls[id].status.Returned? ==>
              var call := w.bridges[n].calls[id];
              call.status.verdict == Fail(AuthorityUnavailable) || call.aid !in w.bridges
              || exists i :: 0 <= i < |w.log| && Matches(w.log[i], call.aid, n, id, call.status.verdict)
  {
    hide ParseCode, Proven, CommunityMember, StoreOk, WorkOk, SentOk, Trace, Start, DecisionOk;
    TraceIsOk(env, start, steps, w);
    assert CallOk(env, w, n, id) && EntryOk(w, n, id);
  }

  /**
   What stands behind a returned success: the authority had an unexpired code that it signed itself
   for its own community and, under a policy, a receipt it had MACed for that code, the live version
   and the age the policy asks for.
   */
  lemma SuccessWasAuthentic(env: Env, start: World, steps: seq<Step>, w: World, n: AgentId, id: RequestId)
    requires Start(env, start) && Trace(env, start, steps, w) && StrictUtf8(env.k)
    requires n in w.bridges && id in w.bridges[n].calls
    requires w.bridges[n].calls[id].status.Returned? && w.bridges[n].calls[id].status.verdict.Pass?
    requires w.bridges[n].calls[id].aid in w.bridges
    ensures var call := w.bridges[n].calls[id];
            call.aid in env.office && exists now :: AuthenticClaim(env.office[call.aid], call.claim.claim, now)
  {
    hide ParseCode, Proven, CommunityMember, WorkOk, SentOk, CallOk, EntryOk, GroupOk, CheckClaim, AuthenticClaim,
      StrictUtf8, Trace, Start, NamesOk;
    ClaimSafety(env, start, steps, w, n, id);
    TraceIsOk(env, start, steps, w);
    var call := w.bridges[n].calls[id];
    var i :| 0 <= i < |w.log| && Matches(w.log[i], call.aid, n, id, call.status.verdict)
      && w.log[i].claim == call.claim;
    assert DecisionOk(env, w, w.log[i]) && StoreOk(env, w, call.aid);
    ClaimIsChecked(env.office[call.aid], call.claim.claim, w.log[i].at);
  }
}
