/**
 The bounded waiting room of a claim bus (src/m1b.rs): a semaphore of 256 permits, a shared map of
 pending entries, one guard per call that removes its entry and returns its permit however the call
 ends, and two parties (worker or dispatcher, and guard) that may both try to remove an entry.
 */
module PendingSlots {
  import opened Options
  import I = Invites

  type RequestId = nat

  const MAX_PENDING_CLAIMS := 256

  /** Where a call is: permit taken, entry inserted and guarded, or over. */
  datatype Phase = Acquired | Guarded | Over

  /** `replies` lists the completions of oneshots, oldest first. */
  datatype Slots = Slots(
    permits: nat,
    pending: set<RequestId>,
    calls: map<RequestId, Phase>,
    replies: seq<(RequestId, I.Checked<I.ClaimResponse>)>)

  const IDLE := Slots(MAX_PENDING_CLAIMS, {}, map[], [])

  datatype Action =
    | TryAcquire(id: RequestId)
    | Insert(id: RequestId)
    | Complete(id: RequestId, verdict: I.Checked<I.ClaimResponse>)
    | DropGuard(id: RequestId)

  predicate IsPhase(s: Slots, id: RequestId, p: Phase) {
    id in s.calls && s.calls[id] == p
  }

  /** Request ids are random and never reused; a guard exists from the insert to the end of its call. */
  predicate Enabled(s: Slots, a: Action) {
    match a
    case TryAcquire(id) => id !in s.calls
    case Insert(id) => IsPhase(s, id, Acquired)
    case Complete(_, _) => true
    case DropGuard(id) => IsPhase(s, id, Guarded)
  }

  function Act(s: Slots, a: Action): Slots {
    match a
    case TryAcquire(id) => if s.permits == 0 then s else s.(permits := s.permits - 1, calls := s.calls[id := Acquired])
    case Insert(id) => s.(pending := s.pending + {id}, calls := s.calls[id := Guarded])
    case Complete(id, v) => if id in s.pending then s.(pending := s.pending - {id}, replies := s.replies + [(id, v)])
      else s
    case DropGuard(id) => s.(pending := s.pending - {id}, permits := s.permits + 1, calls := s.calls[id := Over])
  }

  function Holders(calls: map<RequestId, Phase>): set<RequestId> {
    set id | id in calls && calls[id] != Over
  }

  /** Calls that hold a permit. */
  function Live(s: Slots): set<RequestId> {
    Holders(s.calls)
  }

  ghost predicate RepliedOk(s: Slots, id: RequestId) {
    && (forall i :: 0 <= i < |s.replies| && s.replies[i].0 == id ==>
        id !in s.pending && id in s.calls && s.calls[id] != Acquired)
    && (forall i, j :: 0 <= i < j < |s.replies| && s.replies[i].0 == id ==> s.replies[j].0 != id)
  }

  ghost predicate SlotsOk(s: Slots) {
    && s.permits + |Live(s)| == MAX_PENDING_CLAIMS
    && (forall id :: id in s.pending ==> IsPhase(s, id, Guarded))
    && (forall id :: RepliedOk(s, id))
  }

  class ClaimSlots {
    var permits: nat
    var pending: set<RequestId>
    ghost var calls: map<RequestId, Phase>
    ghost var replies: seq<(RequestId, I.Checked<I.ClaimResponse>)>

    ghost function State(): Slots
      reads this
    {
      Slots(permits, pending, calls, replies)
    }

    ghost predicate Valid()
      reads this
    {
      SlotsOk(State())
    }

    constructor ()
      ensures Valid() && State() == IDLE
    {
      permits, pending, calls, replies := MAX_PENDING_CLAIMS, {}, map[], [];
      new;
      IdleIsOk();
    }

    /** `try_acquire_owned`: the only way in; fails at once when every permit is out. */
    method Acquire(id: RequestId) returns (ok: bool)
      requires Valid() && id !in calls
      modifies this
      ensures Valid() && State() == Act(old(State()), TryAcquire(id))
      ensures ok <==> |Live(old(State()))| < MAX_PENDING_CLAIMS
    {
      ActKeepsOk(State(), TryAcquire(id));
      ok := permits > 0;
      if ok {
        permits := permits - 1;
        calls := calls[id := Acquired];
      }
    }

    method InsertEntry(id: RequestId)
      requires Valid() && IsPhase(State(), id, Acquired)
      modifies this
      ensures Valid() && State() == Act(old(State()), Insert(id))
    {
      ActKeepsOk(State(), Insert(id));
      pending := pending + {id};
      calls := calls[id := Guarded];
    }

    /** `complete`, and the last step of `handle_incoming_result`: whoever removes the entry replies. */
    method Reply(id: RequestId, verdict: I.Checked<I.ClaimResponse>) returns (delivered: bool)
      requires Valid()
      modifies this
      ensures Valid() && State() == Act(old(State()), Complete(id, verdict))
      ensures delivered <==> id in old(pending)
    {
      ActKeepsOk(State(), Complete(id, verdict));
      delivered := id in pending;
      if delivered {
        pending := pending - {id};
        replies := replies + [(id, verdict)];
      }
    }

    /** `PendingEntryGuard::drop`, on every way a call ends: reply, timeout, send failure, dropped future. */
    method Release(id: RequestId)
      requires Valid() && IsPhase(State(), id, Guarded)
      modifies this
      ensures Valid() && State() == Act(old(State()), DropGuard(id))
    {
      ActKeepsOk(State(), DropGuard(id));
      pending := pending - {id};
      permits := permits + 1;
      calls := calls[id := Over];
    }
  }

  lemma IdleIsOk()
    ensures SlotsOk(IDLE)
  {
    assert Live(IDLE) == {};
  }

  lemma RepliesStaySingle(s: Slots, a: Action, x: RequestId)
    requires SlotsOk(s) && Enabled(s, a)
    ensures RepliedOk(Act(s, a), x)
  {
    assert RepliedOk(s, x);
    if a.Complete? { assert RepliedOk(s, a.id); }
  }

  /** Setting one call's phase moves at most that call in or out of the holders. */
  lemma HoldersAfter(calls: map<RequestId, Phase>, id: RequestId, p: Phase)
    ensures Holders(calls[id := p]) == if p == Over then Holders(calls) - {id} else Holders(calls) + {id}
  {
  }

  lemma PermitsAddUp(s: Slots, a: Action)
    requires Enabled(s, a)
    ensures Act(s, a).permits + |Live(Act(s, a))| == s.permits + |Live(s)|
  {
    match a
    case TryAcquire(id) => HoldersAfter(s.calls, id, Acquired);
    case Insert(id) =>
      HoldersAfter(s.calls, id, Guarded);
      assert Holders(s.calls) + {id} == Holders(s.calls);
    case Complete(_, _) =>
    case DropGuard(id) => HoldersAfter(s.calls, id, Over);
  }

  lemma ActKeepsOk(s: Slots, a: Action)
    requires SlotsOk(s) && Enabled(s, a)
    ensures SlotsOk(Act(s, a))
  {
    forall x ensures RepliedOk(Act(s, a), x) { RepliesStaySingle(s, a, x); }
    PermitsAddUp(s, a);
    hide RepliedOk, Live, Holders;
  }

  /** Any interleaving of the actions of any number of calls. */
  ghost predicate Interleaving(actions: seq<Action>, s: Slots) {
    if actions == [] then s == IDLE else
      var n := |actions| - 1;
      exists prev :: Interleaving(actions[..n], prev) && Enabled(prev, actions[n]) && s == Act(prev, actions[n])
  }

  lemma {:induction false} InterleavingIsOk(actions: seq<Action>, s: Slots)
    requires Interleaving(actions, s)
    ensures SlotsOk(s)
    decreases |actions|
  {
    if actions == [] {
      IdleIsOk();
    } else {
      hide SlotsOk, Act, Enabled;
      var n := |actions| - 1;
      var prev :| Interleaving(actions[..n], prev) && Enabled(prev, actions[n]) && s == Act(prev, actions[n]);
      InterleavingIsOk(actions[..n], prev);
      ActKeepsOk(prev, actions[n]);
    }
  }

  /**
   Over every interleaving: permits and live calls add up to 256, entries belong to live calls, no
   request is completed twice, and once no call is live the map is empty and every permit is free.
   */
  lemma SlotsAreConserved(actions: seq<Action>, s: Slots)
    requires Interleaving(actions, s)
    ensures s.permits + |Live(s)| == 256 && s.pending <= Live(s)
    ensures forall i, j :: 0 <= i < j < |s.replies| ==> s.replies[i].0 != s.replies[j].0
    ensures Live(s) == {} ==> s.pending == {} && s.permits == 256
  {
    InterleavingIsOk(actions, s);
    forall i, j | 0 <= i < j < |s.replies| ensures s.replies[i].0 != s.replies[j].0 {
      assert RepliedOk(s, s.replies[i].0);
    }
  }

  /**
   A completion reaches the waiting call exactly when its entry is still there, with the verdict that
   came first; a second completion, or one after the guard, is lost. A full house admits nobody and
   leaves everything as it was; otherwise an acquired permit is the caller's until the guard drops.
   */
  lemma FirstCompletionWins(actions: seq<Action>, s: Slots, id: RequestId, first: I.Checked<I.ClaimResponse>,
        second: I.Checked<I.ClaimResponse>)
    requires Interleaving(actions, s)
    ensures var done := Act(s, Complete(id, first));
            && done.replies == (if id in s.pending then s.replies + [(id, first)] else s.replies)
            && id !in done.pending && done.permits == s.permits && done.calls == s.calls
            && Act(done, Complete(id, second)) == done
    ensures IsPhase(s, id, Guarded) ==>
              var gone := Act(s, DropGuard(id));
              gone.permits == s.permits + 1 && Act(gone, Complete(id, first)) == gone && id !in Live(gone)
    ensures id !in s.calls ==>
              var entered := Act(s, TryAcquire(id));
              (id in Live(entered) <==> |Live(s)| < 256) && (|Live(s)| >= 256 ==> entered == s)
  {
    SlotsAreConserved(actions, s);
  }
}
