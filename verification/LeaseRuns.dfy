/**
 Whole histories of one key of the hot store: any number of workers claim, renew, complete and release in
 any order, time passes, and the server may evict the key at any moment.
 */
module LeaseRuns {
  import opened Results
  import opened Models
  import opened HotStore

  datatype Event =
    | Claim(fingerprint: Digest, token: Token, leaseSeconds: nat)
    | Renew(token: Token, leaseSeconds: nat)
    | Complete(token: Token, completed: Completed, cacheMs: int)
    | Release(token: Token)
    | Wait(duration: nat)
    | Evict

  /** `holder` is the worker whose claim created the stored entry; the store itself does not keep it. */
  datatype Lease = Lease(slot: Slot, now: Time, holder: Option<Token>, used: set<Token>)

  const ABSENT := Lease(None, 0, None, {})

  /** The reply of a claim. */
  function ClaimReply(s: Lease, e: Event): Reply
    requires e.Claim?
  {
    ClaimScript(s.slot, e.fingerprint, e.token, e.leaseSeconds, s.now).1
  }

  predicate Acquires(s: Lease, e: Event) {
    e.Claim? && e.token !in s.used && ClaimReply(s, e).Acquired?
  }

  /** Tokens are never claimed with twice; any worker may send anything else at any time. */
  function Step(s: Lease, e: Event): Lease {
    match e
    case Claim(f, t, lease) =>
      if t in s.used then s
      else s.(slot := ClaimScript(s.slot, f, t, lease, s.now).0, used := s.used + {t},
              holder := if ClaimReply(s, e).Acquired? then Some(t) else s.holder)
    case Renew(t, lease) => s.(slot := RenewScript(s.slot, t, lease, s.now).0)
    case Complete(t, completed, cacheMs) => s.(slot := CompleteScript(s.slot, t, completed, cacheMs, s.now).0)
    case Release(t) => s.(slot := ReleaseScript(s.slot, t, s.now).0)
    case Wait(d) => s.(now := s.now + d)
    case Evict => s.(slot := None)
  }

  function Run(s: Lease, es: seq<Event>): Lease {
    if es == [] then s else Step(Run(s, es[..|es| - 1]), es[|es| - 1])
  }

  /** The state before event `i`. */
  function StateAt(es: seq<Event>, i: nat): Lease
    requires i <= |es|
  {
    Run(ABSENT, es[..i])
  }

  lemma NextState(es: seq<Event>, i: nat)
    requires i < |es|
    ensures StateAt(es, i + 1) == Step(StateAt(es, i), es[i])
  {
    assert es[..i + 1][..i] == es[..i];
  }

  // ---- the invariant ----

  predicate Inv(s: Lease) {
    s.slot.Some? ==>
      && WellFormed(s.slot.value)
      && s.holder.Some? && s.holder.value in s.used
      && (s.slot.value.leaseToken.Some? ==> s.slot.value.leaseToken == s.holder)
  }

  lemma StepKeepsInv(s: Lease, e: Event)
    requires Inv(s)
    ensures Inv(Step(s, e))
  {
  }

  lemma {:induction false} Reachable(es: seq<Event>)
    ensures Inv(Run(ABSENT, es))
  {
    if es != [] {
      Reachable(es[..|es| - 1]);
      StepKeepsInv(Run(ABSENT, es[..|es| - 1]), es[|es| - 1]);
    }
  }

  /** In every history each entry is either a lease or a result, and no result outlives its deadline. */
  lemma {:induction false} EntriesStayWellFormed(es: seq<Event>)
    ensures var s := Run(ABSENT, es); s.slot.Some? ==> WellFormed(s.slot.value)
  {
    Reachable(es);
  }

  /** No claim is ever answered as corrupted, and a replayed result always carries the claimed fingerprint. */
  lemma {:induction false} ClaimsAreNeverCorrupted(es: seq<Event>, e: Event)
    requires e.Claim?
    ensures ClaimReply(Run(ABSENT, es), e) != Corrupted
    ensures DecodeReply(ClaimReply(Run(ABSENT, es), e), e.fingerprint).Ok?
  {
    Reachable(es);
  }

  // ---- ownership ----

  /** The entry that `token` created is still there. */
  predicate Holds(s: Lease, token: Token) {
    Visible(s.slot, s.now).Some? && s.holder == Some(token)
  }

  /** `e` removes the entry `token` created: by that worker's release, by that worker's completion with an expired
      result, or by expiry or eviction. */
  predicate Frees(s: Lease, e: Event, token: Token) {
    Holds(s, token) && Visible(Step(s, e).slot, Step(s, e).now).None? &&
    match e
    case Release(t) => t == token
    case Complete(t, _, _) => t == token
    case Wait(_) => true
    case Evict => true
    case _ => false
  }

  lemma HeldOrFreed(s: Lease, e: Event, token: Token)
    requires Inv(s) && Holds(s, token)
    ensures Holds(Step(s, e), token) || Frees(s, e, token)
  {
  }

  lemma {:induction false} HeldUntilFreed(es: seq<Event>, i: nat, n: nat)
    requires i < n <= |es| && Acquires(StateAt(es, i), es[i])
    ensures Holds(StateAt(es, n), es[i].token) ||
            exists m :: i < m < n && Frees(StateAt(es, m), es[m], es[i].token)
  {
    NextState(es, n - 1);
    if i < n - 1 {
      HeldUntilFreed(es, i, n - 1);
      if Holds(StateAt(es, n - 1), es[i].token) {
        Reachable(es[..n - 1]);
        HeldOrFreed(StateAt(es, n - 1), es[n - 1], es[i].token);
      }
    }
  }

  /** Between two acquisitions of a key the first worker's entry has been freed. */
  lemma {:induction false} AcquisitionsAreSeparated(es: seq<Event>, i: nat, j: nat)
    requires i < j < |es| && Acquires(StateAt(es, i), es[i]) && Acquires(StateAt(es, j), es[j])
    ensures exists m :: i < m < j && Frees(StateAt(es, m), es[m], es[i].token)
  {
    HeldUntilFreed(es, i, j);
  }

  /** A lease alone does not exclude a second owner: eviction lets the next claim in while the first still works. */
  lemma EvictionAdmitsASecondOwner(fingerprint: Digest, first: Token, second: Token, leaseSeconds: nat)
    requires first != second
    ensures var es := [Claim(fingerprint, first, leaseSeconds), Evict, Claim(fingerprint, second, leaseSeconds)];
            Acquires(StateAt(es, 0), es[0]) && Acquires(StateAt(es, 2), es[2])
  {
    var es := [Claim(fingerprint, first, leaseSeconds), Evict, Claim(fingerprint, second, leaseSeconds)];
    NextState(es, 0);
    NextState(es, 1);
  }

  /** The cache counts milliseconds: a result that expires in the middle of one stays visible until its end. */
  lemma CacheOutlivesItsResult(fingerprint: Digest, token: Token, completed: Completed)
    requires completed == Completed(COMPLETION, 1500, fingerprint)
    ensures var es := [Claim(fingerprint, token, 30), Complete(token, completed, 300_000), Wait(1600)];
            var s := Run(ABSENT, es);
            && s.now >= completed.expiresAt
            && Visible(s.slot, s.now).Some? && s.slot.value.result == Some(completed)
  {
    var es := [Claim(fingerprint, token, 30), Complete(token, completed, 300_000), Wait(1600)];
    NextState(es, 0);
    NextState(es, 1);
    NextState(es, 2);
    assert es[..3] == es;
  }

  /** Requests of workers other than `owner`, stale ones included. */
  predicate RequestsOfOthers(es: seq<Event>, owner: Token) {
    forall e :: e in es ==>
      match e
      case Claim(_, _, _) => true
      case Renew(t, _) => t != owner
      case Complete(t, _, _) => t != owner
      case Release(t) => t != owner
      case Wait(_) => false
      case Evict => false
  }

  /** Nothing that other workers send, in any number, changes an entry that a worker leases. */
  lemma {:induction false} OthersCannotTouchALease(s: Lease, owner: Token, es: seq<Event>)
    requires OwnedBy(Visible(s.slot, s.now), owner) && RequestsOfOthers(es, owner)
    ensures Run(s, es).slot == s.slot && Run(s, es).holder == s.holder && Run(s, es).now == s.now
  {
    if es != [] {
      var before, e := es[..|es| - 1], es[|es| - 1];
      assert e in es;
      assert forall x :: x in before ==> x in es;
      OthersCannotTouchALease(s, owner, before);
    }
  }

  /** A renewal succeeds exactly for the worker whose lease is still in force. */
  lemma {:induction false} RenewTellsOwnership(es: seq<Event>, token: Token, leaseSeconds: nat)
    ensures var s := Run(ABSENT, es);
            RenewScript(s.slot, token, leaseSeconds, s.now).1 <==>
              Holds(s, token) && s.slot.value.state == Some(Processing)
  {
    Reachable(es);
  }

  // ---- the heartbeat ----

  /** `token` leases the entry and renewed it `since` microseconds ago, for `leaseSeconds`. */
  predicate Renewed(s: Lease, token: Token, leaseSeconds: nat, since: nat) {
    && Inv(s)
    && s.slot.Some? && s.holder == Some(token) && s.slot.value.state == Some(Processing)
    && s.slot.value.deadline == Ms(s.now - since) + 1000 * leaseSeconds
    && since <= leaseSeconds * SECOND
  }

  function WaitOf(e: Event): nat {
    if e.Wait? then e.duration else 0
  }

  function WaitedIn(es: seq<Event>): nat {
    if es == [] then 0 else WaitedIn(es[..|es| - 1]) + WaitOf(es[|es| - 1])
  }

  /** Events of other workers and time; the key is not evicted. */
  predicate Foreign(es: seq<Event>, token: Token) {
    forall e :: e in es ==>
      match e
      case Claim(_, _, _) => true
      case Renew(t, _) => t != token
      case Complete(t, _, _) => t != token
      case Release(t) => t != token
      case Wait(_) => true
      case Evict => false
  }

  lemma RenewedIsVisible(s: Lease, token: Token, leaseSeconds: nat, since: nat)
    requires Renewed(s, token, leaseSeconds, since)
    ensures OwnedBy(Visible(s.slot, s.now), token)
  {
  }

  lemma {:induction false} LeaseOutlasts(s: Lease, es: seq<Event>, token: Token, leaseSeconds: nat)
    requires Renewed(s, token, leaseSeconds, 0) && Foreign(es, token)
    requires WaitedIn(es) <= leaseSeconds * SECOND
    ensures Renewed(Run(s, es), token, leaseSeconds, WaitedIn(es))
  {
    if es != [] {
      var before, e := es[..|es| - 1], es[|es| - 1];
      assert e in es;
      assert forall x :: x in before ==> x in es;
      LeaseOutlasts(s, before, token, leaseSeconds);
      RenewedIsVisible(Run(s, before), token, leaseSeconds, WaitedIn(before));
      StepKeepsInv(Run(s, before), e);
    }
  }

  /** When the loop is told to stop: not in this cycle, while it sleeps or while it renews. */
  datatype Stop = Never | WhileSleeping | WhileRenewing

  /** One cycle: sleep a third of the lease; what comes on top is `delay`; meanwhile others act on the key. */
  datatype Cycle = Cycle(others: seq<Event>, stop: Stop, storeFails: bool)

  /** The whole cycle took the sleep and a delay below two thirds of the lease. */
  predicate Timely(c: Cycle, token: Token, leaseSeconds: nat) {
    && Foreign(c.others, token) && !c.storeFails
    && exists delay: nat :: 3 * delay < 2 * leaseSeconds * SECOND
                            && WaitedIn(c.others) == leaseSeconds * SECOND / 3 + delay
  }

  lemma TimelyFits(c: Cycle, token: Token, leaseSeconds: nat)
    requires Timely(c, token, leaseSeconds)
    ensures WaitedIn(c.others) <= leaseSeconds * SECOND
  {
  }

  datatype HeartbeatState = Beating | Stopped | LeaseLost

  /** The heartbeat and the key after some cycles; a stopped heartbeat and one that lost the lease do nothing more. */
  function Beat(s: Lease, token: Token, leaseSeconds: nat, cycles: seq<Cycle>): (HeartbeatState, Lease) {
    if cycles == [] then (Beating, s) else
      var (state, s1) := Beat(s, token, leaseSeconds, cycles[..|cycles| - 1]);
      if !state.Beating? then (state, s1) else
        var c := cycles[|cycles| - 1];
        var s2 := Run(s1, c.others);
        if c.stop.WhileSleeping? then (Stopped, s2)
        else if c.storeFails then (LeaseLost, s2)
        else (if !RenewScript(s2.slot, token, leaseSeconds, s2.now).1 then LeaseLost
              else if c.stop.WhileRenewing? then Stopped else Beating,
              Step(s2, Renew(token, leaseSeconds)))
  }

  /** What happens to the key in cycles that all renew. */
  function EventsOf(cycles: seq<Cycle>, token: Token, leaseSeconds: nat): seq<Event> {
    if cycles == [] then [] else
      EventsOf(cycles[..|cycles| - 1], token, leaseSeconds) + cycles[|cycles| - 1].others + [Renew(token, leaseSeconds)]
  }

  /** The key at the end of the sleep of cycle `i`, if all cycles before it have renewed. */
  function Woken(s: Lease, token: Token, leaseSeconds: nat, cycles: seq<Cycle>, i: nat): Lease
    requires i < |cycles|
  {
    Run(s, EventsOf(cycles[..i], token, leaseSeconds) + cycles[i].others)
  }

  /** Cycle `i` asks for a renewal, and the key as it is by then grants it. */
  predicate Renews(s: Lease, token: Token, leaseSeconds: nat, cycles: seq<Cycle>, i: nat)
    requires i < |cycles|
  {
    var t := Woken(s, token, leaseSeconds, cycles, i);
    !cycles[i].stop.WhileSleeping? && !cycles[i].storeFails && RenewScript(t.slot, token, leaseSeconds, t.now).1
  }

  /** The first `n` cycles have all renewed and none was told to stop. */
  predicate Undisturbed(s: Lease, token: Token, leaseSeconds: nat, cycles: seq<Cycle>, n: nat)
    requires n <= |cycles|
  {
    forall k :: 0 <= k < n ==> cycles[k].stop.Never? && Renews(s, token, leaseSeconds, cycles, k)
  }

  /** The loop reaches cycle `i`, is not stopped in its sleep, and the store fails or refuses the renewal. */
  predicate LosesAt(s: Lease, token: Token, leaseSeconds: nat, cycles: seq<Cycle>, i: nat) {
    && i < |cycles| && Undisturbed(s, token, leaseSeconds, cycles, i)
    && !cycles[i].stop.WhileSleeping? && !Renews(s, token, leaseSeconds, cycles, i)
  }

  /** The loop reaches cycle `i` and is stopped there: in its sleep, or in a renewal that is granted. */
  predicate StopsAt(s: Lease, token: Token, leaseSeconds: nat, cycles: seq<Cycle>, i: nat) {
    && i < |cycles| && Undisturbed(s, token, leaseSeconds, cycles, i)
    && (cycles[i].stop.WhileSleeping? || (cycles[i].stop.WhileRenewing? && Renews(s, token, leaseSeconds, cycles, i)))
  }

  /** What the loop leaves of the key when it ends in cycle `i`: the renewal is the last thing it does, if it gets there. */
  function Left(s: Lease, token: Token, leaseSeconds: nat, cycles: seq<Cycle>, i: nat): Lease
    requires i < |cycles|
  {
    var t := Woken(s, token, leaseSeconds, cycles, i);
    if cycles[i].stop.WhileSleeping? || cycles[i].storeFails then t else Step(t, Renew(token, leaseSeconds))
  }

  /** How the loop ends, told by the cycles and the key alone. */
  ghost predicate EndsAsToldBy(s: Lease, token: Token, leaseSeconds: nat, cycles: seq<Cycle>, state: HeartbeatState, t: Lease) {
    && (state.LeaseLost? <==> exists i: nat :: LosesAt(s, token, leaseSeconds, cycles, i))
    && (state.Stopped? <==> exists i: nat :: StopsAt(s, token, leaseSeconds, cycles, i))
    && (state.Beating? ==> Undisturbed(s, token, leaseSeconds, cycles, |cycles|) && t == Run(s, EventsOf(cycles, token, leaseSeconds)))
    && (forall i: nat :: LosesAt(s, token, leaseSeconds, cycles, i) || StopsAt(s, token, leaseSeconds, cycles, i) ==>
          t == Left(s, token, leaseSeconds, cycles, i))
  }

  lemma {:induction false} RunOn(s: Lease, es: seq<Event>, more: seq<Event>)
    ensures Run(s, es + more) == Run(Run(s, es), more)
  {
    if more == [] {
      assert es + more == es;
    } else {
      RunOn(s, es, more[..|more| - 1]);
      assert (es + more)[..|es + more| - 1] == es + more[..|more| - 1];
    }
  }

  /** What a cycle is does not depend on the cycles behind it. */
  lemma EarlierCycles(s: Lease, token: Token, leaseSeconds: nat, cycles: seq<Cycle>, n: nat, i: nat)
    requires i < n <= |cycles|
    ensures Woken(s, token, leaseSeconds, cycles[..n], i) == Woken(s, token, leaseSeconds, cycles, i)
    ensures Renews(s, token, leaseSeconds, cycles[..n], i) == Renews(s, token, leaseSeconds, cycles, i)
    ensures Left(s, token, leaseSeconds, cycles[..n], i) == Left(s, token, leaseSeconds, cycles, i)
  {
    assert cycles[..n][..i] == cycles[..i];
  }

  lemma EarlierEnds(s: Lease, token: Token, leaseSeconds: nat, cycles: seq<Cycle>, n: nat, i: nat)
    requires i < n <= |cycles|
    ensures Undisturbed(s, token, leaseSeconds, cycles[..n], i) == Undisturbed(s, token, leaseSeconds, cycles, i)
    ensures LosesAt(s, token, leaseSeconds, cycles[..n], i) == LosesAt(s, token, leaseSeconds, cycles, i)
    ensures StopsAt(s, token, leaseSeconds, cycles[..n], i) == StopsAt(s, token, leaseSeconds, cycles, i)
  {
    forall k: nat | k <= i
      ensures Renews(s, token, leaseSeconds, cycles[..n], k) == Renews(s, token, leaseSeconds, cycles, k)
      ensures cycles[..n][k] == cycles[k]
    {
      EarlierCycles(s, token, leaseSeconds, cycles, n, k);
    }
  }

  /** The last cycle of a loop that got there. */
  lemma LastCycle(s: Lease, token: Token, leaseSeconds: nat, cycles: seq<Cycle>)
    requires cycles != [] && Undisturbed(s, token, leaseSeconds, cycles, |cycles| - 1)
    requires Beat(s, token, leaseSeconds, cycles[..|cycles| - 1]) ==
             (Beating, Run(s, EventsOf(cycles[..|cycles| - 1], token, leaseSeconds)))
    ensures var (state, t) := Beat(s, token, leaseSeconds, cycles);
            var i := |cycles| - 1;
            && (state.LeaseLost? <==> LosesAt(s, token, leaseSeconds, cycles, i))
            && (state.Stopped? <==> StopsAt(s, token, leaseSeconds, cycles, i))
            && (state.Beating? <==> cycles[i].stop.Never? && Renews(s, token, leaseSeconds, cycles, i))
            && t == Left(s, token, leaseSeconds, cycles, i)
  {
    RunOn(s, EventsOf(cycles[..|cycles| - 1], token, leaseSeconds), cycles[|cycles| - 1].others);
  }

  lemma LastRenewal(s: Lease, token: Token, leaseSeconds: nat, cycles: seq<Cycle>)
    requires cycles != [] && Renews(s, token, leaseSeconds, cycles, |cycles| - 1)
    ensures Left(s, token, leaseSeconds, cycles, |cycles| - 1) == Run(s, EventsOf(cycles, token, leaseSeconds))
  {
    var es := EventsOf(cycles[..|cycles| - 1], token, leaseSeconds) + cycles[|cycles| - 1].others;
    assert (es + [Renew(token, leaseSeconds)])[..|es|] == es;
  }

  /** A loop that has ended in a cycle does not reach the ones behind it. */
  lemma EndsOnce(s: Lease, token: Token, leaseSeconds: nat, cycles: seq<Cycle>, i: nat, k: nat)
    requires LosesAt(s, token, leaseSeconds, cycles, i) || StopsAt(s, token, leaseSeconds, cycles, i)
    requires LosesAt(s, token, leaseSeconds, cycles, k) || StopsAt(s, token, leaseSeconds, cycles, k)
    ensures i == k
  {
  }

  lemma {:induction false} BeatEndsAsTold(s: Lease, token: Token, leaseSeconds: nat, cycles: seq<Cycle>)
    ensures var (state, t) := Beat(s, token, leaseSeconds, cycles); EndsAsToldBy(s, token, leaseSeconds, cycles, state, t)
  {
    if cycles != [] {
      var n := |cycles| - 1;
      BeatEndsAsTold(s, token, leaseSeconds, cycles[..n]);
      forall i: nat | i < n
        ensures LosesAt(s, token, leaseSeconds, cycles[..n], i) == LosesAt(s, token, leaseSeconds, cycles, i)
        ensures StopsAt(s, token, leaseSeconds, cycles[..n], i) == StopsAt(s, token, leaseSeconds, cycles, i)
        ensures Left(s, token, leaseSeconds, cycles[..n], i) == Left(s, token, leaseSeconds, cycles, i)
        ensures Renews(s, token, leaseSeconds, cycles[..n], i) == Renews(s, token, leaseSeconds, cycles, i)
      {
        EarlierEnds(s, token, leaseSeconds, cycles, n, i);
        EarlierCycles(s, token, leaseSeconds, cycles, n, i);
      }
      if Beat(s, token, leaseSeconds, cycles[..n]).0.Beating? {
        UndisturbedBefore(s, token, leaseSeconds, cycles, n);
        BeatGoesOn(s, token, leaseSeconds, cycles);
      } else {
        BeatHasEnded(s, token, leaseSeconds, cycles);
      }
    }
  }

  lemma OnlyTheLastCycle(s: Lease, token: Token, leaseSeconds: nat, cycles: seq<Cycle>, i: nat)
    requires cycles != [] && Undisturbed(s, token, leaseSeconds, cycles, |cycles| - 1)
    requires LosesAt(s, token, leaseSeconds, cycles, i) || StopsAt(s, token, leaseSeconds, cycles, i)
    ensures i == |cycles| - 1
  {
  }

  lemma BeatGoesOn(s: Lease, token: Token, leaseSeconds: nat, cycles: seq<Cycle>)
    requires cycles != [] && Undisturbed(s, token, leaseSeconds, cycles, |cycles| - 1)
    requires Beat(s, token, leaseSeconds, cycles[..|cycles| - 1]) ==
             (Beating, Run(s, EventsOf(cycles[..|cycles| - 1], token, leaseSeconds)))
    ensures var (state, t) := Beat(s, token, leaseSeconds, cycles); EndsAsToldBy(s, token, leaseSeconds, cycles, state, t)
  {
    LastCycle(s, token, leaseSeconds, cycles);
    if Renews(s, token, leaseSeconds, cycles, |cycles| - 1) {
      LastRenewal(s, token, leaseSeconds, cycles);
    }
    forall i: nat | LosesAt(s, token, leaseSeconds, cycles, i) || StopsAt(s, token, leaseSeconds, cycles, i)
      ensures i == |cycles| - 1
    {
      OnlyTheLastCycle(s, token, leaseSeconds, cycles, i);
    }
  }

  lemma UndisturbedBefore(s: Lease, token: Token, leaseSeconds: nat, cycles: seq<Cycle>, n: nat)
    requires n <= |cycles| && Undisturbed(s, token, leaseSeconds, cycles[..n], n)
    requires forall i: nat :: i < n ==> Renews(s, token, leaseSeconds, cycles[..n], i) == Renews(s, token, leaseSeconds, cycles, i)
    ensures Undisturbed(s, token, leaseSeconds, cycles, n)
  {
    forall k | 0 <= k < n ensures cycles[k].stop.Never? && Renews(s, token, leaseSeconds, cycles, k) {
      assert cycles[..n][k] == cycles[k];
      assert Renews(s, token, leaseSeconds, cycles[..n], k);
    }
  }

  lemma BeatHasEnded(s: Lease, token: Token, leaseSeconds: nat, cycles: seq<Cycle>)
    requires cycles != [] && !Beat(s, token, leaseSeconds, cycles[..|cycles| - 1]).0.Beating?
    requires var (state, t) := Beat(s, token, leaseSeconds, cycles[..|cycles| - 1]);
             EndsAsToldBy(s, token, leaseSeconds, cycles[..|cycles| - 1], state, t)
    requires forall i: nat :: i < |cycles| - 1 ==>
               && LosesAt(s, token, leaseSeconds, cycles[..|cycles| - 1], i) == LosesAt(s, token, leaseSeconds, cycles, i)
               && StopsAt(s, token, leaseSeconds, cycles[..|cycles| - 1], i) == StopsAt(s, token, leaseSeconds, cycles, i)
               && Left(s, token, leaseSeconds, cycles[..|cycles| - 1], i) == Left(s, token, leaseSeconds, cycles, i)
    ensures var (state, t) := Beat(s, token, leaseSeconds, cycles); EndsAsToldBy(s, token, leaseSeconds, cycles, state, t)
  {
    var n := |cycles| - 1;
    var (state, t) := Beat(s, token, leaseSeconds, cycles[..n]);
    var i: nat :| LosesAt(s, token, leaseSeconds, cycles[..n], i) || StopsAt(s, token, leaseSeconds, cycles[..n], i);
    assert LosesAt(s, token, leaseSeconds, cycles, i) || StopsAt(s, token, leaseSeconds, cycles, i);
    forall k: nat | LosesAt(s, token, leaseSeconds, cycles, k) || StopsAt(s, token, leaseSeconds, cycles, k) ensures k == i {
      EndsOnce(s, token, leaseSeconds, cycles, i, k);
    }
    assert Beat(s, token, leaseSeconds, cycles) == (state, t);
  }

  /**
   The renewal loop. It loses the lease exactly in the first cycle, all earlier ones having renewed, whose renewal
   fails or is refused by the key as everything so far has left it; it stops exactly when it is told to in a cycle that
   it reaches; and the renewals are all it does to the key.
   */
  method Heartbeat(start: Lease, token: Token, leaseSeconds: nat, cycles: seq<Cycle>) returns (state: HeartbeatState, s: Lease)
    ensures (state, s) == Beat(start, token, leaseSeconds, cycles)
    ensures EndsAsToldBy(start, token, leaseSeconds, cycles, state, s)
  {
    state, s := Beating, start;
    var stop, i := false, 0;
    while i < |cycles| && !stop
      invariant i <= |cycles|
      invariant (state, s) == Beat(start, token, leaseSeconds, cycles[..i])
      invariant stop <==> !state.Beating?
    {
      assert cycles[..i + 1][..i] == cycles[..i];
      s := Run(s, cycles[i].others);
      if cycles[i].stop.WhileSleeping? {
        state, stop := Stopped, true;
      } else if cycles[i].storeFails {
        state, stop := LeaseLost, true;
      } else {
        var renewed := RenewScript(s.slot, token, leaseSeconds, s.now).1;
        s := Step(s, Renew(token, leaseSeconds));
        if !renewed {
          state, stop := LeaseLost, true;
        } else if cycles[i].stop.WhileRenewing? {
          state, stop := Stopped, true;
        }
      }
      i := i + 1;
    }
    StaysEnded(start, token, leaseSeconds, cycles, i);
    BeatEndsAsTold(start, token, leaseSeconds, cycles);
  }

  lemma {:induction false} StaysEnded(s: Lease, token: Token, leaseSeconds: nat, cycles: seq<Cycle>, i: nat)
    requires i <= |cycles| && (i == |cycles| || !Beat(s, token, leaseSeconds, cycles[..i]).0.Beating?)
    ensures Beat(s, token, leaseSeconds, cycles) == Beat(s, token, leaseSeconds, cycles[..i])
  {
    if i < |cycles| {
      assert cycles[..|cycles| - 1][..i] == cycles[..i];
      StaysEnded(s, token, leaseSeconds, cycles[..|cycles| - 1], i);
    } else {
      assert cycles[..i] == cycles;
    }
  }

  /** If every cycle is timely, no renewal ever fails: the lease is in force after any number of cycles, and when
      the heartbeat is stopped, whatever other workers send meanwhile. */
  lemma {:induction false} TimelyHeartbeatKeepsTheLease(s: Lease, token: Token, leaseSeconds: nat, cycles: seq<Cycle>)
    requires Renewed(s, token, leaseSeconds, 0)
    requires forall c :: c in cycles ==> Timely(c, token, leaseSeconds)
    ensures var (state, t) := Beat(s, token, leaseSeconds, cycles);
            && !state.LeaseLost?
            && (state.Beating? ==> Renewed(t, token, leaseSeconds, 0))
            && OwnedBy(Visible(t.slot, t.now), token)
  {
    if cycles == [] {
      RenewedIsVisible(s, token, leaseSeconds, 0);
    } else {
      var before, c := cycles[..|cycles| - 1], cycles[|cycles| - 1];
      assert c in cycles;
      assert forall x :: x in before ==> x in cycles;
      TimelyHeartbeatKeepsTheLease(s, token, leaseSeconds, before);
      var (state, s1) := Beat(s, token, leaseSeconds, before);
      if state.Beating? {
        TimelyFits(c, token, leaseSeconds);
        LeaseOutlasts(s1, c.others, token, leaseSeconds);
        RenewedIsVisible(Run(s1, c.others), token, leaseSeconds, WaitedIn(c.others));
        StepKeepsInv(Run(s1, c.others), Renew(token, leaseSeconds));
      }
    }
  }

  lemma {:induction false} ForeignKeepsDeadline(s: Lease, es: seq<Event>, token: Token, leaseSeconds: nat)
    requires Renewed(s, token, leaseSeconds, 0) && Foreign(es, token)
    ensures var t := Run(s, es);
            && Inv(t) && t.now == s.now + WaitedIn(es) && token in t.used
            && (t.slot.Some? && t.holder == Some(token) ==> t.slot.value.deadline == s.slot.value.deadline
                                                             && t.slot.value.state == Some(Processing))
  {
    if es != [] {
      var before, e := es[..|es| - 1], es[|es| - 1];
      assert e in es;
      assert forall x :: x in before ==> x in es;
      ForeignKeepsDeadline(s, before, token, leaseSeconds);
      StepKeepsInv(Run(s, before), e);
    }
  }

  /** The bound is sharp to the millisecond: a cycle longer than the lease loses it. */
  lemma LateRenewalFails(s: Lease, es: seq<Event>, token: Token, leaseSeconds: nat)
    requires Renewed(s, token, leaseSeconds, 0) && Foreign(es, token)
    requires WaitedIn(es) >= leaseSeconds * SECOND + 1000
    ensures !RenewScript(Run(s, es).slot, token, leaseSeconds, Run(s, es).now).1
  {
    ForeignKeepsDeadline(s, es, token, leaseSeconds);
  }
}
