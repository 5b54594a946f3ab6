/**
 The coordinator as the object runs it: claim, execute under a lease with the heartbeat in the background,
 publish, answer. Whenever it awaits, other dispatches, the heartbeat, the hot store and the clock may do
 anything they can do in the dispatch protocol.
 */
module Coordination {
  import opened Results
  import opened Models
  import opened ResultCodec
  import H = HotStore
  import D = DurableProtocol
  import S = DurableSafety
  import P = DispatchSafety
  import O = DispatchOutcomes
  import X = DispatchEffects
  import E = DurableCalls
  import U = UnitOfWork
  import opened DispatchProtocol

  /**
   What happens while the coordinator awaits, whether an awaited reply of the hot store is lost, whether an awaited
   lookup fails, and what becomes of a commit that is under way when its caller loses it.
   */
  datatype Turn = Turn(others: seq<Event>, hotFails: bool, fault: Option<U.DriverError>, commitLost: bool, fate: CommitFate)

  /** Not a step of the main thread of `me`: the heartbeat and the durable execution run beside it. */
  predicate Outside(e: Event, me: Worker, executing: bool) {
    match e
    case Tick(_) => true
    case Evict(_) => true
    case Arrive(x, _, _, _) => x != me
    case Act(x, a) =>
      x != me || a.Late? || (executing && (a.Renew? || a.RenewFails? || a.DurableRun?)) || (a.DurableRun? && a.step.CommitUnknown?)
  }

  function Meanwhile(es: seq<Event>, me: Worker, executing: bool): seq<Event> {
    if es == [] then [] else
      var before, e := Meanwhile(es[..|es| - 1], me, executing), es[|es| - 1];
      if Outside(e, me, executing) then before + [e] else before
  }

  /** The same dispatch; under a lease, the heartbeat may have lost it. */
  predicate Onward(w: World, w': World, me: Worker) {
    && w.now <= w'.now
    && (me in w'.dispatches <==> me in w.dispatches)
    && (me in w.dispatches ==>
          var d, d' := w.dispatches[me], w'.dispatches[me];
          d' == d || (d.phase.Leased? && d'.phase.Leased? && d' == d.(phase := d'.phase)))
  }

  lemma OutsideStep(w: World, e: Event, me: Worker, executing: bool)
    requires Outside(e, me, executing)
    ensures Onward(w, Step(w, e), me)
  {
  }

  lemma {:induction false} MeanwhileOnward(w: World, es: seq<Event>, me: Worker, executing: bool)
    ensures Onward(w, Run(w, Meanwhile(es, me, executing)), me)
  {
    if es != [] {
      MeanwhileOnward(w, es[..|es| - 1], me, executing);
      var before, e := Meanwhile(es[..|es| - 1], me, executing), es[|es| - 1];
      if Outside(e, me, executing) {
        assert (before + [e])[..|before|] == before;
        OutsideStep(Run(w, before), e, me, executing);
      }
    }
  }

  lemma {:induction false} RunOn(w: World, es: seq<Event>, more: seq<Event>)
    ensures Run(w, es + more) == Run(Run(w, es), more)
  {
    if more == [] {
      assert es + more == es;
    } else {
      RunOn(w, es, more[..|more| - 1]);
      assert (es + more)[..|es + more| - 1] == es + more[..|more| - 1];
    }
  }

  /** The dispatch has reached this phase. */
  predicate Has(w: World, me: Worker, request: D.Request, phase: Phase) {
    me in w.dispatches && w.dispatches[me].request == request && w.dispatches[me].phase == phase
  }

  /** The dispatch publishes its result or releases its lease. */
  predicate Publication(e: Event, me: Worker) {
    e.Act? && e.worker == me &&
    (e.action.Complete? || e.action.CompleteFails? || e.action.Release? || e.action.ReleaseFails?
     || e.action.GiveBack? || e.action.GiveBackFails?)
  }

  function Publications(es: seq<Event>, me: Worker): nat {
    if es == [] then 0 else Publications(es[..|es| - 1], me) + if Publication(es[|es| - 1], me) then 1 else 0
  }

  lemma PublicationsNext(es: seq<Event>, e: Event, me: Worker)
    ensures Publications(es + [e], me) == Publications(es, me) + if Publication(e, me) then 1 else 0
  {
    assert (es + [e])[..|es|] == es;
  }

  lemma {:induction false} PublicationsAdd(es: seq<Event>, more: seq<Event>, me: Worker)
    ensures Publications(es + more, me) == Publications(es, me) + Publications(more, me)
  {
    if more == [] {
      assert es + more == es;
    } else {
      var init, e := more[..|more| - 1], more[|more| - 1];
      PublicationsAdd(es, init, me);
      PublicationsNext(es + init, e, me);
      assert es + more == es + init + [e];
    }
  }

  lemma {:induction false} MeanwhileNoPublication(es: seq<Event>, me: Worker, executing: bool)
    ensures Publications(Meanwhile(es, me, executing), me) == 0
  {
    if es != [] {
      var init, e := Meanwhile(es[..|es| - 1], me, executing), es[|es| - 1];
      MeanwhileNoPublication(es[..|es| - 1], me, executing);
      PublicationsNext(init, e, me);
    }
  }

  /** The dispatch holds its lease, or has noticed losing it. */
  predicate Holding(w: World, me: Worker, lost: bool) {
    me in w.dispatches && w.dispatches[me].phase == Leased(lost)
  }

  /** The response is the reply to this verdict at a moment between these. */
  ghost predicate Given(r: Response, verdict: Verdict, from: Time, to: Time) {
    exists t :: from <= t <= to && r == Reply(verdict, t)
  }

  function VerdictOf(outcome: D.Outcome): Verdict
    requires !outcome.Raised?
  {
    if outcome.KeyConflict? then RefuseConflict else Give(outcome.completed)
  }

  /** The response says what the durable execution or lookup said. */
  ghost predicate Concludes(r: Response, outcome: D.Outcome, from: Time, to: Time) {
    if outcome.Raised? then r == Failed(Durable(outcome.error)) else Given(r, VerdictOf(outcome), from, to)
  }

  /** One of the two awaits of the lookup failed, or it judged at a second clock reading one committed state of the call. */
  ghost predicate Looked(before: seq<Event>, after: seq<Event>, first: Turn, second: Turn, request: D.Request,
                         r: Result<Option<D.Outcome>, D.Error>)
  {
    if first.fault.Some? then r == Err(E.ErrorOf(first.fault.value))
    else if second.fault.Some? then r == Err(E.ErrorOf(second.fault.value))
    else r.Ok? && Judged(before, after, request, r.value)
  }

  ghost predicate Judged(before: seq<Event>, after: seq<Event>, request: D.Request, j: Option<D.Outcome>) {
    exists n, k :: |before| <= n <= k <= |after| &&
                   var w := Run(INITIAL, after[..n]);
                   j == D.Judgement(D.LookUp(w.durable.db.records, request.key, w.now), request.fingerprint, Run(INITIAL, after[..k]).now)
  }

  lemma IsJudged(before: seq<Event>, after: seq<Event>, n: nat, judged: seq<Event>, request: D.Request, j: Option<D.Outcome>)
    requires |before| <= n <= |judged| && judged <= after
    requires var w := Run(INITIAL, after[..n]);
             j == D.Judgement(D.LookUp(w.durable.db.records, request.key, w.now), request.fingerprint, Run(INITIAL, judged).now)
    ensures Judged(before, after, request, j)
  {
    assert after[..|judged|] == judged;
  }

  lemma LookedLater(before: seq<Event>, after: seq<Event>, later: seq<Event>, first: Turn, second: Turn, request: D.Request,
                    r: Result<Option<D.Outcome>, D.Error>)
    requires Looked(before, after, first, second, request, r) && after <= later
    ensures Looked(before, later, first, second, request, r)
  {
    assert forall n :: 0 <= n <= |after| ==> later[..n] == after[..n];
  }

  /** What the lookup found takes precedence; only if it found nothing, the claim's own refusal is answered. */
  ghost predicate Resolves(r: Response, existing: Result<Option<D.Outcome>, D.Error>, conflict: bool, from: Time, to: Time) {
    match existing
    case Err(e) => r == Failed(Durable(e))
    case Ok(Some(outcome)) => Concludes(r, outcome, from, to)
    case Ok(None) => Given(r, if conflict then RefuseConflict else RefuseBusy, from, to)
  }

  /** A busy dispatch is answered what its lookup found. */
  ghost predicate ResolvedBusy(before: seq<Event>, after: seq<Event>, first: Turn, second: Turn, request: D.Request, conflict: bool,
                               r: Response, from: Time, to: Time)
  {
    exists existing :: Looked(before, after, first, second, request, existing) && Resolves(r, existing, conflict, from, to)
  }

  lemma IsResolved(before: seq<Event>, looked: seq<Event>, after: seq<Event>, first: Turn, second: Turn, request: D.Request,
                   conflict: bool, existing: Result<Option<D.Outcome>, D.Error>, r: Response, from: Time, to: Time)
    requires Looked(before, looked, first, second, request, existing) && looked <= after
    requires exists now :: from <= now <= to && Resolves(r, existing, conflict, now, to)
    ensures ResolvedBusy(before, after, first, second, request, conflict, r, from, to)
  {
    LookedLater(before, looked, after, first, second, request, existing);
    assert Resolves(r, existing, conflict, from, to);
  }

  /** The claim is sent once: it runs, unless the hot store does not answer. */
  ghost predicate Claims(before: seq<Event>, after: seq<Event>, me: Worker, hotFails: bool) {
    exists n :: |before| <= n < |after| && after[n] == Act(me, if hotFails then ClaimFails else Claim)
  }

  lemma ClaimsLater(before: seq<Event>, after: seq<Event>, later: seq<Event>, me: Worker, hotFails: bool)
    requires Claims(before, after, me, hotFails) && after <= later
    ensures Claims(before, later, me, hotFails)
  {
    var n :| |before| <= n < |after| && after[n] == Act(me, if hotFails then ClaimFails else Claim);
    assert later[n] == after[n];
  }

  /** The lease was held or lost at moment `n`, when the durable execution ended or was cancelled; what follows is one
      publication or release, or none, and the answer to the durable outcome. */
  ghost predicate Settled(before: seq<Event>, after: seq<Event>, n: nat, me: Worker, lost: bool, r: Option<Response>, from: Time, to: Time) {
    && |before| <= n <= |after|
    && var w := Run(INITIAL, after[..n]);
       && Holding(w, me, lost)
       && (r.Some? ==> exists outcome :: O.EndsWith(w.durable, me, outcome) && Concludes(r.value, outcome, from, to))
       && Publications(after, me) == Publications(before, me) + if lost then 0 else 1
  }

  /** The durable execution has not ended. */
  predicate Unfinished(w: World, me: Worker) {
    me in w.dispatches && Executing(w.dispatches[me].phase) && !Finished(w.durable, me)
  }

  /** At some moment of the call the durable execution had not ended, nor had it lost the connection to its commit. */
  ghost predicate CutOff(before: seq<Event>, after: seq<Event>, me: Worker, t: Turn) {
    exists n :: |before| <= n <= |after| && CutOffAt(Run(INITIAL, after[..n]), me, t)
  }

  predicate CutOffAt(w: World, me: Worker, t: Turn) {
    Unfinished(w, me) && !(t.commitLost && Committing(w.durable, me))
  }

  lemma IsCutOff(before: seq<Event>, at: seq<Event>, after: seq<Event>, me: Worker, t: Turn)
    requires before <= at <= after && CutOffAt(Run(INITIAL, at), me, t)
    ensures CutOff(before, after, me, t)
  {
    assert after[..|at|] == at;
  }

  lemma CutOffInside(before: seq<Event>, start: seq<Event>, after: seq<Event>, me: Worker, t: Turn)
    requires CutOff(start, after, me, t) && before <= start
    ensures CutOff(before, after, me, t)
  {
  }

  /** At some moment of the call the dispatch publishes its outcome or releases its lease, and the key is as that leaves it. */
  ghost predicate PublishedIn(before: seq<Event>, after: seq<Event>, w': World, me: Worker, outcome: D.Outcome) {
    exists n :: |before| <= n <= |after| && PublishedBy(Run(INITIAL, after[..n]), w', me, outcome)
  }

  predicate PublishedBy(w: World, w': World, me: Worker, outcome: D.Outcome) {
    && me in w.dispatches
    && if CarriesResult(outcome) then X.Published(w, w', me, outcome.completed) else X.Freed(w, w', me)
  }

  /** The same for a lease that is given back. */
  ghost predicate FreedIn(before: seq<Event>, after: seq<Event>, w': World, me: Worker) {
    exists n :: |before| <= n <= |after| && FreedBy(Run(INITIAL, after[..n]), w', me)
  }

  predicate FreedBy(w: World, w': World, me: Worker) {
    me in w.dispatches && X.Freed(w, w', me)
  }

  /** An answer with a result was given at a moment between these. */
  predicate Within(r: Response, from: Time, to: Time) {
    from <= to && (r.Success? ==> from <= r.at <= to)
  }

  lemma MyStep(w: World, me: Worker, a: Action)
    requires me in w.dispatches && Allowed(w, me, a)
    ensures Has(Step(w, Act(me, a)), me, w.dispatches[me].request, NextPhase(w, me, a))
    ensures Step(w, Act(me, a)).now == w.now
  {
  }

  /** Everything a coordinator shares with the others; `history` is the run that led to this state. */
  class Deployment {
    var world: World
    var turn: nat
    ghost var history: seq<Event>
    const turns: nat -> Turn

    ghost predicate Valid()
      reads this
    {
      world == Run(INITIAL, history)
    }

    constructor (turns: nat -> Turn)
      ensures Valid() && world == INITIAL && this.turns == turns
    {
      world, turn, history := INITIAL, 0, [];
      this.turns := turns;
    }

    method Advance(e: Event)
      requires Valid()
      modifies this`world, this`history
      ensures Valid() && world == Step(old(world), e) && history == old(history) + [e]
    {
      world := Step(world, e);
      history := history + [e];
      assert history[..|history| - 1] == old(history);
    }

    /** A step of the main thread of a dispatch. */
    method Move(me: Worker, a: Action)
      requires Valid() && me in world.dispatches && Allowed(world, me, a)
      modifies this`world, this`history
      ensures Valid() && old(history) <= history && world.now == old(world).now
      ensures Has(world, me, old(world).dispatches[me].request, NextPhase(old(world), me, a))
      ensures world == Step(old(world), Act(me, a)) && history == old(history) + [Act(me, a)]
      ensures Publications(history, me) == Publications(old(history), me) + if Publication(Act(me, a), me) then 1 else 0
    {
      MyStep(world, me, a);
      Advance(Act(me, a));
      assert history[..|history| - 1] == old(history);
    }

    method Await(me: Worker, executing: bool) returns (t: Turn)
      requires Valid()
      modifies this
      ensures Valid() && old(history) <= history && Onward(old(world), world, me)
      ensures t == turns(old(turn)) && turn == old(turn) + 1
      ensures Publications(history, me) == Publications(old(history), me)
    {
      t := turns(turn);
      MeanwhileNoPublication(t.others, me, executing);
      PublicationsAdd(history, Meanwhile(t.others, me, executing), me);
      turn := turn + 1;
      MeanwhileOnward(world, t.others, me, executing);
      RunOn(INITIAL, history, Meanwhile(t.others, me, executing));
      history := history + Meanwhile(t.others, me, executing);
      world := Run(world, Meanwhile(t.others, me, executing));
    }
  }

  class IdempotencyCoordinator {
    const deployment: Deployment

    ghost predicate Valid()
      reads this, deployment
    {
      deployment.Valid()
    }

    constructor (deployment: Deployment)
      requires deployment.Valid()
      ensures Valid() && this.deployment == deployment
    {
      this.deployment := deployment;
    }

    /** The final clock check, at a moment of this call. */
    method Evaluate(me: Worker, request: D.Request, verdict: Verdict) returns (r: Response)
      requires Valid() && Has(deployment.world, me, request, Answering(verdict))
      modifies deployment
      ensures Valid() && old(deployment.history) <= deployment.history
      ensures Within(r, old(deployment.world).now, deployment.world.now)
      ensures Has(deployment.world, me, request, Answered(r))
      ensures Given(r, verdict, old(deployment.world).now, deployment.world.now)
      ensures Publications(deployment.history, me) == Publications(old(deployment.history), me)
    {
      var _ := deployment.Await(me, false);
      var now := deployment.world.now;
      deployment.Move(me, Answer);
      match verdict {
        case Give(c) => r := if c.expiresAt <= now then Failed(Unavailable) else Success(c, now);
        case RefuseConflict => r := Failed(KeyReused);
        case RefuseBusy => r := Failed(StillRunning);
      }
      assert r == Reply(verdict, now);
    }

    /** `_evaluate_result` for an outcome of the durable execution. */
    method Conclude(me: Worker, request: D.Request, outcome: D.Outcome) returns (r: Response)
      requires Valid() && Has(deployment.world, me, request, DispatchProtocol.Conclude(outcome))
      modifies deployment
      ensures Valid() && old(deployment.history) <= deployment.history
      ensures Within(r, old(deployment.world).now, deployment.world.now)
      ensures Has(deployment.world, me, request, Answered(r))
      ensures Concludes(r, outcome, old(deployment.world).now, deployment.world.now)
      ensures Publications(deployment.history, me) == Publications(old(deployment.history), me)
    {
      match outcome {
        case Executed(c) => r := Evaluate(me, request, Give(c));
        case Replayed(c) => r := Evaluate(me, request, Give(c));
        case KeyConflict => r := Evaluate(me, request, RefuseConflict);
        case Raised(e) => r := Failed(Durable(e));
      }
    }

    /** The lookup statement of a busy dispatch, on the committed state at moment `n`. */
    method Look(me: Worker, request: D.Request, conflict: bool) returns (r: Result<Option<Completed>, D.Error>, ghost n: nat)
      requires Valid() && Has(deployment.world, me, request, Busy(conflict))
      modifies deployment
      ensures Valid() && old(deployment.history) <= deployment.history
      ensures old(deployment.world).now <= deployment.world.now
      ensures var t := deployment.turns(old(deployment.turn));
              && deployment.turn == old(deployment.turn) + 1
              && if t.fault.Some? then r == Err(E.ErrorOf(t.fault.value)) else r.Ok?
      ensures r.Err? ==> r.error in LOOKUP_ERRORS && Has(deployment.world, me, request, Answered(Failed(Durable(r.error))))
      ensures r.Ok? ==>
                && Has(deployment.world, me, request, BusyFound(conflict, r.value))
                && |old(deployment.history)| <= n <= |deployment.history|
                && var w := Run(INITIAL, deployment.history[..n]);
                   r.value == D.LookUp(w.durable.db.records, request.key, w.now)
    {
      var t := deployment.Await(me, false);
      n := |deployment.history|;
      if t.fault.Some? {
        deployment.Move(me, FindFails(E.ErrorOf(t.fault.value)));
        r := Err(E.ErrorOf(t.fault.value));
        return;
      }
      ghost var looked := deployment.history;
      r := Ok(D.LookUp(deployment.world.durable.db.records, request.key, deployment.world.now));
      deployment.Move(me, Find);
      assert deployment.history[..n] == looked;
    }

    /** The end of the lookup and its judgement; `judged` is the history up to the clock reading. */
    method Judge(me: Worker, request: D.Request, conflict: bool, found: Option<Completed>)
      returns (r: Result<Option<D.Outcome>, D.Error>, ghost judged: seq<Event>)
      requires Valid() && Has(deployment.world, me, request, BusyFound(conflict, found))
      modifies deployment
      ensures Valid() && old(deployment.history) <= judged <= deployment.history
      ensures old(deployment.world).now <= deployment.world.now
      ensures var t := deployment.turns(old(deployment.turn));
              if t.fault.Some? then r == Err(E.ErrorOf(t.fault.value)) else r.Ok?
      ensures r.Err? ==> r.error in LOOKUP_ERRORS && Has(deployment.world, me, request, Answered(Failed(Durable(r.error))))
      ensures r.Ok? ==>
                && r.value == D.Judgement(found, request.fingerprint, Run(INITIAL, judged).now)
                && Has(deployment.world, me, request,
                       if r.value.Some? then DispatchProtocol.Conclude(r.value.value)
                       else Answering(if conflict then RefuseConflict else RefuseBusy))
    {
      var t := deployment.Await(me, false);
      judged := deployment.history;
      if t.fault.Some? {
        deployment.Move(me, FindFails(E.ErrorOf(t.fault.value)));
        r := Err(E.ErrorOf(t.fault.value));
        return;
      }
      r := Ok(D.Judgement(found, request.fingerprint, deployment.world.now));
      deployment.Move(me, Decide);
    }

    /** The lookup of a busy dispatch and its judgement. */
    method FindExisting(me: Worker, request: D.Request, conflict: bool) returns (r: Result<Option<D.Outcome>, D.Error>)
      requires Valid() && Has(deployment.world, me, request, Busy(conflict))
      modifies deployment
      ensures Valid() && old(deployment.history) <= deployment.history
      ensures old(deployment.world).now <= deployment.world.now
      ensures Looked(old(deployment.history), deployment.history, deployment.turns(old(deployment.turn)), deployment.turns(old(deployment.turn) + 1),
                     request, r)
      ensures r.Ok? && r.value.Some? ==> !r.value.value.Raised?
      ensures Has(deployment.world, me, request,
                  if r.Err? then Answered(Failed(Durable(r.error)))
                  else if r.value.Some? then DispatchProtocol.Conclude(r.value.value)
                  else Answering(if conflict then RefuseConflict else RefuseBusy))
    {
      ghost var n: nat;
      ghost var judged: seq<Event>;
      var found: Result<Option<Completed>, D.Error>;
      found, n := Look(me, request, conflict);
      if found.Err? {
        return Err(found.error);
      }
      ghost var h := deployment.history;
      r, judged := Judge(me, request, conflict, found.value);
      if r.Ok? {
        assert deployment.history[..n] == h[..n];
        IsJudged(old(deployment.history), deployment.history, n, judged, request, r.value);
      }
    }

    /** A committed durable winner takes precedence over a pending lease. */
    method ResolveBusy(me: Worker, request: D.Request, conflict: bool) returns (r: Response)
      requires Valid() && Has(deployment.world, me, request, Busy(conflict))
      modifies deployment
      ensures Valid() && old(deployment.history) <= deployment.history
      ensures Within(r, old(deployment.world).now, deployment.world.now)
      ensures Has(deployment.world, me, request, Answered(r))
      ensures ResolvedBusy(old(deployment.history), deployment.history, deployment.turns(old(deployment.turn)), deployment.turns(old(deployment.turn) + 1),
                           request, conflict, r,
                           old(deployment.world).now, deployment.world.now)
    {
      var existing := FindExisting(me, request, conflict);
      ghost var h := deployment.history;
      r := AnswerFound(me, request, conflict, existing);
      IsResolved(old(deployment.history), h, deployment.history, deployment.turns(old(deployment.turn)), deployment.turns(old(deployment.turn) + 1),
                 request, conflict, existing, r,
                 old(deployment.world).now, deployment.world.now);
    }

    method AnswerFound(me: Worker, request: D.Request, conflict: bool, existing: Result<Option<D.Outcome>, D.Error>)
      returns (r: Response)
      requires Valid() && (existing.Ok? && existing.value.Some? ==> !existing.value.value.Raised?)
      requires Has(deployment.world, me, request,
                   if existing.Err? then Answered(Failed(Durable(existing.error)))
                   else if existing.value.Some? then DispatchProtocol.Conclude(existing.value.value)
                   else Answering(if conflict then RefuseConflict else RefuseBusy))
      modifies deployment
      ensures Valid() && old(deployment.history) <= deployment.history
      ensures Within(r, old(deployment.world).now, deployment.world.now)
      ensures Has(deployment.world, me, request, Answered(r))
      ensures Resolves(r, existing, conflict, old(deployment.world).now, deployment.world.now)
    {
      if existing.Err? {
        r := Failed(Durable(existing.error));
      } else if existing.value.Some? {
        r := Conclude(me, request, existing.value.value);
      } else {
        r := Evaluate(me, request, if conflict then RefuseConflict else RefuseBusy);
      }
    }

    /** Runs the durable execution until it ends or loses its connection; `None` if it is cancelled before. */
    method ExecuteDurable(me: Worker) returns (r: Option<D.Outcome>)
      requires Valid() && me in deployment.world.dispatches && Executing(deployment.world.dispatches[me].phase)
      modifies deployment
      ensures Valid() && old(deployment.history) <= deployment.history
      ensures Onward(old(deployment.world), deployment.world, me)
      ensures r.Some? ==> O.EndsWith(deployment.world.durable, me, r.value)
      ensures r.Some? ==> Finished(deployment.world.durable, me) || r.value == COMMIT_LOST
      ensures r.None? ==> CutOffAt(deployment.world, me, deployment.turns(old(deployment.turn)))
      ensures Publications(deployment.history, me) == Publications(old(deployment.history), me)
    {
      var t := deployment.Await(me, true);
      var attempts := deployment.world.durable.attempts;
      if me in attempts && attempts[me].stage.Returned? {
        return Some(attempts[me].stage.outcome);
      }
      if t.commitLost && me in attempts && attempts[me].stage.Recorded? {
        return Some(COMMIT_LOST);
      }
      r := None;
    }

    /** The coordinator takes over the end of the durable execution. */
    method TakeOver(me: Worker, request: D.Request, outcome: D.Outcome)
      requires Valid() && me in deployment.world.dispatches && deployment.world.dispatches[me].request == request
      requires Executing(deployment.world.dispatches[me].phase) && O.EndsWith(deployment.world.durable, me, outcome)
      modifies deployment
      ensures Valid() && old(deployment.history) <= deployment.history && deployment.world.now == old(deployment.world).now
      ensures Has(deployment.world, me, request,
                  if old(deployment.world).dispatches[me].phase == Leased(false) then Publishing(outcome)
                  else DispatchProtocol.Conclude(outcome))
      ensures Publications(deployment.history, me) == Publications(old(deployment.history), me)
    {
      var attempts := deployment.world.durable.attempts;
      deployment.Move(me, if attempts[me].stage.Returned? then Collect else LoseCommit);
    }

    /** A failed publication cannot undo a committed effect; a failed release leaves the lease to expire. */
    method Publish(me: Worker, request: D.Request, outcome: D.Outcome)
      requires Valid() && Has(deployment.world, me, request, Publishing(outcome))
      modifies deployment
      ensures Valid() && old(deployment.history) <= deployment.history
      ensures old(deployment.world).now <= deployment.world.now
      ensures Has(deployment.world, me, request, DispatchProtocol.Conclude(outcome))
      ensures Publications(deployment.history, me) == Publications(old(deployment.history), me) + 1
      ensures !deployment.turns(old(deployment.turn)).hotFails ==>
                PublishedIn(old(deployment.history), deployment.history, deployment.world, me, outcome)
    {
      var t := deployment.Await(me, false);
      ghost var h := deployment.history;
      if CarriesResult(outcome) {
        deployment.Move(me, if t.hotFails then CompleteFails else Complete);
        if !t.hotFails { X.PublicationsTakeEffect(h, me, Complete); }
      } else {
        deployment.Move(me, if t.hotFails then ReleaseFails else Release);
        if !t.hotFails { X.PublicationsTakeEffect(h, me, Release); }
      }
      assert deployment.history[..|h|] == h;
      assert !t.hotFails ==> PublishedBy(Run(INITIAL, h), deployment.world, me, outcome);
    }

    /** The cancelled dispatch asks for its lease to be released, if it believes in one; its commit may be under way. */
    method Abandon(me: Worker, request: D.Request) returns (ghost n: nat)
      requires Valid() && me in deployment.world.dispatches && deployment.world.dispatches[me].request == request
      requires Executing(deployment.world.dispatches[me].phase)
      modifies deployment
      ensures Valid() && old(deployment.history) <= deployment.history
      ensures old(deployment.world).now <= deployment.world.now
      ensures Has(deployment.world, me, request, Dead)
      ensures |old(deployment.history)| <= n <= |deployment.history|
      ensures var w, before := Run(INITIAL, deployment.history[..n]), old(deployment.world);
              && Onward(before, w, me)
              && Publications(deployment.history, me) ==
                 Publications(old(deployment.history), me) + if w.dispatches[me].phase == Leased(false) then 1 else 0
    {
      var t := deployment.Await(me, true);
      ghost var h := deployment.history;
      n := |h|;
      var phase := deployment.world.dispatches[me].phase;
      CancelExecution(me, request, t.fate);
      if phase == Leased(false) {
        ReleaseAbandoned(me, request);
      }
      assert deployment.history[..n] == h;
    }

    method CancelExecution(me: Worker, request: D.Request, fate: CommitFate)
      requires Valid() && me in deployment.world.dispatches && deployment.world.dispatches[me].request == request
      requires Executing(deployment.world.dispatches[me].phase)
      modifies deployment
      ensures Valid() && old(deployment.history) <= deployment.history && deployment.world.now == old(deployment.world).now
      ensures Has(deployment.world, me, request,
                  if old(deployment.world).dispatches[me].phase == Leased(false) then Abandoning else Dead)
      ensures Publications(deployment.history, me) == Publications(old(deployment.history), me)
    {
      var attempts := deployment.world.durable.attempts;
      deployment.Move(me, Cancel(if me in attempts && attempts[me].stage.Recorded? then fate else Decided(false)));
    }

    method ReleaseAbandoned(me: Worker, request: D.Request)
      requires Valid() && Has(deployment.world, me, request, Abandoning)
      modifies deployment
      ensures Valid() && old(deployment.history) <= deployment.history
      ensures old(deployment.world).now <= deployment.world.now
      ensures Has(deployment.world, me, request, Dead)
      ensures Publications(deployment.history, me) == Publications(old(deployment.history), me) + 1
      ensures !deployment.turns(old(deployment.turn)).hotFails ==>
                FreedIn(old(deployment.history), deployment.history, deployment.world, me)
    {
      var t := deployment.Await(me, false);
      ghost var h := deployment.history;
      deployment.Move(me, if t.hotFails then GiveBackFails else GiveBack);
      if !t.hotFails {
        X.PublicationsTakeEffect(h, me, GiveBack);
        assert deployment.history[..|h|] == h;
        assert FreedBy(Run(INITIAL, h), deployment.world, me);
      }
    }

    /**
     Whether the lease is believed in is decided when the durable execution has ended or is cancelled: a dispatch that
     then still believes in it publishes or releases exactly once, one that has lost it never does; and an answer is
     what the durable execution said.
     */
    method ExecuteClaimed(me: Worker, request: D.Request) returns (r: Option<Response>)
      requires Valid() && Has(deployment.world, me, request, Leased(false))
      modifies deployment
      ensures Valid() && old(deployment.history) <= deployment.history
      ensures r.Some? ==> Within(r.value, old(deployment.world).now, deployment.world.now)
      ensures Has(deployment.world, me, request, if r.Some? then Answered(r.value) else Dead)
      ensures r.None? ==> CutOff(old(deployment.history), deployment.history, me, deployment.turns(old(deployment.turn)))
      ensures exists n: nat, lost ::
                Settled(old(deployment.history), deployment.history, n, me, lost, r, old(deployment.world).now, deployment.world.now)
    {
      var result := ExecuteDurable(me);
      ghost var ended := deployment.history;
      if result.None? {
        ghost var n := Abandon(me, request);
        r := None;
        IsCutOff(old(deployment.history), ended, deployment.history, me, deployment.turns(old(deployment.turn)));
        assert Settled(old(deployment.history), deployment.history, n, me,
                       Run(INITIAL, deployment.history[..n]).dispatches[me].phase.lost, r,
                       old(deployment.world).now, deployment.world.now);
      } else {
        ghost var lost := deployment.world.dispatches[me].phase.lost;
        var answer := Deliver(me, request, result.value);
        r := Some(answer);
        assert deployment.history[..|ended|] == ended;
        assert Settled(old(deployment.history), deployment.history, |ended|, me, lost, r, old(deployment.world).now, deployment.world.now);
      }
    }

    /** The durable execution has ended: one publication if the lease is believed in, and its answer. */
    method Deliver(me: Worker, request: D.Request, outcome: D.Outcome) returns (r: Response)
      requires Valid() && me in deployment.world.dispatches && deployment.world.dispatches[me].request == request
      requires deployment.world.dispatches[me].phase.Leased? && O.EndsWith(deployment.world.durable, me, outcome)
      modifies deployment
      ensures Valid() && old(deployment.history) <= deployment.history
      ensures Within(r, old(deployment.world).now, deployment.world.now)
      ensures Has(deployment.world, me, request, Answered(r))
      ensures Concludes(r, outcome, old(deployment.world).now, deployment.world.now)
      ensures Publications(deployment.history, me) ==
              Publications(old(deployment.history), me) + if old(deployment.world).dispatches[me].phase.lost then 0 else 1
    {
      var lost := deployment.world.dispatches[me].phase.lost;
      TakeOver(me, request, outcome);
      if !lost {
        Publish(me, request, outcome);
      }
      r := Conclude(me, request, outcome);
    }

    /** Without the hot store the durable execution decides alone. */
    method ExecuteUnleased(me: Worker, request: D.Request) returns (r: Option<Response>)
      requires Valid() && Has(deployment.world, me, request, Unleased)
      modifies deployment
      ensures Valid() && old(deployment.history) <= deployment.history
      ensures r.Some? ==> Within(r.value, old(deployment.world).now, deployment.world.now)
      ensures Has(deployment.world, me, request, if r.Some? then Answered(r.value) else Dead)
      ensures r.None? ==> CutOff(old(deployment.history), deployment.history, me, deployment.turns(old(deployment.turn)))
    {
      var result := ExecuteDurable(me);
      ghost var ended := deployment.history;
      if result.None? {
        ghost var _ := Abandon(me, request);
        IsCutOff(old(deployment.history), ended, deployment.history, me, deployment.turns(old(deployment.turn)));
        return None;
      }
      TakeOver(me, request, result.value);
      var answer := Conclude(me, request, result.value);
      r := Some(answer);
    }

    /** The claim; a hot store that does not answer is unavailable. */
    method Ask(me: Worker, request: D.Request) returns (claim: Result<H.ClaimResult, H.HotError>)
      requires Valid() && Has(deployment.world, me, request, Claiming)
      modifies deployment
      ensures Valid() && old(deployment.history) <= deployment.history && deployment.turn == old(deployment.turn) + 1
      ensures old(deployment.world).now <= deployment.world.now
      ensures Has(deployment.world, me, request, AfterReply(claim))
      ensures Claims(old(deployment.history), deployment.history, me, deployment.turns(old(deployment.turn)).hotFails)
    {
      var t := deployment.Await(me, false);
      ghost var h := deployment.history;
      if t.hotFails {
        deployment.Move(me, ClaimFails);
        claim := Err(H.Unavailable);
      } else {
        var slot, lease := H.At(deployment.world.hot, request.key), deployment.world.dispatches[me].policy.leaseSeconds;
        var reply := H.ClaimScript(slot, request.fingerprint, me, lease, deployment.world.now).1;
        claim := H.DecodeReply(reply, request.fingerprint);
        deployment.Move(me, Claim);
      }
      assert deployment.history[|h|] == Act(me, if t.hotFails then ClaimFails else Claim);
    }

    /** The claim, and what follows from its reply. */
    method Dispatch(me: Worker, request: D.Request) returns (r: Option<Response>)
      requires Valid() && Has(deployment.world, me, request, Claiming)
      modifies deployment
      ensures Valid() && old(deployment.history) <= deployment.history
      ensures r.Some? ==> Within(r.value, old(deployment.world).now, deployment.world.now)
      ensures Has(deployment.world, me, request, if r.Some? then Answered(r.value) else Dead)
      ensures r.None? ==> CutOff(old(deployment.history), deployment.history, me, deployment.turns(old(deployment.turn) + 1))
      ensures Claims(old(deployment.history), deployment.history, me, deployment.turns(old(deployment.turn)).hotFails)
    {
      var claim := Ask(me, request);
      ghost var h := deployment.history;
      r := Follow(me, request, claim);
      ClaimsLater(old(deployment.history), h, deployment.history, me, deployment.turns(old(deployment.turn)).hotFails);
    }

    method Follow(me: Worker, request: D.Request, claim: Result<H.ClaimResult, H.HotError>) returns (r: Option<Response>)
      requires Valid() && Has(deployment.world, me, request, AfterReply(claim))
      modifies deployment
      ensures Valid() && old(deployment.history) <= deployment.history
      ensures r.Some? ==> Within(r.value, old(deployment.world).now, deployment.world.now)
      ensures Has(deployment.world, me, request, if r.Some? then Answered(r.value) else Dead)
      ensures r.None? ==> CutOff(old(deployment.history), deployment.history, me, deployment.turns(old(deployment.turn)))
    {
      if claim.Err? {
        r := ExecuteUnleased(me, request);
        return;
      }
      match claim.value {
        case ClaimAcquired => r := ExecuteClaimed(me, request);
        case ClaimReplay(c) => var answer := Evaluate(me, request, Give(c)); r := Some(answer);
        case ClaimConflict => var answer := ResolveBusy(me, request, true); r := Some(answer);
        case ClaimInProgress => var answer := ResolveBusy(me, request, false); r := Some(answer);
      }
    }

    /**
     `execute` as its callers see it, for every interleaving, outage, lost reply, late script, eviction and expiry:
     a normal answer is the committed record of this key that is in force when it is given and that carries this
     fingerprint; refusals have no effect; no dispatch has more than one, not even
     a cancelled one; and only a dispatch whose durable execution is cut off before its end goes without an answer (`None`).
     */
    method Execute(me: Worker, request: D.Request, policy: Policy, mode: ResultMode) returns (r: Option<Response>)
      requires Valid() && me !in deployment.world.dispatches
      requires ValidPolicy(policy) && request.retentionSeconds == policy.retentionSeconds
      modifies deployment
      ensures Valid() && old(deployment.history) <= deployment.history
      ensures Has(deployment.world, me, request, if r.Some? then Answered(r.value) else Dead)
      ensures r.Some? && r.value.Success? ==>
                && r.value.completed.fingerprint == request.fingerprint
                && old(deployment.world).now <= r.value.at <= deployment.world.now
                && r.value.at < r.value.completed.expiresAt
                && P.InForce(deployment.world.durable.db.log, request.key, r.value.completed, r.value.at)
      ensures r in {Some(Failed(KeyReused)), Some(Failed(StillRunning))} ==> O.Effects(deployment.world, me) == 0
      ensures r.Some? && r.value.Failed? && r.value.failure.Durable? && r.value.failure.error != D.Unavailable ==>
                O.Effects(deployment.world, me) == 0
      ensures O.Effects(deployment.world, me) <= 1
      ensures r.None? ==> CutOff(old(deployment.history), deployment.history, me, deployment.turns(old(deployment.turn) + 1))
      ensures Claims(old(deployment.history), deployment.history, me, deployment.turns(old(deployment.turn)).hotFails)
    {
      deployment.Advance(Arrive(me, request, policy, mode));
      r := Dispatch(me, request);
      O.AtMostOneEffect(deployment.history, me);
      if r.Some? {
        O.AnswersTellTheEffect(deployment.history, me);
        if r.value.Success? {
          P.AnswerIsTheRecordInForce(deployment.history, me);
        }
      }
    }
  }
}
