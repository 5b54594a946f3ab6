/**
 The circuit breaker in front of the hot store: three states, generations and one probe at a time.
 Nothing awaits inside the lock, so every critical section of `call` is one atomic step; the wrapped
 function runs between two of them, concurrently with any number of other calls.
 */
module CircuitBreaker {
  import opened Results

  datatype CircuitState = Closed | Open | HalfOpen

  /** Identities of the probe objects; every `object()` is a new one. */
  type Token = nat

  datatype Config = Config(failMax: nat, recoveryTimeout: real)

  predicate ValidConfig(c: Config) {
    c.failMax > 0 && c.recoveryTimeout > 0.0
  }

  /** The fields of a breaker. */
  datatype Breaker = Breaker(
    state: CircuitState,
    failureCount: nat,
    openedAt: Option<real>,
    probeInProgress: bool,
    probeToken: Option<Token>,
    generation: nat,
    nextToken: Token)

  const NEW := Breaker(Closed, 0, None, false, None, 0, 0)

  /** What a call keeps from its admission until it ends. */
  datatype Ticket = Ticket(generation: nat, probe: Option<Token>)

  /** How a wrapped function ends: an error the predicate calls no failure is `Ignored`; `Interrupted`
      stands for cancellation, other base exceptions and a predicate that itself raises. */
  datatype Outcome = Success | Failure | Ignored | Interrupted

  // ---- the critical sections ----

  function CheckState(c: Config, b: Breaker, now: real): Breaker {
    if b.state.Open? && b.openedAt.Some? && now - b.openedAt.value >= c.recoveryTimeout
    then b.(state := HalfOpen) else b
  }

  function Trip(b: Breaker, now: real): Breaker {
    b.(state := Open, openedAt := Some(now), probeInProgress := false, probeToken := None,
       generation := b.generation + 1)
  }

  /** The check at the front of `call`: `None` is a rejection. */
  function Admit(c: Config, b: Breaker, now: real): (Breaker, Option<Ticket>) {
    var b := CheckState(c, b, now);
    match b.state
    case Open => (b, None)
    case HalfOpen =>
      if b.probeInProgress then (b, None)
      else (b.(probeInProgress := true, probeToken := Some(b.nextToken), nextToken := b.nextToken + 1),
            Some(Ticket(b.generation, Some(b.nextToken))))
    case Closed => (b, Some(Ticket(b.generation, None)))
  }

  predicate IsCurrentProbe(b: Breaker, t: Ticket) {
    t.probe.Some? && b.state.HalfOpen? && b.probeToken == t.probe
  }

  predicate IsCurrentClosedCall(b: Breaker, t: Ticket) {
    t.probe.None? && b.state.Closed? && b.generation == t.generation
  }

  function HandleSuccess(b: Breaker, t: Ticket): Breaker {
    if IsCurrentProbe(b, t) then
      b.(state := Closed, failureCount := 0, openedAt := None, probeInProgress := false, probeToken := None,
         generation := b.generation + 1)
    else if IsCurrentClosedCall(b, t) then b.(failureCount := 0)
    else b
  }

  function HandleFailure(c: Config, b: Breaker, t: Ticket, now: real): Breaker {
    if !IsCurrentProbe(b, t) && !IsCurrentClosedCall(b, t) then b
    else
      var counted := b.(failureCount := b.failureCount + 1);
      if IsCurrentProbe(b, t) || counted.failureCount >= c.failMax then Trip(counted, now) else counted
  }

  function ReleaseProbe(b: Breaker, t: Ticket): Breaker {
    if IsCurrentProbe(b, t) then b.(probeInProgress := false, probeToken := None) else b
  }

  /** The critical section behind the wrapped function. */
  function Settle(c: Config, b: Breaker, t: Ticket, outcome: Outcome, now: real): Breaker {
    match outcome
    case Success => HandleSuccess(b, t)
    case Ignored => HandleSuccess(b, t)
    case Failure => HandleFailure(c, b, t, now)
    case Interrupted => ReleaseProbe(b, t)
  }

  /** The breaker object: its methods are the critical sections, field by field. */
  class CircuitBreaker {
    const failMax: nat
    const recoveryTimeout: real
    var state: CircuitState
    var failureCount: nat
    var openedAt: Option<real>
    var probeInProgress: bool
    var probeToken: Option<Token>
    var generation: nat
    var nextToken: Token

    ghost function Fields(): Breaker
      reads this
    {
      Breaker(state, failureCount, openedAt, probeInProgress, probeToken, generation, nextToken)
    }

    ghost function Settings(): Config {
      Config(failMax, recoveryTimeout)
    }

    constructor (failMax: nat, recoveryTimeout: real)
      requires failMax > 0 && recoveryTimeout > 0.0
      ensures Fields() == NEW && Settings() == Config(failMax, recoveryTimeout) && ValidConfig(Settings())
    {
      this.failMax := failMax;
      this.recoveryTimeout := recoveryTimeout;
      state, failureCount, openedAt := Closed, 0, None;
      probeInProgress, probeToken, generation, nextToken := false, None, 0, 0;
    }

    method UpdateState(now: real)
      modifies this
      ensures Fields() == CheckState(Settings(), old(Fields()), now)
    {
      if state.Open? {
        if openedAt.Some? && now - openedAt.value >= recoveryTimeout {
          state := HalfOpen;
        }
      }
    }

    method TripOpen(now: real)
      modifies this
      ensures Fields() == Trip(old(Fields()), now)
    {
      state := Open;
      openedAt := Some(now);
      probeInProgress := false;
      probeToken := None;
      generation := generation + 1;
    }

    /** Lets a call in, or rejects it with `None`. */
    method Enter(now: real) returns (ticket: Option<Ticket>)
      modifies this
      ensures (Fields(), ticket) == Admit(Settings(), old(Fields()), now)
    {
      UpdateState(now);
      if state.Open? {
        return None;
      }
      var probe := None;
      if state.HalfOpen? {
        if probeInProgress {
          return None;
        }
        probe := Some(nextToken);
        nextToken := nextToken + 1;
        probeInProgress := true;
        probeToken := probe;
      }
      ticket := Some(Ticket(generation, probe));
    }

    method OnSuccess(ticket: Ticket)
      modifies this
      ensures Fields() == HandleSuccess(old(Fields()), ticket)
    {
      if ticket.probe.Some? && state.HalfOpen? && probeToken == ticket.probe {
        state := Closed;
        failureCount := 0;
        openedAt := None;
        probeInProgress := false;
        probeToken := None;
        generation := generation + 1;
      } else if ticket.probe.None? && state.Closed? && generation == ticket.generation {
        failureCount := 0;
      }
    }

    method OnFailure(ticket: Ticket, now: real)
      modifies this
      ensures Fields() == HandleFailure(Settings(), old(Fields()), ticket, now)
    {
      var currentProbe := ticket.probe.Some? && state.HalfOpen? && probeToken == ticket.probe;
      var currentClosedCall := ticket.probe.None? && state.Closed? && generation == ticket.generation;
      if !currentProbe && !currentClosedCall {
        return;
      }
      failureCount := failureCount + 1;
      if currentClosedCall {
        if failureCount >= failMax {
          TripOpen(now);
        }
      } else {
        TripOpen(now);
      }
    }

    method OnInterrupt(ticket: Ticket)
      modifies this
      ensures Fields() == ReleaseProbe(old(Fields()), ticket)
    {
      if ticket.probe.None? {
        return;
      }
      if state.HalfOpen? && probeToken == ticket.probe {
        probeInProgress := false;
        probeToken := None;
      }
    }

    /** The end of a call, whatever its outcome. */
    method Leave(ticket: Ticket, outcome: Outcome, now: real)
      modifies this
      ensures Fields() == Settle(Settings(), old(Fields()), ticket, outcome, now)
    {
      match outcome {
        case Success => OnSuccess(ticket);
        case Ignored => OnSuccess(ticket);
        case Failure => OnFailure(ticket, now);
        case Interrupted => OnInterrupt(ticket);
      }
    }
  }

  // ---- runs: any number of calls in flight ----

  datatype Completion = Completion(ticket: Ticket, outcome: Outcome)

  datatype System = System(
    breaker: Breaker,
    calls: map<nat, Ticket>,     // in flight
    now: real,                   // the latest monotonic clock reading
    log: seq<Completion>,        // how calls ended, in order
    lastTrip: Option<real>)

  datatype Event = Start(id: nat, at: real) | Finish(id: nat, outcome: Outcome, at: real)

  const INITIAL := System(NEW, map[], 0.0, [], None)

  predicate Enabled(s: System, e: Event) {
    s.now <= e.at && match e
      case Start(id, _) => id !in s.calls
      case Finish(id, _, _) => id in s.calls
  }

  /** A disabled event changes nothing. */
  function Step(c: Config, s: System, e: Event): System {
    if !Enabled(s, e) then s else
      match e
      case Start(id, at) =>
        var (b, ticket) := Admit(c, s.breaker, at);
        s.(breaker := b, now := at, calls := if ticket.Some? then s.calls[id := ticket.value] else s.calls)
      case Finish(id, outcome, at) =>
        var t := s.calls[id];
        var b := Settle(c, s.breaker, t, outcome, at);
        s.(breaker := b, now := at, calls := s.calls - {id}, log := s.log + [Completion(t, outcome)],
           lastTrip := if b.state.Open? && b.generation != s.breaker.generation then Some(at) else s.lastTrip)
  }

  function Run(c: Config, s: System, es: seq<Event>): System {
    if es == [] then s else Step(c, Run(c, s, es[..|es| - 1]), es[|es| - 1])
  }

  /** How many of the latest counted completions of ordinary calls admitted in `generation` failed in a row. */
  function FailureRun(log: seq<Completion>, generation: nat): nat {
    if log == [] then 0 else
      var last, before := log[|log| - 1], FailureRun(log[..|log| - 1], generation);
      if last.ticket != Ticket(generation, None) then before else
        match last.outcome
        case Failure => before + 1
        case Success => 0
        case Ignored => 0
        case Interrupted => before
  }

  lemma RunOfNext(log: seq<Completion>, k: Completion, generation: nat)
    ensures FailureRun(log + [k], generation) ==
            if k.ticket != Ticket(generation, None) || k.outcome.Interrupted? then FailureRun(log, generation)
            else if k.outcome.Failure? then FailureRun(log, generation) + 1 else 0
  {
    assert (log + [k])[..|log|] == log;
  }

  lemma {:induction false} RunOfFutureGeneration(log: seq<Completion>, generation: nat)
    requires forall k :: k in log ==> k.ticket.generation < generation
    ensures FailureRun(log, generation) == 0
  {
    if log != [] {
      RunOfFutureGeneration(log[..|log| - 1], generation);
    }
  }

  // ---- the invariant ----

  predicate ProbeSlot(s: System) {
    var b := s.breaker;
    && (b.probeInProgress <==> b.probeToken.Some?)
    && (b.probeToken.Some? ==> b.state.HalfOpen? && b.probeToken.value < b.nextToken)
    && (forall i :: i in s.calls && s.calls[i].probe.Some? ==>
          b.probeToken == s.calls[i].probe && s.calls[i].generation == b.generation)
  }

  /** The slot is held by exactly one call in flight. */
  ghost predicate ProbeHeld(s: System) {
    && (s.breaker.probeToken.Some? ==> exists i :: i in s.calls && s.calls[i].probe == s.breaker.probeToken)
    && (forall i, j :: i in s.calls && j in s.calls && s.calls[i].probe.Some? && s.calls[j].probe.Some? ==> i == j)
  }

  predicate Generations(s: System) {
    && (forall i :: i in s.calls ==> s.calls[i].generation <= s.breaker.generation)
    && (forall i :: i in s.calls && s.calls[i] == Ticket(s.breaker.generation, None) ==> s.breaker.state.Closed?)
    && (forall k :: k in s.log ==> k.ticket.generation <= s.breaker.generation)
  }

  predicate Counting(c: Config, s: System) {
    s.breaker.state.Closed? ==>
      s.breaker.failureCount == FailureRun(s.log, s.breaker.generation) < c.failMax
  }

  predicate Cooldown(c: Config, s: System) {
    && (s.breaker.state.Closed? <==> s.breaker.openedAt.None?)
    && (s.lastTrip.None? ==> s.breaker.state.Closed?)
    && (s.lastTrip.Some? ==>
          && s.lastTrip.value <= s.now
          && (s.breaker.state.Open? ==> s.breaker.openedAt == s.lastTrip)
          && (!s.breaker.state.Open? ==> s.lastTrip.value + c.recoveryTimeout <= s.now))
  }

  ghost predicate Inv(c: Config, s: System) {
    ProbeSlot(s) && ProbeHeld(s) && Generations(s) && Counting(c, s) && Cooldown(c, s)
  }

  lemma StartKeepsInv(c: Config, s: System, id: nat, at: real)
    requires ValidConfig(c) && Inv(c, s)
    ensures Inv(c, Step(c, s, Start(id, at)))
  {
    var s' := Step(c, s, Start(id, at));
    if Enabled(s, Start(id, at)) {
      if s'.breaker.probeToken.Some? && s.breaker.probeToken.None? {
        assert id in s'.calls && s'.calls[id].probe == s'.breaker.probeToken;
      } else if s.breaker.probeToken.Some? {
        var i :| i in s.calls && s.calls[i].probe == s.breaker.probeToken;
        assert i in s'.calls && s'.calls[i].probe == s'.breaker.probeToken;
      }
    }
  }

  lemma FinishKeepsSlot(c: Config, s: System, id: nat, outcome: Outcome, at: real)
    requires ValidConfig(c) && Inv(c, s)
    ensures var s' := Step(c, s, Finish(id, outcome, at)); ProbeSlot(s') && ProbeHeld(s') && Cooldown(c, s')
  {
    var s' := Step(c, s, Finish(id, outcome, at));
    if Enabled(s, Finish(id, outcome, at)) && s'.breaker.probeToken.Some? {
      var i :| i in s.calls && s.calls[i].probe == s.breaker.probeToken;
      assert i in s'.calls && s'.calls[i].probe == s'.breaker.probeToken;
    }
  }

  lemma FinishKeepsCount(c: Config, s: System, id: nat, outcome: Outcome, at: real)
    requires ValidConfig(c) && Inv(c, s)
    ensures var s' := Step(c, s, Finish(id, outcome, at)); Generations(s') && Counting(c, s')
  {
    var s' := Step(c, s, Finish(id, outcome, at));
    if Enabled(s, Finish(id, outcome, at)) {
      var k := Completion(s.calls[id], outcome);
      RunOfNext(s.log, k, s.breaker.generation);
      forall x | x in s'.log ensures x.ticket.generation <= s.breaker.generation {
        assert x in s.log || x == k;
      }
      if s'.breaker.generation != s.breaker.generation {
        RunOfFutureGeneration(s'.log, s'.breaker.generation);
      }
    }
  }

  lemma {:induction false} Reachable(c: Config, es: seq<Event>)
    requires ValidConfig(c)
    ensures Inv(c, Run(c, INITIAL, es))
  {
    if es != [] {
      var s, e := Run(c, INITIAL, es[..|es| - 1]), es[|es| - 1];
      Reachable(c, es[..|es| - 1]);
      match e {
        case Start(id, at) => StartKeepsInv(c, s, id, at);
        case Finish(id, outcome, at) =>
          FinishKeepsSlot(c, s, id, outcome, at);
          FinishKeepsCount(c, s, id, outcome, at);
      }
    }
  }

  // ---- what holds over every run ----

  /** At most one probe is in flight, and only a half-open breaker has one. */
  lemma ProbeSafety(c: Config, es: seq<Event>)
    requires ValidConfig(c)
    ensures var s := Run(c, INITIAL, es);
            && (forall i, j :: i in s.calls && j in s.calls && s.calls[i].probe.Some? && s.calls[j].probe.Some? ==> i == j)
            && (forall i :: i in s.calls && s.calls[i].probe.Some? ==> s.breaker.state.HalfOpen?)
            && (!s.breaker.state.HalfOpen? ==> s.breaker.probeToken.None?)
            && (s.breaker.probeInProgress <==> s.breaker.probeToken.Some?)
            && (s.breaker.probeInProgress <==> exists i :: i in s.calls && s.calls[i].probe.Some?)
  {
    Reachable(c, es);
    var s := Run(c, INITIAL, es);
    if s.breaker.probeInProgress {
      var i :| i in s.calls && s.calls[i].probe == s.breaker.probeToken;
      assert i in s.calls && s.calls[i].probe.Some?;
    }
  }

  /** A half-open breaker is left by the probe in flight only: closed by its success, reopened by its failure. */
  lemma OnlyTheProbeLeavesHalfOpen(c: Config, es: seq<Event>, e: Event)
    requires ValidConfig(c) && Run(c, INITIAL, es).breaker.state.HalfOpen?
    ensures var s := Run(c, INITIAL, es);
            var s' := Step(c, s, e);
            !s'.breaker.state.HalfOpen? <==>
              Enabled(s, e) && e.Finish? && s.calls[e.id].probe.Some? && !e.outcome.Interrupted?
    ensures var s := Run(c, INITIAL, es);
            var s' := Step(c, s, e);
            && (s'.breaker.state.Closed? ==> e.Finish? && e.outcome in {Success, Ignored})
            && (s'.breaker.state.Open? ==> e.Finish? && e.outcome.Failure?)
  {
    Reachable(c, es);
  }

  /** The probe slot is never leaked: whichever way the probe ends, the slot is free afterwards. */
  lemma ProbeEndFreesTheSlot(c: Config, es: seq<Event>, e: Event)
    requires ValidConfig(c)
    requires var s := Run(c, INITIAL, es); Enabled(s, e) && e.Finish? && s.calls[e.id].probe.Some?
    ensures !Step(c, Run(c, INITIAL, es), e).breaker.probeInProgress
    ensures e.outcome.Interrupted? ==>
              var (b, t) := Admit(c, Step(c, Run(c, INITIAL, es), e).breaker, e.at); t.Some? && t.value.probe.Some?
  {
    Reachable(c, es);
  }

  /** No call starts within the recovery timeout after a trip. */
  lemma NoStartDuringCooldown(c: Config, es: seq<Event>, id: nat, at: real)
    requires ValidConfig(c)
    requires var s := Run(c, INITIAL, es);
             s.lastTrip.Some? && id !in s.calls && id in Step(c, s, Start(id, at)).calls
    ensures at >= Run(c, INITIAL, es).lastTrip.value + c.recoveryTimeout
  {
    Reachable(c, es);
  }

  /** The breaker lets a call that starts at `at` in. */
  predicate Admits(c: Config, s: System, at: real) {
    match s.breaker.state
    case Closed => true
    case HalfOpen => forall i :: i in s.calls ==> s.calls[i].probe.None?
    case Open => s.lastTrip.Some? && at >= s.lastTrip.value + c.recoveryTimeout
  }

  /**
   In every run a call is let in exactly if the breaker is closed, or half-open with no probe in flight, or open for
   at least the recovery timeout; and it is the probe exactly if the breaker was not closed.
   */
  lemma AdmittedExactly(c: Config, es: seq<Event>, id: nat, at: real)
    requires ValidConfig(c) && Enabled(Run(c, INITIAL, es), Start(id, at))
    ensures var s := Run(c, INITIAL, es);
            var s' := Step(c, s, Start(id, at));
            && (id in s'.calls <==> Admits(c, s, at))
            && (id in s'.calls ==> (s'.calls[id].probe.Some? <==> !s.breaker.state.Closed?))
            && (id in s'.calls && s'.calls[id].probe.Some? ==> s'.breaker.state.HalfOpen?)
            && s'.calls - {id} == s.calls
  {
    Reachable(c, es);
    var s := Run(c, INITIAL, es);
    if s.breaker.probeToken.Some? {
      var i :| i in s.calls && s.calls[i].probe == s.breaker.probeToken;
      assert s.calls[i].probe.Some?;
    }
  }

  /** From any state a run can reach, a probe that succeeds closes the breaker, and the next call is let in. */
  lemma SuccessfulProbeRecovers(c: Config, es: seq<Event>, id: nat, at: real, outcome: Outcome, end: real)
    requires ValidConfig(c) && outcome in {Success, Ignored}
    requires var s := Run(c, INITIAL, es);
             Enabled(s, Start(id, at)) && !s.breaker.state.Closed? && Admits(c, s, at) && at <= end
    ensures var s := Step(c, Step(c, Run(c, INITIAL, es), Start(id, at)), Finish(id, outcome, end));
            && s.breaker.state.Closed? && s.breaker.failureCount == 0 && s.calls == Run(c, INITIAL, es).calls
            && Admits(c, s, end)
  {
    AdmittedExactly(c, es, id, at);
    var s1, e := Step(c, Run(c, INITIAL, es), Start(id, at)), Finish(id, outcome, end);
    assert (es + [Start(id, at)])[..|es|] == es;
    assert Run(c, INITIAL, es + [Start(id, at)]) == s1;
    OnlyTheProbeLeavesHalfOpen(c, es + [Start(id, at)], e);
  }

  /** While closed, the counter is the current run of failures of this generation, below the threshold. */
  lemma CounterIsTheFailureRun(c: Config, es: seq<Event>)
    requires ValidConfig(c) && Run(c, INITIAL, es).breaker.state.Closed?
    ensures var s := Run(c, INITIAL, es);
            s.breaker.failureCount == FailureRun(s.log, s.breaker.generation) < c.failMax
  {
    Reachable(c, es);
  }

  /** A closed breaker opens at exactly the failure that completes a run of `failMax`. */
  lemma TripsExactlyAtTheThreshold(c: Config, es: seq<Event>, e: Event)
    requires ValidConfig(c) && Run(c, INITIAL, es).breaker.state.Closed?
    ensures var s := Run(c, INITIAL, es);
            var s' := Step(c, s, e);
            && (!s'.breaker.state.Closed? <==> FailureRun(s'.log, s.breaker.generation) == c.failMax)
            && (!s'.breaker.state.Closed? ==>
                  s'.breaker.state.Open? && e.Finish? && e.outcome.Failure? && s'.lastTrip == Some(e.at))
  {
    Reachable(c, es);
    TripStep(c, Run(c, INITIAL, es), e);
  }

  lemma TripStep(c: Config, s: System, e: Event)
    requires ValidConfig(c) && Counting(c, s) && s.breaker.state.Closed?
    ensures var s' := Step(c, s, e);
            && (!s'.breaker.state.Closed? <==> FailureRun(s'.log, s.breaker.generation) == c.failMax)
            && (!s'.breaker.state.Closed? ==>
                  s'.breaker.state.Open? && e.Finish? && e.outcome.Failure? && s'.lastTrip == Some(e.at))
  {
    if Enabled(s, e) {
      match e {
        case Start(_, _) =>
        case Finish(id, outcome, _) =>
          var k := Completion(s.calls[id], outcome);
          RunOfNext(s.log, k, s.breaker.generation);
          assert Step(c, s, e).log == s.log + [k];
      }
    }
  }

  /** A call admitted in an earlier generation ends without any effect on the breaker. */
  lemma StaleCallsChangeNothing(c: Config, es: seq<Event>, e: Event)
    requires ValidConfig(c)
    requires var s := Run(c, INITIAL, es);
             Enabled(s, e) && e.Finish? && s.calls[e.id].generation != s.breaker.generation
    ensures Step(c, Run(c, INITIAL, es), e).breaker == Run(c, INITIAL, es).breaker
  {
    Reachable(c, es);
  }
}
