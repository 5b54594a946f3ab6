/** What duplicates are answered, over whole runs of dispatches. */
module DispatchDuplicates {
  import opened Results
  import opened Models
  import opened ResultCodec
  import H = HotStore
  import D = DurableProtocol
  import S = DurableSafety
  import C = DurableClock
  import A = DurableOutcomes
  import R = DurableRaces
  import P = DispatchSafety
  import O = DispatchOutcomes
  import opened DispatchProtocol

  // ---- the durable steps of a run read one clock ----

  lemma PartReadsTheClock(w: World, e: Event)
    ensures var part := P.Part(w, e);
            part.Some? && C.Reading(part.value).Some? ==> C.Reading(part.value).value == w.now
    ensures w.now <= Step(w, e).now
  {
  }

  lemma {:induction false} ProjectionHasOneClock(es: seq<Event>)
    ensures C.OneClock(P.Project(es)) && C.ReadBy(P.Project(es), Run(INITIAL, es).now)
  {
    if es != [] {
      ProjectionHasOneClock(es[..|es| - 1]);
      PartReadsTheClock(Run(INITIAL, es[..|es| - 1]), es[|es| - 1]);
    }
  }

  // ---- losers ----

  /** A dispatch that answers with an error of its own durable execution. */
  predicate AnswersError(w: World, x: Worker, error: D.Error) {
    && x in w.dispatches && w.dispatches[x].phase == Answered(Failed(Durable(error)))
    && x in w.durable.attempts
  }

  /**
   Every error that a dispatch answers is explained by the step with which its execution came to raise it, or its
   commit is still in doubt. A lost race, in particular, surfaces only if every record of the key that was committed
   before the lookup which followed it had expired when that lookup was judged.
   */
  lemma {:induction false} ErrorsAreExplained(es: seq<Event>, x: Worker, error: D.Error)
    requires AnswersError(Run(INITIAL, es), x, error)
    ensures var a := Run(INITIAL, es).durable.attempts[x];
            if a.stage.Recorded? then error == D.Unavailable
            else exists m: nat :: R.Explains(P.Project(es), m, x, a.request, error)
  {
    O.Reachable(es);
    P.Refines(es);
    ProjectionHasOneClock(es);
    var w := Run(INITIAL, es);
    assert O.Tracks(w.durable, x, w.dispatches[x].phase);
    if !w.durable.attempts[x].stage.Recorded? {
      R.FailuresAreExplained(P.Project(es), x, w.durable.attempts[x].request, error);
    }
  }

  /**
   A dispatch answers with a version mismatch only if, after it had seen the row at another version, it looked for
   a winner and every record of its own key committed before that lookup had expired when it judged it.
   */
  lemma {:induction false} MismatchAnswersHaveNoWinner(es: seq<Event>, x: Worker)
    requires var w := Run(INITIAL, es);
             x in w.dispatches && w.dispatches[x].phase == Answered(Failed(Durable(D.VersionMismatch)))
    ensures exists q: nat, n: nat, m: nat ::
              R.MismatchTrail(P.Project(es), q, n, m, x, Run(INITIAL, es).dispatches[x].request)
  {
    O.Reachable(es);
    P.Reachable(es);
    P.Refines(es);
    ProjectionHasOneClock(es);
    var w := Run(INITIAL, es);
    assert O.Tracks(w.durable, x, w.dispatches[x].phase);
    R.MismatchMeansNoWinner(P.Project(es), x, w.dispatches[x].request);
  }

  // ---- latecomers ----

  /** `c` is the result of the commit of this key that is in force. */
  ghost predicate Wins(w: World, key: Identity, c: Completed) {
    w.now < c.expiresAt &&
    exists i :: 0 <= i < |w.durable.db.log| && w.durable.db.log[i].request.key == key && w.durable.db.log[i].record.Some?
                && w.durable.db.log[i].record.value.completed == c
  }

  lemma WinnerIsFound(w: World, key: Identity, c: Completed)
    requires P.Inv(w) && Wins(w, key, c)
    ensures D.LookUp(w.durable.db.records, key, w.now) == Some(c)
    ensures var seen := H.Visible(H.At(w.hot, key), w.now);
            seen.Some? && seen.value.result.Some? ==>
              seen.value.result.value == c || Stale(w.durable.db.log, key, seen.value.result.value, w.now, w.now)
  {
    var db := w.durable.db;
    var i :| 0 <= i < |db.log| && db.log[i].request.key == key && db.log[i].record.Some? && db.log[i].record.value.completed == c;
    S.LookUpFindsTheWinner(db, i, w.now);
    var seen := H.Visible(H.At(w.hot, key), w.now);
    if seen.Some? && seen.value.result.Some? && w.now >= seen.value.result.value.expiresAt {
      assert H.WellFormed(w.hot[key]);
    } else if seen.Some? && seen.value.result.Some? {
      var cached := seen.value.result.value;
      var k :| 0 <= k < |db.log| && db.log[k].request.key == key && db.log[k].record.Some? && db.log[k].record.value.completed == cached;
      S.LookUpFindsTheWinner(db, k, w.now);
    }
  }

  predicate ReplayOrFault(o: D.Outcome, c: Completed) {
    o == D.Replayed(c) || (o.Raised? && o.error in LOOKUP_ERRORS)
  }

  /** The durable execution of a latecomer only looks up, finds the winner and replays it. */
  predicate LateStage(stage: D.Stage, c: Completed) {
    match stage
    case Querying(cause) => cause.None?
    case Judging(cause, found) => cause.None? && found == Some(c)
    case Returned(outcome) => ReplayOrFault(outcome, c)
    case Gone => true
    case _ => false
  }

  /** `v` is a committed result of the key, and some moment between these is within a millisecond after its expiry. */
  ghost predicate Stale(log: seq<D.Commit>, key: Identity, v: Completed, from: Time, to: Time) {
    S.Committed(log, key, v) && from <= to && from < v.expiresAt + 1000 && v.expiresAt <= to
  }

  ghost predicate LateAnswer(response: Response, c: Completed, log: seq<D.Commit>, key: Identity, from: Time, to: Time) {
    match response
    case Success(answer, _) => answer == c
    case Failed(Durable(e)) => e in LOOKUP_ERRORS
    case Failed(Unavailable) => exists v :: Stale(log, key, v, from, to)
    case Failed(KeyReused) => false
    case Failed(StillRunning) => false
  }

  ghost predicate LatePhase(phase: Phase, c: Completed, log: seq<D.Commit>, key: Identity, from: Time, to: Time) {
    match phase
    case Claiming => true
    case Leased(_) => true
    case Unleased => true
    case Busy(_) => true
    case BusyFound(_, found) => found == Some(c)
    case Publishing(outcome) => ReplayOrFault(outcome, c)
    case Abandoning => true
    case Answering(verdict) => verdict.Give? && (verdict.completed == c || Stale(log, key, verdict.completed, from, to))
    case Answered(response) => LateAnswer(response, c, log, key, from, to)
    case Dead => true
  }

  /** The durable execution of a latecomer has no effect. */
  predicate LateDurable(d: D.World, x: Worker, r: D.Request, c: Completed) {
    && A.CommitsBy(d.db.log, x) == 0
    && (x in d.attempts ==> d.attempts[x].request == r && LateStage(d.attempts[x].stage, c))
  }

  /** A dispatch of the winner's request that arrived, at time `from`, after the winner's commit. */
  ghost predicate Late(w: World, x: Worker, c: Completed, from: Time) {
    && from <= w.now
    && x in w.dispatches && w.dispatches[x].request.fingerprint == c.fingerprint
    && LatePhase(w.dispatches[x].phase, c, w.durable.db.log, w.dispatches[x].request.key, from, w.now)
    && LateDurable(w.durable, x, w.dispatches[x].request, c)
  }

  lemma StaleStays(log: seq<D.Commit>, log': seq<D.Commit>, key: Identity, v: Completed, from: Time, to: Time, to': Time)
    requires Stale(log, key, v, from, to) && P.Extends(log, log') && to <= to'
    ensures Stale(log', key, v, from, to')
  {
    P.CommittedExtends(log, log', key, v);
  }

  lemma LatePhaseStays(p: Phase, c: Completed, log: seq<D.Commit>, log': seq<D.Commit>, key: Identity, from: Time, to: Time, to': Time)
    requires LatePhase(p, c, log, key, from, to) && P.Extends(log, log') && to <= to'
    ensures LatePhase(p, c, log', key, from, to')
  {
    if p.Answering? && p.verdict.completed != c {
      StaleStays(log, log', key, p.verdict.completed, from, to, to');
    }
    if p == Answered(Failed(Unavailable)) {
      var v :| Stale(log, key, v, from, to);
      StaleStays(log, log', key, v, from, to, to');
    }
  }

  /** The durable steps of a latecomer. */
  lemma LateStep(d: D.World, e: D.Event, x: Worker, r: D.Request, c: Completed, now: Time)
    requires LateDurable(d, x, r, c) && e.worker == x
    requires (e.Arrive? ==> e.request == r) && (C.Reading(e).Some? ==> C.Reading(e).value == now)
    requires r.fingerprint == c.fingerprint && now < c.expiresAt && D.LookUp(d.db.records, r.key, now) == Some(c)
    ensures LateDurable(D.Step(d, e), x, r, c)
  {
    if D.Enabled(d, e) {
      assert !D.Publishes(e);
    }
  }

  /** The durable steps of others. */
  lemma LateUndisturbed(d: D.World, e: D.Event, x: Worker, r: D.Request, c: Completed)
    requires LateDurable(d, x, r, c) && e.worker != x
    ensures LateDurable(D.Step(d, e), x, r, c)
  {
    S.OthersLeaveMine(d, e, x);
    CommitsByStays(d, e, x);
  }

  lemma CommitsByStays(d: D.World, e: D.Event, x: Worker)
    requires e.worker != x
    ensures A.CommitsBy(D.Step(d, e).db.log, x) == A.CommitsBy(d.db.log, x)
  {
    if D.Enabled(d, e) && D.Publishes(e) {
      var commit := D.Step(d, e).db.log[|d.db.log|];
      assert D.Step(d, e).db.log == d.db.log + [commit];
      A.CountNext(d.db.log, commit, x);
    }
  }

  lemma LateNextPhase(w: World, x: Worker, a: Action, c: Completed, from: Time)
    requires P.Inv(w) && Late(w, x, c, from) && Wins(w, w.dispatches[x].request.key, c) && Allowed(w, x, a)
    ensures LatePhase(NextPhase(w, x, a), c, w.durable.db.log, w.dispatches[x].request.key, from, w.now)
  {
    if a.Claim? {
      LateClaim(w, x, c, from);
    } else if a.Find? || a.Decide? {
      LateFind(w, x, a, c, from);
    } else if a.Answer? {
      LateReply(w, x, a, c, from);
    }
  }

  lemma LateFind(w: World, x: Worker, a: Action, c: Completed, from: Time)
    requires P.Inv(w) && Late(w, x, c, from) && Wins(w, w.dispatches[x].request.key, c) && Allowed(w, x, a)
    requires a.Find? || a.Decide?
    ensures LatePhase(NextPhase(w, x, a), c, w.durable.db.log, w.dispatches[x].request.key, from, w.now)
  {
    WinnerIsFound(w, w.dispatches[x].request.key, c);
  }

  lemma LateReply(w: World, x: Worker, a: Action, c: Completed, from: Time)
    requires Late(w, x, c, from) && w.now < c.expiresAt && Allowed(w, x, a) && a.Answer?
    ensures LatePhase(NextPhase(w, x, a), c, w.durable.db.log, w.dispatches[x].request.key, from, w.now)
  {
    var v := w.dispatches[x].phase.verdict.completed;
    assert v == c || Stale(w.durable.db.log, w.dispatches[x].request.key, v, from, w.now);
  }

  lemma LateClaim(w: World, x: Worker, c: Completed, from: Time)
    requires P.Inv(w) && x in w.dispatches && Wins(w, w.dispatches[x].request.key, c) && from <= w.now
    ensures LatePhase(ClaimAnswer(w, x), c, w.durable.db.log, w.dispatches[x].request.key, from, w.now)
  {
    var d := w.dispatches[x];
    WinnerIsFound(w, d.request.key, c);
    if d.request.key in w.hot { assert H.WellFormed(w.hot[d.request.key]); }
  }

  lemma LateDurablePart(w: World, y: Worker, a: Action, x: Worker, c: Completed, from: Time)
    requires P.Inv(w) && Late(w, x, c, from) && Wins(w, w.dispatches[x].request.key, c)
    requires y in w.dispatches && Allowed(w, y, a)
    ensures LateDurable(ActStep(w, y, a).durable, x, w.dispatches[x].request, c)
  {
    var part := DurablePart(w, y, a);
    O.PartIsMine(w, y, a);
    if part.Some? {
      if x == y {
        WinnerIsFound(w, w.dispatches[x].request.key, c);
        PartReadsTheClock(w, Act(y, a));
        PartArrivesWithMine(w, y, a);
        LateStep(w.durable, part.value, x, w.dispatches[x].request, c, w.now);
      } else {
        LateUndisturbed(w.durable, part.value, x, w.dispatches[x].request, c);
      }
    }
  }

  lemma LateActs(w: World, y: Worker, a: Action, x: Worker, c: Completed, from: Time)
    requires P.Inv(w) && Late(w, x, c, from) && Wins(w, w.dispatches[x].request.key, c)
    requires y in w.dispatches && Allowed(w, y, a)
    ensures Late(ActStep(w, y, a), x, c, from)
  {
    var w', key := ActStep(w, y, a), w.dispatches[x].request.key;
    LateDurablePart(w, y, a, x, c, from);
    if DurablePart(w, y, a).Some? { P.DurableStepExtends(w.durable, DurablePart(w, y, a).value); }
    if x == y {
      LateNextPhase(w, x, a, c, from);
    }
    LatePhaseStays(w'.dispatches[x].phase, c, w.durable.db.log, w'.durable.db.log, key, from, w.now, w.now);
  }

  lemma PartArrivesWithMine(w: World, x: Worker, a: Action)
    requires x in w.dispatches && Allowed(w, x, a)
    ensures var part := DurablePart(w, x, a);
            part.Some? && part.value.Arrive? ==> part.value.request == w.dispatches[x].request
  {
  }

  lemma LateStays(w: World, e: Event, x: Worker, c: Completed, from: Time)
    requires P.Inv(w) && Late(w, x, c, from) && Wins(w, w.dispatches[x].request.key, c)
    requires Step(w, e).now < c.expiresAt
    ensures Late(Step(w, e), x, c, from)
  {
    if e.Act? && e.worker in w.dispatches && Allowed(w, e.worker, e.action) {
      LateActs(w, e.worker, e.action, x, c, from);
    } else {
      TimePasses(w, e);
      LatePhaseStays(w.dispatches[x].phase, c, w.durable.db.log, w.durable.db.log, w.dispatches[x].request.key, from, w.now, Step(w, e).now);
    }
  }

  lemma TimePasses(w: World, e: Event)
    ensures w.now <= Step(w, e).now
    ensures P.Extends(w.durable.db.log, Step(w, e).durable.db.log)
  {
    P.StepContainsPart(w, e);
    var part := P.Part(w, e);
    if part.Some? { P.DurableStepExtends(w.durable, part.value); }
  }

  lemma WinsStays(w: World, e: Event, key: Identity, c: Completed)
    requires Wins(w, key, c) && Step(w, e).now < c.expiresAt
    ensures Wins(Step(w, e), key, c)
  {
    TimePasses(w, e);
    var log, log' := w.durable.db.log, Step(w, e).durable.db.log;
    var i :| 0 <= i < |log| && log[i].request.key == key && log[i].record.Some? && log[i].record.value.completed == c;
    assert log'[..|log|][i] == log'[i];
  }

  /** From its arrival on, in a run that ends while the winner's record lives. */
  lemma {:induction false} LateRun(before: seq<Event>, after: seq<Event>, x: Worker, key: Identity, c: Completed, from: Time)
    requires var w := Run(INITIAL, before); Late(w, x, c, from) && w.dispatches[x].request.key == key && Wins(w, key, c)
    requires Run(INITIAL, before + after).now < c.expiresAt
    ensures var w := Run(INITIAL, before + after); Late(w, x, c, from) && w.dispatches[x].request.key == key && Wins(w, key, c)
  {
    if after == [] {
      assert before + after == before;
    } else {
      var init, e := after[..|after| - 1], after[|after| - 1];
      assert (before + after)[..|before + after| - 1] == before + init;
      var w := Run(INITIAL, before + init);
      TimePasses(w, e);
      LateRun(before, init, x, key, c, from);
      P.Reachable(before + init);
      LateStays(w, e, x, c, from);
      WinsStays(w, e, key, c);
      DispatchStays(w, e, x);
    }
  }

  lemma DispatchStays(w: World, e: Event, x: Worker)
    requires x in w.dispatches
    ensures x in Step(w, e).dispatches && Step(w, e).dispatches[x].request == w.dispatches[x].request
  {
  }

  /**
   A duplicate that arrives after a commit of its key, with the same fingerprint, and is answered while that
   commit's record lives is answered with that record. The only exceptions are failures: its lookup fails, or, between
   its arrival and its answer, it met a cached result of the key that had expired less than a millisecond before. It is
   never told that the key was reused, that the request is still running, or that the version does not match; and it
   has no effect of its own.
   */
  lemma {:induction false} DuplicateAnswersWithTheWinner(before: seq<Event>, arrival: Event, after: seq<Event>, i: nat)
    requires arrival.Arrive? && arrival.worker !in Run(INITIAL, before).dispatches
    requires arrival.worker in Run(INITIAL, before + [arrival]).dispatches
    requires var log := Run(INITIAL, before).durable.db.log;
             i < |log| && log[i].request.key == arrival.request.key && log[i].request.fingerprint == arrival.request.fingerprint
    requires var w := Run(INITIAL, before + [arrival] + after);
             && S.Unexpired(Run(INITIAL, before).durable.db.log[i], w.now)
             && arrival.worker in w.dispatches && w.dispatches[arrival.worker].phase.Answered?
    ensures var w := Run(INITIAL, before + [arrival] + after);
            var c := Run(INITIAL, before).durable.db.log[i].record.value.completed;
            && LateAnswer(w.dispatches[arrival.worker].phase.response, c, w.durable.db.log, arrival.request.key,
                          Run(INITIAL, before).now, w.now)
            && O.Effects(w, arrival.worker) == 0
  {
    var x, key := arrival.worker, arrival.request.key;
    var c := Run(INITIAL, before).durable.db.log[i].record.value.completed;
    NowGrows(before + [arrival], after);
    LateArrival(before, arrival, i);
    LateRun(before + [arrival], after, x, key, c, Run(INITIAL, before).now);
  }

  lemma LateArrival(before: seq<Event>, arrival: Event, i: nat)
    requires arrival.Arrive? && arrival.worker !in Run(INITIAL, before).dispatches
    requires arrival.worker in Run(INITIAL, before + [arrival]).dispatches
    requires var log := Run(INITIAL, before).durable.db.log;
             i < |log| && log[i].request.key == arrival.request.key && log[i].request.fingerprint == arrival.request.fingerprint
    requires S.Unexpired(Run(INITIAL, before).durable.db.log[i], Run(INITIAL, before + [arrival]).now)
    ensures var w := Run(INITIAL, before + [arrival]);
            var c := Run(INITIAL, before).durable.db.log[i].record.value.completed;
            && Late(w, arrival.worker, c, Run(INITIAL, before).now)
            && w.dispatches[arrival.worker].request.key == arrival.request.key && Wins(w, arrival.request.key, c)
  {
    var w, log := Run(INITIAL, before), Run(INITIAL, before).durable.db.log;
    P.Reachable(before);
    S.CommitAt(log, i);
    assert (before + [arrival])[..|before|] == before;
    TimePasses(w, arrival);
    NothingBeforeArrival(before, arrival.worker);
    assert Wins(w, arrival.request.key, log[i].record.value.completed);
    WinsStays(w, arrival, arrival.request.key, log[i].record.value.completed);
  }

  lemma NothingBeforeArrival(es: seq<Event>, x: Worker)
    requires x !in Run(INITIAL, es).dispatches
    ensures x !in Run(INITIAL, es).durable.attempts && O.Effects(Run(INITIAL, es), x) == 0
  {
    P.Reachable(es);
    P.Refines(es);
    A.OutcomeTellsTheCommit(P.Project(es), x);
  }

  lemma {:induction false} NowGrows(before: seq<Event>, after: seq<Event>)
    ensures Run(INITIAL, before).now <= Run(INITIAL, before + after).now
  {
    if after == [] {
      assert before + after == before;
    } else {
      var init, e := after[..|after| - 1], after[|after| - 1];
      NowGrows(before, init);
      LastStep(before, init, e);
      assert after == init + [e];
      TimePasses(Run(INITIAL, before + init), e);
    }
  }

  lemma LastStep(before: seq<Event>, init: seq<Event>, e: Event)
    ensures Run(INITIAL, before + (init + [e])) == Step(Run(INITIAL, before + init), e)
  {
    var es := before + (init + [e]);
    assert es[..|es| - 1] == before + init;
  }
}
