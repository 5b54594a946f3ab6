/** Refusals are truthful: what "key reused" and "in progress" say has happened in the run. */
module DispatchRefusals {
  import opened Results
  import opened Models
  import opened ResultCodec
  import H = HotStore
  import D = DurableProtocol
  import S = DurableSafety
  import P = DispatchSafety
  import O = DispatchOutcomes
  import opened DispatchProtocol

  /** A request with this key and this fingerprint has been dispatched. */
  ghost predicate Sent(w: World, key: Identity, fingerprint: Digest) {
    exists y :: y in w.dispatches && w.dispatches[y].request.key == key && w.dispatches[y].request.fingerprint == fingerprint
  }

  /** A request with this key and another fingerprint has been dispatched. */
  ghost predicate Reused(w: World, key: Identity, fingerprint: Digest) {
    exists y :: y in w.dispatches && w.dispatches[y].request.key == key && w.dispatches[y].request.fingerprint != fingerprint
  }

  ghost predicate EntriesAreSent(w: World) {
    forall k :: k in w.hot && w.hot[k].fingerprint.Some? ==> Sent(w, k, w.hot[k].fingerprint.value)
  }

  predicate CommitsAreSent(w: World) {
    forall i :: 0 <= i < |w.durable.db.log| ==>
      var c := w.durable.db.log[i];
      c.worker in w.dispatches && w.dispatches[c.worker].request == c.request
  }

  /** This outcome of the durable execution refuses the key. */
  predicate RefusesKey(stage: D.Stage) {
    stage == D.Returned(D.KeyConflict)
  }

  predicate SaysReused(phase: Phase) {
    match phase
    case Busy(conflict) => conflict
    case BusyFound(conflict, _) => conflict
    case Publishing(outcome) => outcome.KeyConflict?
    case Answering(verdict) => verdict.RefuseConflict?
    case Answered(response) => response == Failed(KeyReused)
    case _ => false
  }

  ghost predicate Inv(w: World) {
    && EntriesAreSent(w) && CommitsAreSent(w)
    && (forall x :: x in w.durable.attempts && RefusesKey(w.durable.attempts[x].stage) ==>
          Reused(w, w.durable.attempts[x].request.key, w.durable.attempts[x].request.fingerprint))
    && (forall x :: x in w.dispatches && SaysReused(w.dispatches[x].phase) ==>
          Reused(w, w.dispatches[x].request.key, w.dispatches[x].request.fingerprint))
  }

  /** Dispatches keep their requests. */
  predicate Grows(w: World, w': World) {
    forall x :: x in w.dispatches ==> x in w'.dispatches && w'.dispatches[x].request == w.dispatches[x].request
  }

  lemma SentStays(w: World, w': World, key: Identity, fingerprint: Digest)
    requires Sent(w, key, fingerprint) && Grows(w, w')
    ensures Sent(w', key, fingerprint)
  {
    var y :| y in w.dispatches && w.dispatches[y].request.key == key && w.dispatches[y].request.fingerprint == fingerprint;
    assert y in w'.dispatches && w'.dispatches[y].request == w.dispatches[y].request;
  }

  lemma ReusedStays(w: World, w': World, key: Identity, fingerprint: Digest)
    requires Reused(w, key, fingerprint) && Grows(w, w')
    ensures Reused(w', key, fingerprint)
  {
    var y :| y in w.dispatches && w.dispatches[y].request.key == key && w.dispatches[y].request.fingerprint != fingerprint;
    assert y in w'.dispatches && w'.dispatches[y].request == w.dispatches[y].request;
  }

  lemma OtherSentIsReused(w: World, key: Identity, sent: Digest, mine: Digest)
    requires Sent(w, key, sent) && sent != mine
    ensures Reused(w, key, mine)
  {
    var y :| y in w.dispatches && w.dispatches[y].request.key == key && w.dispatches[y].request.fingerprint == sent;
    assert w.dispatches[y].request.fingerprint != mine;
  }

  /** A committed result carries the fingerprint of a request that was sent. */
  lemma CommittedWasSent(w: World, key: Identity, c: Completed)
    requires P.Inv(w) && CommitsAreSent(w) && S.Committed(w.durable.db.log, key, c)
    ensures Sent(w, key, c.fingerprint)
  {
    var log := w.durable.db.log;
    var i :| 0 <= i < |log| && log[i].request.key == key && log[i].record.Some? && log[i].record.value.completed == c;
    S.CommitAt(log, i);
    assert w.dispatches[log[i].worker].request == log[i].request;
  }

  // ---- steps keep it ----

  /** Scripts leave fingerprints that were there or that the dispatch sent. */
  lemma ScriptFingerprint(slot: H.Slot, d: Dispatch, x: Worker, script: Script, sent: Option<Completed>, now: Time)
    requires script.CompleteScript? ==> sent.Some?
    ensures var slot' := NewSlot(slot, d, x, script, sent, now);
            slot'.Some? ==> (slot.Some? && slot'.value.fingerprint == slot.value.fingerprint)
                            || slot'.value.fingerprint == Some(d.request.fingerprint)
  {
  }

  lemma ScriptKeepsSent(w: World, w': World, x: Worker, script: Script, sent: Option<Completed>)
    requires EntriesAreSent(w) && x in w.dispatches && Grows(w, w') && (script.CompleteScript? ==> sent.Some?)
    requires w'.hot == RunScript(w, x, script, sent)
    ensures EntriesAreSent(w')
  {
    var d := w.dispatches[x];
    ScriptFingerprint(H.At(w.hot, d.request.key), d, x, script, sent, w.now);
    assert Sent(w, d.request.key, d.request.fingerprint);
    forall k | k in w'.hot && w'.hot[k].fingerprint.Some? ensures Sent(w', k, w'.hot[k].fingerprint.value) {
      SentStays(w, w', k, w'.hot[k].fingerprint.value);
    }
  }

  lemma ActKeepsSent(w: World, x: Worker, a: Action)
    requires EntriesAreSent(w) && x in w.dispatches && Allowed(w, x, a)
    ensures EntriesAreSent(ActStep(w, x, a))
  {
    var w' := ActStep(w, x, a);
    assert Grows(w, w');
    if ScriptOf(a).Some? {
      ScriptKeepsSent(w, w', x, ScriptOf(a).value, NextSent(w, x, a));
    } else {
      SameEntriesStaySent(w, w');
    }
  }

  lemma SameEntriesStaySent(w: World, w': World)
    requires EntriesAreSent(w) && Grows(w, w') && forall k :: k in w'.hot ==> k in w.hot && w'.hot[k] == w.hot[k]
    ensures EntriesAreSent(w')
  {
    forall k | k in w'.hot && w'.hot[k].fingerprint.Some? ensures Sent(w', k, w'.hot[k].fingerprint.value) {
      SentStays(w, w', k, w'.hot[k].fingerprint.value);
    }
  }

  lemma SameAttemptsStayTruthful(w: World, w': World)
    requires Inv(w) && Grows(w, w') && w'.durable == w.durable
    ensures forall x :: x in w'.durable.attempts && RefusesKey(w'.durable.attempts[x].stage) ==>
              Reused(w', w'.durable.attempts[x].request.key, w'.durable.attempts[x].request.fingerprint)
  {
    forall x | x in w'.durable.attempts && RefusesKey(w'.durable.attempts[x].stage)
      ensures Reused(w', w'.durable.attempts[x].request.key, w'.durable.attempts[x].request.fingerprint)
    {
      ReusedStays(w, w', w'.durable.attempts[x].request.key, w'.durable.attempts[x].request.fingerprint);
    }
  }

  lemma CommitsStaySent(w: World, w': World, e: D.Event)
    requires CommitsAreSent(w) && P.Linked(w) && Grows(w, w') && w'.durable == D.Step(w.durable, e)
    ensures CommitsAreSent(w')
  {
  }

  /** A durable execution comes to refuse the key when it judges a record of another request. */
  lemma RefusalIsJudged(d: D.World, e: D.Event, x: Worker)
    requires x in D.Step(d, e).attempts && RefusesKey(D.Step(d, e).attempts[x].stage)
    ensures x in d.attempts && d.attempts[x].request == D.Step(d, e).attempts[x].request
    ensures RefusesKey(d.attempts[x].stage) ||
            (d.attempts[x].stage.Judging? && d.attempts[x].stage.found.Some?
             && d.attempts[x].stage.found.value.fingerprint != d.attempts[x].request.fingerprint)
  {
    if e.worker != x { S.OthersLeaveMine(d, e, x); }
  }

  lemma AttemptsStayTruthful(w: World, w': World, e: D.Event)
    requires P.Inv(w) && Inv(w) && Grows(w, w') && w'.durable == D.Step(w.durable, e)
    ensures forall x :: x in w'.durable.attempts && RefusesKey(w'.durable.attempts[x].stage) ==>
              Reused(w', w'.durable.attempts[x].request.key, w'.durable.attempts[x].request.fingerprint)
  {
    forall x | x in w'.durable.attempts && RefusesKey(w'.durable.attempts[x].stage)
      ensures Reused(w', w'.durable.attempts[x].request.key, w'.durable.attempts[x].request.fingerprint)
    {
      RefusalIsJudged(w.durable, e, x);
      var a := w.durable.attempts[x];
      if !RefusesKey(a.stage) {
        assert S.AttemptOk(w.durable.db, a);
        CommittedWasSent(w, a.request.key, a.stage.found.value);
        OtherSentIsReused(w, a.request.key, a.stage.found.value.fingerprint, a.request.fingerprint);
      }
      ReusedStays(w, w', a.request.key, a.request.fingerprint);
    }
  }

  /** A dispatch comes to refuse the key when its claim, its lookup or its durable execution says so. */
  lemma NextPhaseIsTruthful(w: World, x: Worker, a: Action)
    requires P.Inv(w) && Inv(w) && x in w.dispatches && Allowed(w, x, a) && SaysReused(NextPhase(w, x, a))
    ensures Reused(w, w.dispatches[x].request.key, w.dispatches[x].request.fingerprint)
  {
    var d := w.dispatches[x];
    if SaysReused(d.phase) {
      assert Reused(w, d.request.key, d.request.fingerprint);
    } else if a.Claim? {
      ClaimIsTruthful(w, x);
    } else if a.Decide? {
      assert P.DispatchOk(w.durable.db.log, w.now, d);
      FoundIsTruthful(w, d.request, d.phase.found.value);
    } else {
      OnlyCollectRefuses(w, x, a);
      assert P.Linked(w);
    }
  }

  lemma ClaimIsTruthful(w: World, x: Worker)
    requires P.Inv(w) && EntriesAreSent(w) && x in w.dispatches && SaysReused(ClaimAnswer(w, x))
    ensures Reused(w, w.dispatches[x].request.key, w.dispatches[x].request.fingerprint)
  {
    var r := w.dispatches[x].request;
    if r.key in w.hot {
      assert H.WellFormed(w.hot[r.key]);
      OtherSentIsReused(w, r.key, w.hot[r.key].fingerprint.value, r.fingerprint);
    }
  }

  lemma FoundIsTruthful(w: World, r: D.Request, found: Completed)
    requires P.Inv(w) && CommitsAreSent(w) && S.Committed(w.durable.db.log, r.key, found) && found.fingerprint != r.fingerprint
    ensures Reused(w, r.key, r.fingerprint)
  {
    CommittedWasSent(w, r.key, found);
    OtherSentIsReused(w, r.key, found.fingerprint, r.fingerprint);
  }

  lemma OnlyCollectRefuses(w: World, x: Worker, a: Action)
    requires x in w.dispatches && Allowed(w, x, a) && SaysReused(NextPhase(w, x, a)) && !SaysReused(w.dispatches[x].phase)
    requires !a.Claim? && !a.Decide?
    ensures x in w.durable.attempts && RefusesKey(w.durable.attempts[x].stage)
  {
  }

  lemma ActKeepsInv(w: World, x: Worker, a: Action)
    requires P.Inv(w) && Inv(w) && x in w.dispatches && Allowed(w, x, a)
    ensures Inv(ActStep(w, x, a))
  {
    var w', part := ActStep(w, x, a), DurablePart(w, x, a);
    assert Grows(w, w');
    ActKeepsSent(w, x, a);
    if part.Some? {
      CommitsStaySent(w, w', part.value);
      AttemptsStayTruthful(w, w', part.value);
    } else {
      SameAttemptsStayTruthful(w, w');
    }
    if SaysReused(NextPhase(w, x, a)) { NextPhaseIsTruthful(w, x, a); }
    PhasesStayTruthful(w, w', x);
  }

  lemma PhasesStayTruthful(w: World, w': World, x: Worker)
    requires Inv(w) && Grows(w, w')
    requires forall y :: y in w'.dispatches && y != x && SaysReused(w'.dispatches[y].phase) ==>
               y in w.dispatches && w'.dispatches[y] == w.dispatches[y]
    requires x in w'.dispatches && SaysReused(w'.dispatches[x].phase) ==>
               x in w.dispatches && Reused(w, w.dispatches[x].request.key, w.dispatches[x].request.fingerprint)
    ensures forall y :: y in w'.dispatches && SaysReused(w'.dispatches[y].phase) ==>
              Reused(w', w'.dispatches[y].request.key, w'.dispatches[y].request.fingerprint)
  {
    forall y | y in w'.dispatches && SaysReused(w'.dispatches[y].phase)
      ensures Reused(w', w'.dispatches[y].request.key, w'.dispatches[y].request.fingerprint)
    {
      ReusedStays(w, w', w.dispatches[y].request.key, w.dispatches[y].request.fingerprint);
    }
  }

  lemma EnvironmentKeepsInv(w: World, e: Event)
    requires Inv(w) && !e.Act?
    ensures Inv(Step(w, e))
  {
    var w' := Step(w, e);
    assert Grows(w, w');
    SameEntriesStaySent(w, w');
    SameAttemptsStayTruthful(w, w');
    if e.Arrive? { PhasesStayTruthful(w, w', e.worker); } else { PhasesStayTruthful(w, w', 0); }
  }

  lemma {:induction false} Reachable(es: seq<Event>)
    ensures Inv(Run(INITIAL, es))
  {
    if es != [] {
      var w, e := Run(INITIAL, es[..|es| - 1]), es[|es| - 1];
      Reachable(es[..|es| - 1]);
      P.Reachable(es[..|es| - 1]);
      if !e.Act? {
        EnvironmentKeepsInv(w, e);
      } else if e.worker in w.dispatches && Allowed(w, e.worker, e.action) {
        ActKeepsInv(w, e.worker, e.action);
      }
    }
  }

  /** In every run "key reused" is answered only if the key was sent with another request as well. */
  lemma {:induction false} KeyReusedIsTrue(es: seq<Event>, x: Worker)
    requires var w := Run(INITIAL, es); x in w.dispatches && w.dispatches[x].phase == Answered(Failed(KeyReused))
    ensures var w := Run(INITIAL, es); Reused(w, w.dispatches[x].request.key, w.dispatches[x].request.fingerprint)
  {
    Reachable(es);
  }

  // ---- in progress ----

  predicate SaysBusy(phase: Phase) {
    match phase
    case Busy(conflict) => !conflict
    case BusyFound(conflict, _) => !conflict
    case Answering(verdict) => verdict.RefuseBusy?
    case Answered(response) => response == Failed(StillRunning)
    case _ => false
  }

  /** Event `n` is the claim of `x`, and the key is leased to `y` for the same request. */
  predicate MetLease(es: seq<Event>, n: nat, x: Worker, y: Token, r: D.Request) {
    && n < |es| && es[n] == Act(x, Claim)
    && var w := Run(INITIAL, es[..n]);
       var seen := H.Visible(H.At(w.hot, r.key), w.now);
       && x in w.dispatches && w.dispatches[x].request == r && w.dispatches[x].phase.Claiming?
       && H.OwnedBy(seen, y) && seen.value.fingerprint == Some(r.fingerprint)
  }

  lemma ClaimMeetsLease(w: World, x: Worker)
    requires P.Inv(w) && x in w.dispatches && SaysBusy(ClaimAnswer(w, x))
    ensures var r := w.dispatches[x].request;
            var seen := H.Visible(H.At(w.hot, r.key), w.now);
            && seen.Some? && seen.value.leaseToken.Some? && H.OwnedBy(seen, seen.value.leaseToken.value)
            && seen.value.fingerprint == Some(r.fingerprint)
  {
    if w.dispatches[x].request.key in w.hot { assert H.WellFormed(w.hot[w.dispatches[x].request.key]); }
  }

  /** A dispatch becomes busy by its claim only, and stays the same dispatch. */
  lemma BusyComesFromClaim(w: World, e: Event, x: Worker)
    requires O.Inv(w) && x in Step(w, e).dispatches && SaysBusy(Step(w, e).dispatches[x].phase)
    ensures x in w.dispatches && w.dispatches[x].request == Step(w, e).dispatches[x].request
    ensures SaysBusy(w.dispatches[x].phase) ||
            (e == Act(x, Claim) && w.dispatches[x].phase.Claiming? && SaysBusy(ClaimAnswer(w, x)))
  {
    if e.Act? && e.worker in w.dispatches && Allowed(w, e.worker, e.action) && e.worker == x {
      BusyPhase(w, x, e.action);
    }
  }

  lemma BusyPhase(w: World, x: Worker, a: Action)
    requires O.Inv(w) && x in w.dispatches && Allowed(w, x, a) && SaysBusy(NextPhase(w, x, a))
    ensures SaysBusy(w.dispatches[x].phase) || a.Claim?
  {
  }

  /** In every run a dispatch that is told "in progress" has met, at its claim, a lease in force for its request. */
  lemma {:induction false} BusyMetALease(es: seq<Event>, x: Worker)
    requires var w := Run(INITIAL, es); x in w.dispatches && SaysBusy(w.dispatches[x].phase)
    ensures exists n: nat, y :: MetLease(es, n, x, y, Run(INITIAL, es).dispatches[x].request)
  {
    var init, e := es[..|es| - 1], es[|es| - 1];
    var w := Run(INITIAL, init);
    assert es == init + [e];
    O.Reachable(init);
    BusyComesFromClaim(w, e, x);
    if SaysBusy(w.dispatches[x].phase) {
      BusyMetALease(init, x);
      var n: nat, y :| MetLease(init, n, x, y, w.dispatches[x].request);
      MetStays(init, e, n, x, y, w.dispatches[x].request);
    } else {
      var y := JustMet(init, x);
    }
  }

  lemma MetStays(es: seq<Event>, e: Event, n: nat, x: Worker, y: Token, r: D.Request)
    requires MetLease(es, n, x, y, r)
    ensures MetLease(es + [e], n, x, y, r)
  {
    assert (es + [e])[..n] == es[..n];
  }

  lemma JustMet(es: seq<Event>, x: Worker) returns (y: Token)
    requires var w := Run(INITIAL, es); x in w.dispatches && w.dispatches[x].phase.Claiming? && SaysBusy(ClaimAnswer(w, x))
    ensures MetLease(es + [Act(x, Claim)], |es|, x, y, Run(INITIAL, es).dispatches[x].request)
  {
    var w := Run(INITIAL, es);
    P.Reachable(es);
    ClaimMeetsLease(w, x);
    y := H.Visible(H.At(w.hot, w.dispatches[x].request.key), w.now).value.leaseToken.value;
    assert (es + [Act(x, Claim)])[..|es|] == es;
  }

  /** The claim script of `x` has run before, although `x` still waits for a reply. */
  predicate ClaimedBefore(es: seq<Event>, n: nat, x: Worker)
    requires n <= |es|
  {
    exists k :: 0 <= k < n && es[k] == Act(x, Late(ClaimScript))
  }

  lemma ScriptToken(slot: H.Slot, d: Dispatch, y: Worker, script: Script, sent: Option<Completed>, now: Time, x: Token)
    requires script.CompleteScript? ==> sent.Some?
    ensures var slot' := NewSlot(slot, d, y, script, sent, now);
            slot'.Some? && slot'.value.leaseToken == Some(x) ==>
              (slot.Some? && slot.value.leaseToken == Some(x)) || (script.ClaimScript? && x == y)
  {
  }

  lemma StepToken(w: World, e: Event, key: Identity, x: Worker)
    requires key in Step(w, e).hot && Step(w, e).hot[key].leaseToken == Some(x)
    requires x in Step(w, e).dispatches && Step(w, e).dispatches[x].phase.Claiming?
    ensures (key in w.hot && w.hot[key].leaseToken == Some(x)) || e == Act(x, Late(ClaimScript))
    ensures key in w.hot && w.hot[key].leaseToken == Some(x) && e != Act(x, Late(ClaimScript)) ==>
              (x in w.dispatches ==> w.dispatches[x].phase.Claiming?)
  {
    if e.Act? && e.worker in w.dispatches && Allowed(w, e.worker, e.action) {
      ActToken(w, e.worker, e.action, key, x);
    }
  }

  lemma ActToken(w: World, y: Worker, a: Action, key: Identity, x: Token)
    requires y in w.dispatches && Allowed(w, y, a)
    requires key in ActStep(w, y, a).hot && ActStep(w, y, a).hot[key].leaseToken == Some(x)
    ensures (key in w.hot && w.hot[key].leaseToken == Some(x)) || (y == x && (a.Claim? || a == Late(ClaimScript)))
    ensures x in w.dispatches && ActStep(w, y, a).dispatches[x].phase.Claiming? ==>
              w.dispatches[x].phase.Claiming? && !(y == x && a.Claim?)
  {
    var d := w.dispatches[y];
    if ScriptOf(a).Some? {
      ScriptToken(H.At(w.hot, d.request.key), d, y, ScriptOf(a).value, NextSent(w, y, a), w.now, x);
    }
    if y == x && NextPhase(w, x, a).Claiming? { StillClaiming(w, x, a); }
  }

  lemma StillClaiming(w: World, x: Worker, a: Action)
    requires x in w.dispatches && Allowed(w, x, a) && NextPhase(w, x, a).Claiming?
    ensures w.dispatches[x].phase.Claiming? && !a.Claim?
  {
  }

  /** Tokens in the hot store are those of dispatches. */
  lemma {:induction false} TokensAreDispatches(es: seq<Event>, key: Identity)
    requires key in Run(INITIAL, es).hot && Run(INITIAL, es).hot[key].leaseToken.Some?
    ensures Run(INITIAL, es).hot[key].leaseToken.value in Run(INITIAL, es).dispatches
  {
    var init, e := es[..|es| - 1], es[|es| - 1];
    var w, x := Run(INITIAL, init), Run(INITIAL, es).hot[key].leaseToken.value;
    if key in w.hot && w.hot[key].leaseToken == Some(x) {
      TokensAreDispatches(init, key);
    } else {
      NewTokenIsMine(w, e, key, x);
    }
  }

  lemma NewTokenIsMine(w: World, e: Event, key: Identity, x: Token)
    requires key in Step(w, e).hot && Step(w, e).hot[key].leaseToken == Some(x)
    requires !(key in w.hot && w.hot[key].leaseToken == Some(x))
    ensures x in w.dispatches
  {
    if e.Act? && e.worker in w.dispatches && Allowed(w, e.worker, e.action) {
      ActToken(w, e.worker, e.action, key, x);
    }
  }

  /** A dispatch that has not got an answer to its claim finds its own lease only if its claim ran all the same. */
  lemma {:induction false} OwnLeaseMeansClaimed(es: seq<Event>, key: Identity, x: Worker)
    requires var w := Run(INITIAL, es);
             && key in w.hot && w.hot[key].leaseToken == Some(x) && x in w.dispatches && w.dispatches[x].phase.Claiming?
    ensures ClaimedBefore(es, |es|, x)
  {
    var init, e := es[..|es| - 1], es[|es| - 1];
    var w := Run(INITIAL, init);
    StepToken(w, e, key, x);
    if e == Act(x, Late(ClaimScript)) {
      assert es[|es| - 1] == e;
    } else {
      TokensAreDispatches(init, key);
      OwnLeaseMeansClaimed(init, key, x);
      var k :| 0 <= k < |init| && init[k] == Act(x, Late(ClaimScript));
      assert es[k] == init[k];
    }
  }

  /**
   In every run "in progress" is answered only if, at the claim, the key was leased for the same request: by another
   dispatch, or by this one, whose claim had run before without a reply getting through.
   */
  lemma {:induction false} InProgressIsTrue(es: seq<Event>, x: Worker)
    requires var w := Run(INITIAL, es); x in w.dispatches && w.dispatches[x].phase == Answered(Failed(StillRunning))
    ensures exists n: nat, y ::
              && MetLease(es, n, x, y, Run(INITIAL, es).dispatches[x].request)
              && y in Run(INITIAL, es[..n]).dispatches && (y == x ==> ClaimedBefore(es, n, x))
  {
    BusyMetALease(es, x);
    var r := Run(INITIAL, es).dispatches[x].request;
    var n: nat, y :| MetLease(es, n, x, y, r);
    TokensAreDispatches(es[..n], r.key);
    if y == x {
      OwnLeaseMeansClaimed(es[..n], r.key, x);
      var k :| 0 <= k < n && es[..n][k] == Act(x, Late(ClaimScript));
      assert es[k] == Act(x, Late(ClaimScript));
    }
  }

  // ---- the second case happens ----

  /** One dispatch alone, with nothing in the database. */
  function Alone(x: Worker, d: Dispatch, phase: Phase, hot: H.Keyspace): World {
    World(0, D.INITIAL, hot, map[x := d.(phase := phase)])
  }

  lemma ClaimRunsUnheard(x: Worker, d: Dispatch, hot: H.Keyspace)
    requires hot == H.Put(map[], d.request.key, H.ClaimScript(None, d.request.fingerprint, x, d.policy.leaseSeconds, 0).0)
    ensures Step(Alone(x, d, Claiming, map[]), Act(x, Late(ClaimScript))) == Alone(x, d, Claiming, hot)
  {
    var w := Alone(x, d, Claiming, map[]);
    assert H.At(w.hot, d.request.key) == None;
    assert w.dispatches[x := d.(phase := Claiming)] == w.dispatches;
  }

  lemma ClaimMeetsItself(x: Worker, d: Dispatch, hot: H.Keyspace)
    requires hot == H.Put(map[], d.request.key, H.ClaimScript(None, d.request.fingerprint, x, d.policy.leaseSeconds, 0).0)
    ensures Step(Alone(x, d, Claiming, hot), Act(x, Claim)) == Alone(x, d, Busy(false), hot)
  {
    var w := Alone(x, d, Claiming, hot);
    assert ClaimAnswer(w, x) == Busy(false);
    assert RunScript(w, x, ClaimScript, None) == hot;
    assert w.dispatches[x := d.(phase := Busy(false))] == map[x := d.(phase := Busy(false))];
  }

  lemma FindsNothing(x: Worker, d: Dispatch, hot: H.Keyspace)
    ensures Step(Alone(x, d, Busy(false), hot), Act(x, Find)) == Alone(x, d, BusyFound(false, None), hot)
  {
    assert map[x := d.(phase := Busy(false))][x := d.(phase := BusyFound(false, None))] == map[x := d.(phase := BusyFound(false, None))];
  }

  lemma DecidesBusy(x: Worker, d: Dispatch, hot: H.Keyspace)
    ensures Step(Alone(x, d, BusyFound(false, None), hot), Act(x, Decide)) == Alone(x, d, Answering(RefuseBusy), hot)
  {
    assert map[x := d.(phase := BusyFound(false, None))][x := d.(phase := Answering(RefuseBusy))] == map[x := d.(phase := Answering(RefuseBusy))];
  }

  lemma AnswersBusy(x: Worker, d: Dispatch, hot: H.Keyspace)
    ensures Step(Alone(x, d, Answering(RefuseBusy), hot), Act(x, Answer)) == Alone(x, d, Answered(Failed(StillRunning)), hot)
  {
    assert map[x := d.(phase := Answering(RefuseBusy))][x := d.(phase := Answered(Failed(StillRunning)))] == map[x := d.(phase := Answered(Failed(StillRunning)))];
  }

  lemma RunNext(es: seq<Event>, e: Event)
    ensures Run(INITIAL, es + [e]) == Step(Run(INITIAL, es), e)
  {
    assert (es + [e])[..|es|] == es;
  }

  /**
   A claim that ran without its reply getting through, and is sent again by the client, meets its own lease, so that
   the only dispatch there is answers "in progress".
   */
  lemma RepeatedClaimMeetsItsOwnLease(x: Worker, r: D.Request, p: Policy, mode: ResultMode) returns (es: seq<Event>)
    requires ValidPolicy(p) && r.retentionSeconds == p.retentionSeconds
    ensures var w := Run(INITIAL, es);
            && w.dispatches.Keys == {x} && w.dispatches[x].request == r
            && w.dispatches[x].phase == Answered(Failed(StillRunning))
  {
    var d := Dispatch(r, p, mode, Claiming, None);
    var hot := H.Put(map[], r.key, H.ClaimScript(None, r.fingerprint, x, p.leaseSeconds, 0).0);
    es := [Arrive(x, r, p, mode)];
    assert Run(INITIAL, es[..0]) == INITIAL;
    assert Run(INITIAL, es) == Alone(x, d, Claiming, map[]);
    RunNext(es, Act(x, Late(ClaimScript)));
    ClaimRunsUnheard(x, d, hot);
    es := es + [Act(x, Late(ClaimScript))];
    RunNext(es, Act(x, Claim));
    ClaimMeetsItself(x, d, hot);
    es := es + [Act(x, Claim)];
    FindsNothing(x, d, hot);
    DecidesBusy(x, d, hot);
    AnswersBusy(x, d, hot);
    RunNext(es, Act(x, Find));
    es := es + [Act(x, Find)];
    RunNext(es, Act(x, Decide));
    es := es + [Act(x, Decide)];
    RunNext(es, Act(x, Answer));
    es := es + [Act(x, Answer)];
  }
}
