/** Mixed result modes under one key: what the dispatches of a run deliver. */
module ResultModes {
  import opened Results
  import opened Models
  import opened ResultCodec
  import D = DurableProtocol
  import S = DurableSafety
  import P = DispatchSafety
  import opened DispatchProtocol

  /** A stored result that a handler running in `mode` produced under this codec. */
  ghost predicate Produced<T(!new)>(c: Codec<T>, mode: ResultMode, stored: StoredResult) {
    exists x :: c.accepts(x) && Store(mode, c, x) == Ok(stored)
  }

  /** The event finishes the handler of a dispatch under this key. */
  predicate FinishFor(w: World, e: Event, key: Identity) {
    && e.Act? && e.action.DurableRun? && e.action.step.Finish?
    && e.worker in w.dispatches && w.dispatches[e.worker].request.key == key
  }

  /** A key names an operation: its handlers return what `Store` gave them under one codec. Other keys use any codec. */
  ghost predicate HandlersUse<T(!new)>(c: Codec<T>, es: seq<Event>, key: Identity) {
    forall k :: 0 <= k < |es| && FinishFor(Run(INITIAL, es[..k]), es[k], key) ==> FromHandler(c, es[k].action.step.result)
  }

  ghost predicate FromHandler<T(!new)>(c: Codec<T>, stored: StoredResult) {
    Produced(c, Replayable, stored) || Produced(c, CompletionOnly, stored)
  }

  ghost predicate Origin<T(!new)>(c: Codec<T>, w: World, x: Worker, stored: StoredResult) {
    x in w.dispatches && Produced(c, w.dispatches[x].mode, stored)
  }

  function PendingResult(stage: D.Stage): Option<StoredResult> {
    match stage
    case Encoded(_, completed) => Some(completed.result)
    case Stamped(_, record) => Some(record.completed.result)
    case Recorded(_, record) => Some(record.completed.result)
    case _ => None
  }

  /** What attempts under this key hold or have committed was produced in the mode of their dispatch. */
  ghost predicate ModesOk<T(!new)>(c: Codec<T>, w: World, key: Identity) {
    && (forall x :: x in w.durable.attempts && w.durable.attempts[x].request.key == key
                    && PendingResult(w.durable.attempts[x].stage).Some? ==>
          Origin(c, w, x, PendingResult(w.durable.attempts[x].stage).value))
    && (forall i :: 0 <= i < |w.durable.db.log| && w.durable.db.log[i].request.key == key && w.durable.db.log[i].record.Some? ==>
          Origin(c, w, w.durable.db.log[i].worker, w.durable.db.log[i].record.value.completed.result))
  }

  /** Dispatches keep their mode. */
  lemma ModesStay(w: World, e: Event)
    ensures forall x :: x in w.dispatches ==> x in Step(w, e).dispatches && Step(w, e).dispatches[x].mode == w.dispatches[x].mode
  {
  }

  lemma FinishHasOrigin<T(!new)>(c: Codec<T>, w: World, x: Worker, step: DurableStep)
    requires Lawful(c) && x in w.dispatches && Allowed(w, x, DurableRun(step)) && step.Finish?
    requires FromHandler(c, step.result)
    ensures Origin(c, w, x, step.result)
  {
    if Produced(c, Replayable, step.result) {
      var v :| c.accepts(v) && Store(Replayable, c, v) == Ok(step.result);
      StoreThenDeliver(c, v, Replayable, Replayable);
    } else {
      var v :| c.accepts(v) && Store(CompletionOnly, c, v) == Ok(step.result);
      StoreThenDeliver(c, v, CompletionOnly, Replayable);
    }
  }

  /** A durable step leaves the results that others hold, and gives its own attempt none but a finished one's. */
  lemma ResultsComeFromFinish(d: D.World, e: D.Event, y: Worker)
    requires y in D.Step(d, e).attempts && PendingResult(D.Step(d, e).attempts[y].stage).Some?
    ensures var r := PendingResult(D.Step(d, e).attempts[y].stage);
            (y in d.attempts && r == PendingResult(d.attempts[y].stage)) || (e.Finish? && e.worker == y && r == Some(e.result))
  {
    if e.worker != y { S.OthersLeaveMine(d, e, y); }
  }

  lemma CommitsComeFromPending(d: D.World, e: D.Event, i: nat)
    requires i < |D.Step(d, e).db.log| && D.Step(d, e).db.log[i].record.Some?
    ensures var c := D.Step(d, e).db.log[i];
            (i < |d.db.log| && c == d.db.log[i]) ||
            (c.worker in d.attempts && c.request == d.attempts[c.worker].request
             && PendingResult(d.attempts[c.worker].stage) == Some(c.record.value.completed.result))
  {
  }

  /** Attempts that hold a result keep their request. */
  lemma RequestsStay(d: D.World, e: D.Event, y: Worker)
    requires y in d.attempts
    ensures y in D.Step(d, e).attempts && D.Step(d, e).attempts[y].request == d.attempts[y].request
  {
    if e.worker != y { S.OthersLeaveMine(d, e, y); }
  }

  lemma DurableStepKeepsModes<T(!new)>(c: Codec<T>, w: World, w': World, e: D.Event, key: Identity)
    requires ModesOk(c, w, key) && w'.durable == D.Step(w.durable, e)
    requires forall x :: x in w.dispatches ==> x in w'.dispatches && w'.dispatches[x].mode == w.dispatches[x].mode
    requires e.Finish? && e.worker in w.durable.attempts && w.durable.attempts[e.worker].request.key == key ==>
               Origin(c, w, e.worker, e.result)
    ensures ModesOk(c, w', key)
  {
    var d' := w'.durable;
    forall y | y in d'.attempts && d'.attempts[y].request.key == key && PendingResult(d'.attempts[y].stage).Some?
      ensures Origin(c, w', y, PendingResult(d'.attempts[y].stage).value)
    {
      ResultsComeFromFinish(w.durable, e, y);
      if y in w.durable.attempts { RequestsStay(w.durable, e, y); }
    }
    forall i | 0 <= i < |d'.db.log| && d'.db.log[i].request.key == key && d'.db.log[i].record.Some?
      ensures Origin(c, w', d'.db.log[i].worker, d'.db.log[i].record.value.completed.result)
    {
      CommitsComeFromPending(w.durable, e, i);
    }
  }

  /** A finish under this key carries what its handler returned. */
  lemma PartsHaveOrigin<T(!new)>(c: Codec<T>, w: World, e: Event, key: Identity)
    requires Lawful(c) && P.Linked(w) && (FinishFor(w, e, key) ==> FromHandler(c, e.action.step.result))
    ensures var part := P.Part(w, e);
            part.Some? && part.value.Finish? && part.value.worker in w.durable.attempts
            && w.durable.attempts[part.value.worker].request.key == key ==>
              Origin(c, w, part.value.worker, part.value.result)
  {
    var part := P.Part(w, e);
    if part.Some? && part.value.Finish? && FinishFor(w, e, key) {
      FinishHasOrigin(c, w, e.worker, e.action.step);
    }
  }

  lemma StepKeepsModes<T(!new)>(c: Codec<T>, w: World, e: Event, key: Identity)
    requires Lawful(c) && P.Linked(w) && ModesOk(c, w, key) && (FinishFor(w, e, key) ==> FromHandler(c, e.action.step.result))
    ensures ModesOk(c, Step(w, e), key)
  {
    ModesStay(w, e);
    P.StepContainsPart(w, e);
    PartsHaveOrigin(c, w, e, key);
    var part := P.Part(w, e);
    if part.Some? {
      DurableStepKeepsModes(c, w, Step(w, e), part.value, key);
    } else {
      assert Step(w, e).durable == w.durable;
    }
  }

  lemma {:induction false} ModesReachable<T(!new)>(c: Codec<T>, es: seq<Event>, key: Identity)
    requires Lawful(c) && HandlersUse(c, es, key)
    ensures ModesOk(c, Run(INITIAL, es), key)
  {
    if es != [] {
      var before, e := es[..|es| - 1], es[|es| - 1];
      assert forall k :: 0 <= k < |before| ==> before[..k] == es[..k] && before[k] == es[k];
      ModesReachable(c, before, key);
      P.Reachable(before);
      assert FinishFor(Run(INITIAL, es[..|es| - 1]), es[|es| - 1], key) ==> FromHandler(c, e.action.step.result);
      StepKeepsModes(c, Run(INITIAL, before), e, key);
    }
  }

  /**
   What all normal answers of one window deliver, decided by the one dispatch that committed: dispatches that
   want no value get none; of those that want one, either all get the value its handler returned, or, if it
   stored a marker only, all are told that the result was not stored. Commands under other keys may have results of
   any other type.
   */
  lemma DeliveriesAgree<T(!new)>(c: Codec<T>, es: seq<Event>, i: nat) returns (value: T)
    requires i < |Run(INITIAL, es).durable.db.log|
    requires Lawful(c) && HandlersUse(c, es, Run(INITIAL, es).durable.db.log[i].request.key)
    ensures var w := Run(INITIAL, es);
            w.durable.db.log[i].worker in w.dispatches
    ensures var w := Run(INITIAL, es);
            var commit := w.durable.db.log[i];
            forall x :: x in w.dispatches && w.dispatches[x].phase.Answered? && w.dispatches[x].phase.response.Success?
                        && w.dispatches[x].request.key == commit.request.key
                        && S.InWindow(commit, w.dispatches[x].phase.response.at) ==>
              Deliver(w.dispatches[x].mode, c, w.dispatches[x].phase.response.completed.result) ==
              if w.dispatches[x].mode.CompletionOnly? then Ok(None)
              else if w.dispatches[commit.worker].mode.CompletionOnly? then Err(ResultNotStored)
              else Ok(Some(value))
  {
    var w := Run(INITIAL, es);
    var commit := w.durable.db.log[i];
    P.Reachable(es);
    S.CommitAt(w.durable.db.log, i);
    ModesReachable(c, es, commit.request.key);
    assert Origin(c, w, commit.worker, commit.record.value.completed.result);
    var mode, stored := w.dispatches[commit.worker].mode, commit.record.value.completed.result;
    value :| c.accepts(value) && Store(mode, c, value) == Ok(stored);
    forall x | x in w.dispatches && w.dispatches[x].phase.Answered? && w.dispatches[x].phase.response.Success?
               && w.dispatches[x].request.key == commit.request.key
               && S.InWindow(commit, w.dispatches[x].phase.response.at)
      ensures Deliver(w.dispatches[x].mode, c, w.dispatches[x].phase.response.completed.result) ==
              if w.dispatches[x].mode.CompletionOnly? then Ok(None)
              else if mode.CompletionOnly? then Err(ResultNotStored)
              else Ok(Some(value))
    {
      P.AnswersAgree(es, x, i);
      StoreThenDeliver(c, value, mode, w.dispatches[x].mode);
    }
  }
}
