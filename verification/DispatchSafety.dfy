/** What holds over every run of dispatches: coherence of the hot store and agreement of the answers. */
module DispatchSafety {
  import opened Results
  import opened Models
  import H = HotStore
  import D = DurableProtocol
  import S = DurableSafety
  import C = DurableClock
  import opened DispatchProtocol

  // ---- the durable protocol inside ----

  /** The durable step inside an event, if there is one. */
  function Part(w: World, e: Event): Option<D.Event> {
    if e.Act? && e.worker in w.dispatches && Allowed(w, e.worker, e.action)
    then DurablePart(w, e.worker, e.action) else None
  }

  /** The durable steps of a run of dispatches. */
  function Project(es: seq<Event>): seq<D.Event> {
    if es == [] then [] else
      var before, part := Project(es[..|es| - 1]), Part(Run(INITIAL, es[..|es| - 1]), es[|es| - 1]);
      if part.Some? then before + [part.value] else before
  }

  lemma StepContainsPart(w: World, e: Event)
    ensures Step(w, e).durable == DurableStepped(w.durable, Part(w, e))
  {
  }

  /** Every run of dispatches is, on the database, a run of the durable protocol. */
  lemma {:induction false} Refines(es: seq<Event>)
    ensures Run(INITIAL, es).durable == D.Run(D.INITIAL, Project(es))
  {
    if es != [] {
      var init, e := es[..|es| - 1], es[|es| - 1];
      Refines(init);
      StepContainsPart(Run(INITIAL, init), e);
      var before, part := Project(init), Part(Run(INITIAL, init), e);
      if part.Some? {
        assert (before + [part.value])[..|before|] == before;
      }
    }
  }

  // ---- the invariant ----

  ghost predicate Known(log: seq<D.Commit>, r: D.Request, c: Completed) {
    S.Committed(log, r.key, c) && c.fingerprint == r.fingerprint
  }

  /** `c` is the result of the commit of this key whose window contains `t`. */
  ghost predicate InForce(log: seq<D.Commit>, key: Identity, c: Completed, t: Time) {
    exists i :: 0 <= i < |log| && log[i].request.key == key && S.InWindow(log[i], t) && log[i].record.value.completed == c
  }

  ghost predicate DispatchOk(log: seq<D.Commit>, now: Time, d: Dispatch) {
    var r := d.request;
    && ValidPolicy(d.policy)
    && (d.sent.Some? ==> Known(log, r, d.sent.value))
    && match d.phase
       case BusyFound(_, found) => found.Some? ==> S.Committed(log, r.key, found.value)
       case Publishing(outcome) => CarriesResult(outcome) ==> Known(log, r, outcome.completed)
       case Answering(verdict) => verdict.Give? ==> Known(log, r, verdict.completed)
       case Answered(response) =>
         response.Success? ==>
           && response.at <= now && response.completed.fingerprint == r.fingerprint
           && InForce(log, r.key, response.completed, response.at)
       case _ => true
  }

  ghost predicate HotOk(log: seq<D.Commit>, hot: H.Keyspace) {
    forall k :: k in hot ==>
      && H.WellFormed(hot[k])
      && (hot[k].result.Some? ==> S.Committed(log, k, hot[k].result.value))
  }

  predicate Linked(w: World) {
    forall x :: x in w.durable.attempts ==> x in w.dispatches && w.dispatches[x].request == w.durable.attempts[x].request
  }

  ghost predicate Inv(w: World) {
    && S.Inv(w.durable)
    && C.StampsPast(w.durable, w.now)
    && HotOk(w.durable.db.log, w.hot)
    && Linked(w)
    && (forall x :: x in w.dispatches ==> DispatchOk(w.durable.db.log, w.now, w.dispatches[x]))
  }

  // ---- the log only grows ----

  predicate Extends(log: seq<D.Commit>, log': seq<D.Commit>) {
    |log| <= |log'| && log'[..|log|] == log
  }

  lemma DurableStepExtends(d: D.World, e: D.Event)
    ensures Extends(d.db.log, D.Step(d, e).db.log)
  {
  }

  lemma CommittedExtends(log: seq<D.Commit>, log': seq<D.Commit>, key: Identity, c: Completed)
    requires Extends(log, log') && S.Committed(log, key, c)
    ensures S.Committed(log', key, c)
  {
    var i :| 0 <= i < |log| && log[i].request.key == key && log[i].record.Some? && log[i].record.value.completed == c;
    assert log'[..|log|][i] == log'[i];
  }

  lemma InForceExtends(log: seq<D.Commit>, log': seq<D.Commit>, key: Identity, c: Completed, t: Time)
    requires Extends(log, log') && InForce(log, key, c, t)
    ensures InForce(log', key, c, t)
  {
    var i :| 0 <= i < |log| && log[i].request.key == key && S.InWindow(log[i], t) && log[i].record.value.completed == c;
    assert log'[..|log|][i] == log'[i];
  }

  lemma DispatchOkExtends(log: seq<D.Commit>, now: Time, log': seq<D.Commit>, now': Time, d: Dispatch)
    requires Extends(log, log') && now <= now' && DispatchOk(log, now, d)
    ensures DispatchOk(log', now', d)
  {
    var key := d.request.key;
    if d.sent.Some? { CommittedExtends(log, log', key, d.sent.value); }
    match d.phase {
      case BusyFound(_, found) => if found.Some? { CommittedExtends(log, log', key, found.value); }
      case Publishing(outcome) => if CarriesResult(outcome) { CommittedExtends(log, log', key, outcome.completed); }
      case Answering(verdict) => if verdict.Give? { CommittedExtends(log, log', key, verdict.completed); }
      case Answered(response) =>
        if response.Success? { InForceExtends(log, log', key, response.completed, response.at); }
      case _ =>
    }
  }

  lemma HotOkExtends(log: seq<D.Commit>, log': seq<D.Commit>, hot: H.Keyspace)
    requires Extends(log, log') && HotOk(log, hot)
    ensures HotOk(log', hot)
  {
    forall k | k in hot && hot[k].result.Some? ensures S.Committed(log', k, hot[k].result.value) {
      CommittedExtends(log, log', k, hot[k].result.value);
    }
  }

  // ---- steps keep the invariant ----

  ghost predicate SlotOk(log: seq<D.Commit>, key: Identity, slot: H.Slot) {
    slot.Some? ==> H.WellFormed(slot.value) && (slot.value.result.Some? ==> S.Committed(log, key, slot.value.result.value))
  }

  lemma NewSlotOk(log: seq<D.Commit>, slot: H.Slot, d: Dispatch, x: Worker, script: Script, sent: Option<Completed>, now: Time)
    requires SlotOk(log, d.request.key, slot) && ValidPolicy(d.policy)
    requires script.CompleteScript? ==> sent.Some? && Known(log, d.request, sent.value)
    ensures SlotOk(log, d.request.key, NewSlot(slot, d, x, script, sent, now))
  {
  }

  /** A script leaves only well-formed entries, and results that were committed. */
  lemma ScriptKeepsHot(w: World, x: Worker, script: Script, sent: Option<Completed>)
    requires Inv(w) && x in w.dispatches
    requires script.CompleteScript? ==> sent.Some? && Known(w.durable.db.log, w.dispatches[x].request, sent.value)
    ensures HotOk(w.durable.db.log, RunScript(w, x, script, sent))
  {
    var d := w.dispatches[x];
    assert DispatchOk(w.durable.db.log, w.now, d);
    NewSlotOk(w.durable.db.log, H.At(w.hot, d.request.key), d, x, script, sent, w.now);
  }

  lemma ConcludeOk(log: seq<D.Commit>, now: Time, d: Dispatch, outcome: D.Outcome)
    requires CarriesResult(outcome) ==> Known(log, d.request, outcome.completed)
    requires ValidPolicy(d.policy) && (d.sent.Some? ==> Known(log, d.request, d.sent.value))
    ensures DispatchOk(log, now, d.(phase := Conclude(outcome)))
  {
  }

  lemma AnswerOk(log: seq<D.Commit>, now: Time, key: Identity, c: Completed)
    requires S.CreatedBy(log, now) && S.Committed(log, key, c) && now < c.expiresAt
    ensures InForce(log, key, c, now)
  {
    var i :| 0 <= i < |log| && log[i].request.key == key && log[i].record.Some? && log[i].record.value.completed == c;
    assert S.InWindow(log[i], now);
  }

  /** The dispatch in the phase it enters. */
  function Entering(w: World, x: Worker, a: Action): Dispatch
    requires x in w.dispatches && Allowed(w, x, a)
  {
    w.dispatches[x].(phase := NextPhase(w, x, a), sent := NextSent(w, x, a))
  }

  lemma ClaimOk(w: World, x: Worker, a: Action)
    requires Inv(w) && x in w.dispatches && Allowed(w, x, a) && a.Claim?
    ensures DispatchOk(w.durable.db.log, w.now, Entering(w, x, a))
  {
    var d := w.dispatches[x];
    assert DispatchOk(w.durable.db.log, w.now, d);
    if d.request.key in w.hot { assert H.WellFormed(w.hot[d.request.key]); }
  }

  lemma CollectOk(w: World, x: Worker, a: Action)
    requires Inv(w) && x in w.dispatches && Allowed(w, x, a) && a.Collect?
    ensures DispatchOk(w.durable.db.log, w.now, Entering(w, x, a))
  {
    var d := w.dispatches[x];
    assert DispatchOk(w.durable.db.log, w.now, d);
    assert S.AttemptOk(w.durable.db, w.durable.attempts[x]);
    ConcludeOk(w.durable.db.log, w.now, d, w.durable.attempts[x].stage.outcome);
  }

  lemma FindOk(w: World, x: Worker, a: Action)
    requires Inv(w) && x in w.dispatches && Allowed(w, x, a) && (a.Find? || a.Decide?)
    ensures DispatchOk(w.durable.db.log, w.now, Entering(w, x, a))
  {
    var d := w.dispatches[x];
    assert DispatchOk(w.durable.db.log, w.now, d);
    if D.LookUp(w.durable.db.records, d.request.key, w.now).Some? {
      S.RecordsAreCommitted(w.durable.db.log, d.request.key);
    }
  }

  lemma AnswerPhaseOk(w: World, x: Worker, a: Action)
    requires Inv(w) && x in w.dispatches && Allowed(w, x, a) && a.Answer?
    ensures DispatchOk(w.durable.db.log, w.now, Entering(w, x, a))
  {
    var d, log := w.dispatches[x], w.durable.db.log;
    assert DispatchOk(log, w.now, d);
    if d.phase.verdict.Give? && w.now < d.phase.verdict.completed.expiresAt {
      AnswerOk(log, w.now, d.request.key, d.phase.verdict.completed);
    }
  }

  /** The phase a dispatch enters is justified by what was committed before the step. */
  lemma NextPhaseOk(w: World, x: Worker, a: Action)
    requires Inv(w) && x in w.dispatches && Allowed(w, x, a)
    ensures DispatchOk(w.durable.db.log, w.now, Entering(w, x, a))
  {
    if a.Claim? {
      ClaimOk(w, x, a);
    } else if a.Collect? {
      CollectOk(w, x, a);
    } else if a.Find? || a.Decide? {
      FindOk(w, x, a);
    } else if a.Answer? {
      AnswerPhaseOk(w, x, a);
    } else {
      assert DispatchOk(w.durable.db.log, w.now, w.dispatches[x]);
    }
  }

  lemma NextHotOk(w: World, x: Worker, a: Action)
    requires Inv(w) && x in w.dispatches && Allowed(w, x, a)
    ensures HotOk(w.durable.db.log, NextHot(w, x, a))
  {
    assert DispatchOk(w.durable.db.log, w.now, w.dispatches[x]);
    if ScriptOf(a).Some? {
      ScriptKeepsHot(w, x, ScriptOf(a).value, NextSent(w, x, a));
    }
  }

  lemma DurablePartOk(w: World, x: Worker, a: Action)
    requires Inv(w) && x in w.dispatches && Allowed(w, x, a)
    ensures var d' := DurableStepped(w.durable, DurablePart(w, x, a));
            && S.Inv(d') && C.StampsPast(d', w.now) && Extends(w.durable.db.log, d'.db.log)
            && forall y :: y in d'.attempts ==> y in w.dispatches && w.dispatches[y].request == d'.attempts[y].request
  {
    var part := DurablePart(w, x, a);
    if part.Some? {
      S.StepKeepsInv(w.durable, part.value);
      DurableStepExtends(w.durable, part.value);
      StampsStayPast(w, x, part.value);
    }
  }

  lemma StampsStayPast(w: World, x: Worker, e: D.Event)
    requires Inv(w) && x in w.dispatches && e.worker == x
    requires e.Stamp? ==> e.now == w.now
    requires e.Arrive? ==> e.request == w.dispatches[x].request
    ensures C.StampsPast(D.Step(w.durable, e), w.now)
    ensures var d' := D.Step(w.durable, e);
            forall y :: y in d'.attempts ==> y in w.dispatches && w.dispatches[y].request == d'.attempts[y].request
  {
    var d' := D.Step(w.durable, e);
    forall y | y in d'.attempts && y != x ensures y in w.durable.attempts && d'.attempts[y] == w.durable.attempts[y] {
      S.OthersLeaveMine(w.durable, e, y);
    }
    C.MyStampIsPast(w.durable, e, w.now);
    C.StampsStayPast(w.durable, e, w.now);
  }

  lemma ActKeepsInv(w: World, x: Worker, a: Action)
    requires Inv(w) && x in w.dispatches && Allowed(w, x, a)
    ensures Inv(ActStep(w, x, a))
  {
    var w' := ActStep(w, x, a);
    var log, log' := w.durable.db.log, w'.durable.db.log;
    DurablePartOk(w, x, a);
    NextHotOk(w, x, a);
    HotOkExtends(log, log', w'.hot);
    NextPhaseOk(w, x, a);
    forall y | y in w'.dispatches ensures DispatchOk(log', w'.now, w'.dispatches[y]) {
      assert DispatchOk(log, w.now, if y == x then Entering(w, x, a) else w.dispatches[y]);
      DispatchOkExtends(log, w.now, log', w'.now, w'.dispatches[y]);
    }
  }

  lemma StepKeepsInv(w: World, e: Event)
    requires Inv(w)
    ensures Inv(Step(w, e))
  {
    match e {
      case Tick(d) =>
        forall x | x in w.dispatches ensures DispatchOk(w.durable.db.log, w.now + d, w.dispatches[x]) {
          DispatchOkExtends(w.durable.db.log, w.now, w.durable.db.log, w.now + d, w.dispatches[x]);
        }
      case Evict(_) =>
      case Arrive(_, _, _, _) =>
      case Act(x, a) =>
        if x in w.dispatches && Allowed(w, x, a) { ActKeepsInv(w, x, a); }
    }
  }

  lemma {:induction false} Reachable(es: seq<Event>)
    ensures Inv(Run(INITIAL, es))
  {
    if es != [] {
      Reachable(es[..|es| - 1]);
      StepKeepsInv(Run(INITIAL, es[..|es| - 1]), es[|es| - 1]);
    }
  }

  // ---- what every run guarantees ----

  /** Two commits of one key never have overlapping windows, with the hot store in whatever state. */
  lemma {:induction false} OneEffectPerWindow(es: seq<Event>, i: nat, j: nat)
    requires i < j < |Run(INITIAL, es).durable.db.log|
    requires var log := Run(INITIAL, es).durable.db.log; log[i].request.key == log[j].request.key
    ensures var log := Run(INITIAL, es).durable.db.log;
            && log[i].record.Some? && log[j].record.Some?
            && log[i].record.value.completed.expiresAt <= log[j].record.value.createdAt
  {
    Refines(es);
    S.OneEffectPerWindow(Project(es), i, j);
  }

  /**
   A cached result that can be read is the durable record of its key, with its original deadline, for as long as
   it may be replayed; and its time to live never passes that deadline.
   */
  lemma {:induction false} CacheAgreesWithStore(es: seq<Event>, key: Identity)
    requires var w := Run(INITIAL, es);
             H.Visible(H.At(w.hot, key), w.now).Some? && w.hot[key].result.Some?
    ensures var w := Run(INITIAL, es);
            var c := w.hot[key].result.value;
            && w.hot[key].fingerprint == Some(c.fingerprint)
            && w.hot[key].deadline * 1000 <= c.expiresAt
            && w.now < c.expiresAt + 1000
            && (w.now < c.expiresAt ==> key in w.durable.db.records && w.durable.db.records[key].completed == c)
  {
    Reachable(es);
    var w := Run(INITIAL, es);
    var c, db := w.hot[key].result.value, w.durable.db;
    if w.now < c.expiresAt {
      var i :| 0 <= i < |db.log| && db.log[i].request.key == key && db.log[i].record.Some? && db.log[i].record.value.completed == c;
      S.LookUpFindsTheWinner(db, i, w.now);
    }
  }

  /** Every normal answer is the committed record of its key that is in force when the answer is given. */
  lemma {:induction false} AnswerIsTheRecordInForce(es: seq<Event>, x: Worker)
    requires var w := Run(INITIAL, es);
             x in w.dispatches && w.dispatches[x].phase.Answered? && w.dispatches[x].phase.response.Success?
    ensures var w := Run(INITIAL, es);
            var d := w.dispatches[x];
            var answer := d.phase.response;
            && answer.completed.fingerprint == d.request.fingerprint
            && answer.at < answer.completed.expiresAt
            && InForce(w.durable.db.log, d.request.key, answer.completed, answer.at)
  {
    Reachable(es);
    assert DispatchOk(Run(INITIAL, es).durable.db.log, Run(INITIAL, es).now, Run(INITIAL, es).dispatches[x]);
  }

  /** All normal answers given for a key within one window are the one record of that window. */
  lemma {:induction false} AnswersAgree(es: seq<Event>, x: Worker, i: nat)
    requires var w := Run(INITIAL, es);
             && x in w.dispatches && w.dispatches[x].phase.Answered? && w.dispatches[x].phase.response.Success?
             && i < |w.durable.db.log| && w.durable.db.log[i].request.key == w.dispatches[x].request.key
             && S.InWindow(w.durable.db.log[i], w.dispatches[x].phase.response.at)
    ensures var w := Run(INITIAL, es);
            && w.dispatches[x].phase.response.completed == w.durable.db.log[i].record.value.completed
            && w.dispatches[x].request.fingerprint == w.durable.db.log[i].request.fingerprint
  {
    Reachable(es);
    AnswerIsTheRecordInForce(es, x);
    var w := Run(INITIAL, es);
    var log, d := w.durable.db.log, w.dispatches[x];
    var answer := d.phase.response;
    var j :| 0 <= j < |log| && log[j].request.key == d.request.key && S.InWindow(log[j], answer.at)
             && log[j].record.value.completed == answer.completed;
    S.WindowIsUnique(log, i, j, answer.at);
    S.CommitAt(log, i);
  }

  /** Whatever the workers and the server do, no claim meets a malformed entry. */
  lemma {:induction false} ClaimsMeetWellFormedEntries(es: seq<Event>, key: Identity, fingerprint: Digest, token: Token, leaseSeconds: nat)
    ensures var w := Run(INITIAL, es);
            H.DecodeReply(H.ClaimScript(H.At(w.hot, key), fingerprint, token, leaseSeconds, w.now).1, fingerprint).Ok?
  {
    Reachable(es);
    var w := Run(INITIAL, es);
    if key in w.hot { assert H.WellFormed(w.hot[key]); }
  }
}
