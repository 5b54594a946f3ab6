/** Undisturbed dispatches succeed, with the hot store and without it, and what they leave answers their duplicates. */
module DispatchProgress {
  import opened Results
  import opened Models
  import opened ResultCodec
  import H = HotStore
  import D = DurableProtocol
  import S = DurableSafety
  import G = DurableProgress
  import O = DurableOutcomes
  import E = DispatchEffects
  import L = LeaseSpec
  import opened DispatchProtocol

  // ---- sequences of steps ----

  function Acts(x: Worker, actions: seq<Action>): seq<Event> {
    seq(|actions|, i requires 0 <= i < |actions| => Act(x, actions[i]))
  }

  function Runs(steps: seq<DurableStep>): seq<Action> {
    seq(|steps|, i requires 0 <= i < |steps| => DurableRun(steps[i]))
  }

  function EventsOf(x: Worker, steps: seq<DurableStep>, now: Time): seq<D.Event> {
    seq(|steps|, i requires 0 <= i < |steps| => ToEvent(x, steps[i], now))
  }

  lemma {:induction false} RunOn(w: World, es: seq<Event>, more: seq<Event>)
    ensures Run(w, es + more) == Run(Run(w, es), more)
  {
    if more == [] {
      assert es + more == es;
    } else {
      RunOn(w, es, more[..|more| - 1]);
      assert (es + more)[..|es + more| - 1] == es + more[..|more| - 1];
    }
  }

  lemma RunNext(w: World, es: seq<Event>, e: Event)
    ensures Run(w, es + [e]) == Step(Run(w, es), e)
  {
    assert (es + [e])[..|es|] == es;
  }

  lemma RunTwo(w: World, a: Event, b: Event)
    ensures Run(w, [a, b]) == Step(Step(w, a), b)
  {
    assert [a, b][..1] == [a] && [a][..0] == [];
    assert Run(w, [a]) == Step(w, a);
  }

  lemma RunThree(w: World, a: Event, b: Event, c: Event)
    ensures Run(w, [a, b, c]) == Step(Step(Step(w, a), b), c)
  {
    assert [a, b, c] == [a, b] + [c];
    RunNext(w, [a, b], c);
    RunTwo(w, a, b);
  }

  /** A dispatch that executes does on the database what its steps do, and nothing else. */
  lemma {:induction false} RunsOnTheDatabase(w: World, x: Worker, steps: seq<DurableStep>)
    requires x in w.dispatches && Executing(w.dispatches[x].phase)
    requires forall s :: s in steps ==> ModeAllows(w.dispatches[x].mode, s)
    ensures Run(w, Acts(x, Runs(steps))) == w.(durable := D.Run(w.durable, EventsOf(x, steps, w.now)))
  {
    if steps != [] {
      var init, last := steps[..|steps| - 1], steps[|steps| - 1];
      RunsOnTheDatabase(w, x, init);
      var v := w.(durable := D.Run(w.durable, EventsOf(x, init, w.now)));
      assert Acts(x, Runs(steps)) == Acts(x, Runs(init)) + [Act(x, DurableRun(last))];
      RunNext(w, Acts(x, Runs(init)), Act(x, DurableRun(last)));
      assert EventsOf(x, steps, w.now)[..|steps| - 1] == EventsOf(x, init, w.now);
      StepsOnTheDatabase(v, x, last);
    }
  }

  lemma StepsOnTheDatabase(w: World, x: Worker, step: DurableStep)
    requires x in w.dispatches && Executing(w.dispatches[x].phase) && ModeAllows(w.dispatches[x].mode, step)
    ensures Step(w, Act(x, DurableRun(step))) == w.(durable := D.Step(w.durable, ToEvent(x, step, w.now)))
  {
    assert w.dispatches[x := w.dispatches[x]] == w.dispatches;
  }

  // ---- the dispatch ----

  /** What a versioned update does on the database after its arrival there. */
  function Work(content: D.Content, result: StoredResult): seq<DurableStep> {
    [Query, Judge, Read, Change(content), Finish(result), Stamp, Upsert, Commit]
  }

  /** It arrives and claims its key; `hotFails` if the hot store does not answer. */
  function Enter(x: Worker, r: D.Request, p: Policy, mode: ResultMode, hotFails: bool): seq<Event> {
    [Arrive(x, r, p, mode), Act(x, if hotFails then ClaimFails else Claim)]
  }

  function Dispatching(x: Worker, r: D.Request, p: Policy, mode: ResultMode, content: D.Content, result: StoredResult): seq<Event> {
    Enter(x, r, p, mode, false) + Acts(x, Runs(Work(content, result))) + [Act(x, Collect), Act(x, Complete), Act(x, Answer)]
  }

  function DispatchingAlone(x: Worker, r: D.Request, p: Policy, mode: ResultMode, content: D.Content, result: StoredResult): seq<Event> {
    Enter(x, r, p, mode, true) + Acts(x, Runs(Work(content, result))) + [Act(x, Collect), Act(x, Answer)]
  }

  /** A new dispatch whose command meets no obstacle in the database. */
  predicate Fresh(w: World, x: Worker, r: D.Request, p: Policy, mode: ResultMode, result: StoredResult) {
    && x !in w.dispatches && ValidPolicy(p) && r.retentionSeconds == p.retentionSeconds
    && G.Clear(w.durable, x, r, w.now) && ModeAllows(mode, Finish(result))
  }

  predicate KeyIsFree(w: World, key: Identity) {
    H.Visible(H.At(w.hot, key), w.now).None?
  }

  /** The result of the dispatch. */
  function ResultOf(r: D.Request, result: StoredResult, now: Time): Completed {
    Completed(result, now + r.retentionSeconds * SECOND, r.fingerprint)
  }

  /** The dispatch has got this far; the other dispatches are as in `w`. */
  function With(w: World, x: Worker, d: Dispatch, durable: D.World, hot: H.Keyspace): World {
    World(w.now, durable, hot, w.dispatches[x := d])
  }

  lemma EnterSteps(w: World, x: Worker, r: D.Request, p: Policy, mode: ResultMode, hotFails: bool)
    requires x !in w.dispatches && ValidPolicy(p) && r.retentionSeconds == p.retentionSeconds
    requires !hotFails ==> KeyIsFree(w, r.key)
    ensures var d := Dispatch(r, p, mode, if hotFails then Unleased else Leased(false), None);
            var hot := if hotFails then w.hot else H.Put(w.hot, r.key, H.ClaimScript(None, r.fingerprint, x, p.leaseSeconds, w.now).0);
            Run(w, Enter(x, r, p, mode, hotFails)) == With(w, x, d, D.Step(w.durable, D.Arrive(x, r)), hot)
  {
    var d := Dispatch(r, p, mode, Claiming, None);
    var v := w.(dispatches := w.dispatches[x := d]);
    assert Step(w, Arrive(x, r, p, mode)) == v;
    var d' := d.(phase := if hotFails then Unleased else Leased(false));
    assert v.dispatches[x := d'] == w.dispatches[x := d'];
    RunTwo(w, Arrive(x, r, p, mode), Act(x, if hotFails then ClaimFails else Claim));
    assert H.At(v.hot, r.key) == H.At(w.hot, r.key);
    if !hotFails { ClaimsFree(H.At(w.hot, r.key), r.fingerprint, x, p.leaseSeconds, w.now); }
  }

  lemma ClaimsFree(slot: H.Slot, fingerprint: Digest, x: Worker, lease: nat, now: Time)
    requires H.Visible(slot, now).None?
    ensures H.ClaimScript(slot, fingerprint, x, lease, now) == (H.ClaimScript(None, fingerprint, x, lease, now).0, H.Acquired)
    ensures AfterClaim(H.Acquired, fingerprint) == Leased(false)
  {
  }

  /** The database after the dispatch has executed. */
  function Done(w: World, x: Worker, r: D.Request, content: D.Content, result: StoredResult): D.World {
    D.Run(w.durable, G.Execute(x, r, content, result, w.now))
  }

  lemma WorkIsExecution(w: World, x: Worker, r: D.Request, content: D.Content, result: StoredResult)
    ensures D.Run(D.Step(w.durable, D.Arrive(x, r)), EventsOf(x, Work(content, result), w.now)) == Done(w, x, r, content, result)
  {
    var rest := EventsOf(x, Work(content, result), w.now);
    assert G.Execute(x, r, content, result, w.now) == [D.Arrive(x, r)] + rest;
    assert [D.Arrive(x, r)][..0] == [];
    assert D.Run(w.durable, [D.Arrive(x, r)]) == D.Step(w.durable, D.Arrive(x, r));
    S.RunOn(w.durable, [D.Arrive(x, r)], rest);
  }

  lemma Works(w: World, x: Worker, r: D.Request, p: Policy, mode: ResultMode, content: D.Content, result: StoredResult, hotFails: bool)
    requires Fresh(w, x, r, p, mode, result) && (!hotFails ==> KeyIsFree(w, r.key))
    ensures var d := Dispatch(r, p, mode, if hotFails then Unleased else Leased(false), None);
            var hot := if hotFails then w.hot else H.Put(w.hot, r.key, H.ClaimScript(None, r.fingerprint, x, p.leaseSeconds, w.now).0);
            Run(w, Enter(x, r, p, mode, hotFails) + Acts(x, Runs(Work(content, result)))) ==
            With(w, x, d, Done(w, x, r, content, result), hot)
  {
    EnterSteps(w, x, r, p, mode, hotFails);
    var v := Run(w, Enter(x, r, p, mode, hotFails));
    RunOn(w, Enter(x, r, p, mode, hotFails), Acts(x, Runs(Work(content, result))));
    RunsOnTheDatabase(v, x, Work(content, result));
    WorkIsExecution(w, x, r, content, result);
  }

  lemma ActsAlone(w: World, x: Worker, d: Dispatch, durable: D.World, hot: H.Keyspace, a: Action, d': Dispatch, hot': H.Keyspace)
    requires var v := With(w, x, d, durable, hot);
             && Allowed(v, x, a) && DurablePart(v, x, a).None?
             && d' == d.(phase := NextPhase(v, x, a), sent := NextSent(v, x, a)) && hot' == NextHot(v, x, a)
    ensures Step(With(w, x, d, durable, hot), Act(x, a)) == With(w, x, d', durable, hot')
  {
    assert w.dispatches[x := d][x := d'] == w.dispatches[x := d'];
  }

  /** An execution has ended under a lease that is believed in: it is collected, published and answered. */
  lemma Delivers(w: World, x: Worker, d: Dispatch, durable: D.World, hot: H.Keyspace, outcome: D.Outcome, hot': H.Keyspace)
    requires d.phase == Leased(false) && CarriesResult(outcome) && w.now < outcome.completed.expiresAt
    requires x in durable.attempts && durable.attempts[x].stage == D.Returned(outcome)
    requires hot' == H.Put(hot, d.request.key,
                           H.CompleteScript(H.At(hot, d.request.key), x, outcome.completed, 1000 * d.policy.hotCacheSeconds, w.now).0)
    ensures Run(With(w, x, d, durable, hot), [Act(x, Collect), Act(x, Complete), Act(x, Answer)]) ==
            With(w, x, d.(phase := Answered(Success(outcome.completed, w.now)), sent := Some(outcome.completed)), durable, hot')
  {
    var c := outcome.completed;
    var published := d.(phase := Answering(Give(c)), sent := Some(c));
    RunThree(With(w, x, d, durable, hot), Act(x, Collect), Act(x, Complete), Act(x, Answer));
    ActsAlone(w, x, d, durable, hot, Collect, d.(phase := Publishing(outcome)), hot);
    ActsAlone(w, x, d.(phase := Publishing(outcome)), durable, hot, Complete, published, hot');
    ActsAlone(w, x, published, durable, hot', Answer, published.(phase := Answered(Success(c, w.now))), hot');
  }

  /** Without a lease it is collected and answered. */
  lemma DeliversAlone(w: World, x: Worker, d: Dispatch, durable: D.World, hot: H.Keyspace, outcome: D.Outcome)
    requires d.phase == Unleased && CarriesResult(outcome) && w.now < outcome.completed.expiresAt
    requires x in durable.attempts && durable.attempts[x].stage == D.Returned(outcome)
    ensures Run(With(w, x, d, durable, hot), [Act(x, Collect), Act(x, Answer)]) ==
            With(w, x, d.(phase := Answered(Success(outcome.completed, w.now))), durable, hot)
  {
    var c := outcome.completed;
    RunTwo(With(w, x, d, durable, hot), Act(x, Collect), Act(x, Answer));
    ActsAlone(w, x, d, durable, hot, Collect, d.(phase := Answering(Give(c))), hot);
    ActsAlone(w, x, d.(phase := Answering(Give(c))), durable, hot, Answer, d.(phase := Answered(Success(c, w.now))), hot);
  }

  /** What the hot store holds after a claim and a publication at the same moment. */
  function PublishedAt(fingerprint: Digest, x: Worker, p: Policy, c: Completed, now: Time): H.Slot {
    H.CompleteScript(H.ClaimScript(None, fingerprint, x, p.leaseSeconds, now).0, x, c, 1000 * p.hotCacheSeconds, now).0
  }

  lemma PublishedIsCached(fingerprint: Digest, x: Worker, p: Policy, c: Completed, now: Time)
    requires ValidPolicy(p) && c.fingerprint == fingerprint && c.expiresAt == now + p.retentionSeconds * SECOND
    ensures var slot := PublishedAt(fingerprint, x, p, c, now);
            E.SlotOk(slot) && E.KeyOf(slot) == L.Cached(c, H.Ms(now) + 1000 * p.hotCacheSeconds)
  {
  }

  /** What a dispatch that met no obstacle has done: one commit of its request, and the answer that carries its record. */
  predicate Succeeded(w: World, w': World, x: Worker, r: D.Request, content: D.Content, c: Completed)
    requires r.command.Update? && r.command.row in w.durable.db.rows
  {
    var record := D.Record(c, w.now);
    && x in w'.dispatches && w'.dispatches[x].phase == Answered(Success(c, w.now))
    && w'.durable.db.rows == w.durable.db.rows[r.command.row := D.Row(r.command.expected + 1, content)]
    && w'.durable.db.records == w.durable.db.records[r.key := record]
    && w'.durable.db.log == w.durable.db.log + [D.Commit(x, r, G.Updating(w.durable.db.rows[r.command.row], r, content), Some(record))]
    && O.CommitsBy(w'.durable.db.log, x) == O.CommitsBy(w.durable.db.log, x) + 1
  }

  lemma Succeeds(w: World, x: Worker, r: D.Request, p: Policy, mode: ResultMode, content: D.Content, result: StoredResult, w': World)
    requires Fresh(w, x, r, p, mode, result) && w'.durable == Done(w, x, r, content, result)
    requires x in w'.dispatches && w'.dispatches[x].phase == Answered(Success(ResultOf(r, result, w.now), w.now))
    ensures Succeeded(w, w', x, r, content, ResultOf(r, result, w.now))
  {
    G.UndisturbedAttemptCommits(w.durable, x, r, content, result, w.now);
    O.CountNext(w.durable.db.log, D.Commit(x, r, G.Updating(w.durable.db.rows[r.command.row], r, content),
                                           Some(D.Record(ResultOf(r, result, w.now), w.now))), x);
  }

  lemma RunsThrough(w: World, x: Worker, r: D.Request, p: Policy, mode: ResultMode, content: D.Content, result: StoredResult)
      returns (d: Dispatch, hot: H.Keyspace)
    requires Fresh(w, x, r, p, mode, result) && KeyIsFree(w, r.key)
    ensures var c := ResultOf(r, result, w.now);
            && d.phase == Answered(Success(c, w.now))
            && hot == H.Put(H.Put(w.hot, r.key, H.ClaimScript(None, r.fingerprint, x, p.leaseSeconds, w.now).0), r.key,
                            PublishedAt(r.fingerprint, x, p, c, w.now))
            && Run(w, Dispatching(x, r, p, mode, content, result)) == With(w, x, d, Done(w, x, r, content, result), hot)
  {
    var c, leased := ResultOf(r, result, w.now), Dispatch(r, p, mode, Leased(false), None);
    var before := H.Put(w.hot, r.key, H.ClaimScript(None, r.fingerprint, x, p.leaseSeconds, w.now).0);
    hot := H.Put(before, r.key, PublishedAt(r.fingerprint, x, p, c, w.now));
    d := leased.(phase := Answered(Success(c, w.now)), sent := Some(c));
    var durable := Done(w, x, r, content, result);
    Works(w, x, r, p, mode, content, result, false);
    HasExecuted(w, x, r, content, result);
    PublishesOver(w.hot, r, x, p, c, w.now, before);
    Delivers(w, x, leased, durable, before, D.Executed(c), hot);
    Appended(w, Enter(x, r, p, mode, false) + Acts(x, Runs(Work(content, result))), With(w, x, leased, durable, before),
             [Act(x, Collect), Act(x, Complete), Act(x, Answer)], With(w, x, d, durable, hot));
  }

  lemma HasExecuted(w: World, x: Worker, r: D.Request, content: D.Content, result: StoredResult)
    requires G.Clear(w.durable, x, r, w.now)
    ensures var durable := Done(w, x, r, content, result);
            x in durable.attempts && durable.attempts[x].stage == D.Returned(D.Executed(ResultOf(r, result, w.now)))
  {
    G.UndisturbedAttemptCommits(w.durable, x, r, content, result, w.now);
  }

  lemma PublishesOver(hot: H.Keyspace, r: D.Request, x: Worker, p: Policy, c: Completed, now: Time, before: H.Keyspace)
    requires before == H.Put(hot, r.key, H.ClaimScript(None, r.fingerprint, x, p.leaseSeconds, now).0)
    ensures H.CompleteScript(H.At(before, r.key), x, c, 1000 * p.hotCacheSeconds, now).0 == PublishedAt(r.fingerprint, x, p, c, now)
  {
  }

  lemma Appended(w: World, es: seq<Event>, v: World, tail: seq<Event>, v': World)
    requires Run(w, es) == v && Run(v, tail) == v'
    ensures Run(w, es + tail) == v'
  {
    RunOn(w, es, tail);
  }

  lemma RunsThroughAlone(w: World, x: Worker, r: D.Request, p: Policy, mode: ResultMode, content: D.Content, result: StoredResult)
      returns (d: Dispatch)
    requires Fresh(w, x, r, p, mode, result)
    ensures d.phase == Answered(Success(ResultOf(r, result, w.now), w.now))
    ensures Run(w, DispatchingAlone(x, r, p, mode, content, result)) == With(w, x, d, Done(w, x, r, content, result), w.hot)
  {
    var c, unleased := ResultOf(r, result, w.now), Dispatch(r, p, mode, Unleased, None);
    d := unleased.(phase := Answered(Success(c, w.now)));
    Works(w, x, r, p, mode, content, result, true);
    RunOn(w, Enter(x, r, p, mode, true) + Acts(x, Runs(Work(content, result))), [Act(x, Collect), Act(x, Answer)]);
    HasExecuted(w, x, r, content, result);
    DeliversAlone(w, x, unleased, Done(w, x, r, content, result), w.hot, D.Executed(c));
  }

  /**
   A dispatch that meets no obstacle succeeds: if its key is free, it commits its command once, publishes the record
   for the cache time of its policy and answers with it. Everything else stays as it was.
   */
  lemma UndisturbedDispatchSucceeds(w: World, x: Worker, r: D.Request, p: Policy, mode: ResultMode, content: D.Content,
                                    result: StoredResult)
    requires Fresh(w, x, r, p, mode, result) && KeyIsFree(w, r.key)
    ensures var w' := Run(w, Dispatching(x, r, p, mode, content, result));
            var c := ResultOf(r, result, w.now);
            && Succeeded(w, w', x, r, content, c)
            && E.KeyIn(w', r.key) == L.Cached(c, H.Ms(w.now) + 1000 * p.hotCacheSeconds)
            && w'.now == w.now && w'.dispatches - {x} == w.dispatches && w'.hot - {r.key} == w.hot - {r.key}
  {
    var d, hot := RunsThrough(w, x, r, p, mode, content, result);
    Succeeds(w, x, r, p, mode, content, result, With(w, x, d, Done(w, x, r, content, result), hot));
    PublishedIsCached(r.fingerprint, x, p, ResultOf(r, result, w.now), w.now);
  }

  /** And so does one that cannot reach the hot store, which is then left as it was. */
  lemma UndisturbedWithoutHotStore(w: World, x: Worker, r: D.Request, p: Policy, mode: ResultMode, content: D.Content,
                                   result: StoredResult)
    requires Fresh(w, x, r, p, mode, result)
    ensures var w' := Run(w, DispatchingAlone(x, r, p, mode, content, result));
            && Succeeded(w, w', x, r, content, ResultOf(r, result, w.now))
            && w'.hot == w.hot && w'.now == w.now && w'.dispatches - {x} == w.dispatches
  {
    var d := RunsThroughAlone(w, x, r, p, mode, content, result);
    Succeeds(w, x, r, p, mode, content, result, With(w, x, d, Done(w, x, r, content, result), w.hot));
  }

  // ---- its duplicates ----

  /** A duplicate that is answered from the hot store. */
  function Repeating(y: Worker, r: D.Request, p: Policy, mode: ResultMode): seq<Event> {
    [Arrive(y, r, p, mode), Act(y, Claim), Act(y, Answer)]
  }

  /** A duplicate that is answered from the database. */
  function Replaying(y: Worker, r: D.Request, p: Policy, mode: ResultMode): seq<Event> {
    Enter(y, r, p, mode, false) + Acts(y, Runs([Query, Judge])) + [Act(y, Collect), Act(y, Complete), Act(y, Answer)]
  }

  predicate Arrives(w: World, y: Worker, r: D.Request, p: Policy) {
    y !in w.dispatches && y !in w.durable.attempts && ValidPolicy(p) && r.retentionSeconds == p.retentionSeconds
  }

  /** Dispatch `y` is answered with `c`, and nothing was committed. */
  predicate AnsweredWith(w: World, w': World, y: Worker, c: Completed) {
    w'.durable.db == w.durable.db && y in w'.dispatches && w'.dispatches[y].phase == Answered(Success(c, w.now))
  }

  /** While the hot store has the result of a key, a duplicate is given it and the database is not touched. */
  lemma CachedResultIsRepeated(w: World, y: Worker, r: D.Request, p: Policy, mode: ResultMode, c: Completed, until: int)
    requires Arrives(w, y, r, p)
    requires E.KeyIn(w, r.key) == L.Cached(c, until) && H.Ms(w.now) <= until && c.fingerprint == r.fingerprint && w.now < c.expiresAt
    ensures AnsweredWith(w, Run(w, Repeating(y, r, p, mode)), y, c)
  {
    var d := Dispatch(r, p, mode, Claiming, None);
    RunThree(w, Arrive(y, r, p, mode), Act(y, Claim), Act(y, Answer));
    assert Step(w, Arrive(y, r, p, mode)) == With(w, y, d, w.durable, w.hot);
    var hot := NextHot(With(w, y, d, w.durable, w.hot), y, Claim);
    E.ClaimTells(With(w, y, d, w.durable, w.hot), y);
    ActsAlone(w, y, d, w.durable, w.hot, Claim, d.(phase := Answering(Give(c))), hot);
    ActsAlone(w, y, d.(phase := Answering(Give(c))), w.durable, hot, Answer, d.(phase := Answered(Success(c, w.now))), hot);
  }

  /** When the hot store no longer has it, a duplicate is given the record that is in force. */
  lemma RecordIsReplayed(w: World, y: Worker, r: D.Request, p: Policy, mode: ResultMode, c: Completed)
    requires Arrives(w, y, r, p) && r.retentionSeconds > 0 && KeyIsFree(w, r.key)
    requires D.LookUp(w.durable.db.records, r.key, w.now) == Some(c) && c.fingerprint == r.fingerprint
    ensures AnsweredWith(w, Run(w, Replaying(y, r, p, mode)), y, c)
  {
    var d := Dispatch(r, p, mode, Leased(false), None);
    var hot := H.Put(w.hot, r.key, H.ClaimScript(None, r.fingerprint, y, p.leaseSeconds, w.now).0);
    var look := EventsOf(y, [Query, Judge], w.now);
    EnterSteps(w, y, r, p, mode, false);
    var v := With(w, y, d, D.Step(w.durable, D.Arrive(y, r)), hot);
    RunOn(w, Enter(y, r, p, mode, false), Acts(y, Runs([Query, Judge])));
    RunsOnTheDatabase(v, y, [Query, Judge]);
    LookIsExecution(w, y, r);
    G.LooksAlone(w.durable, y, r, w.now);
    var durable := D.Run(w.durable, G.Look(y, r, w.now));
    RunOn(w, Enter(y, r, p, mode, false) + Acts(y, Runs([Query, Judge])), [Act(y, Collect), Act(y, Complete), Act(y, Answer)]);
    Delivers(w, y, d, durable, hot, D.Replayed(c),
             H.Put(hot, r.key, H.CompleteScript(H.At(hot, r.key), y, c, 1000 * p.hotCacheSeconds, w.now).0));
  }

  lemma LookIsExecution(w: World, y: Worker, r: D.Request)
    ensures D.Run(D.Step(w.durable, D.Arrive(y, r)), EventsOf(y, [Query, Judge], w.now)) == D.Run(w.durable, G.Look(y, r, w.now))
  {
    var rest := EventsOf(y, [Query, Judge], w.now);
    assert G.Look(y, r, w.now) == [D.Arrive(y, r)] + rest;
    assert [D.Arrive(y, r)][..0] == [];
    assert D.Run(w.durable, [D.Arrive(y, r)]) == D.Step(w.durable, D.Arrive(y, r));
    S.RunOn(w.durable, [D.Arrive(y, r)], rest);
  }

  /**
   Dispatching a command and sending it again is executing it once: as long as the record lives, the duplicate is
   answered with it, from the hot store during the cache time and from the database afterwards, and commits nothing.
   */
  lemma ResendingIsAnswered(w: World, x: Worker, r: D.Request, p: Policy, mode: ResultMode, content: D.Content,
                            result: StoredResult, d: nat, y: Worker, mode': ResultMode)
    requires Fresh(w, x, r, p, mode, result) && KeyIsFree(w, r.key)
    requires y != x && Arrives(w, y, r, p) && w.now + d < ResultOf(r, result, w.now).expiresAt
    ensures var once := Step(Run(w, Dispatching(x, r, p, mode, content, result)), Tick(d));
            var again := if H.Ms(w.now + d) <= H.Ms(w.now) + 1000 * p.hotCacheSeconds
                         then Repeating(y, r, p, mode') else Replaying(y, r, p, mode');
            AnsweredWith(once, Run(once, again), y, ResultOf(r, result, w.now))
  {
    var c := ResultOf(r, result, w.now);
    var done := Run(w, Dispatching(x, r, p, mode, content, result));
    UndisturbedDispatchSucceeds(w, x, r, p, mode, content, result);
    NothingElseArrived(w, x, r, p, mode, content, result, y);
    var once, until := Step(done, Tick(d)), H.Ms(w.now) + 1000 * p.hotCacheSeconds;
    assert E.KeyIn(once, r.key) == E.KeyIn(done, r.key);
    if H.Ms(w.now + d) <= until {
      CachedResultIsRepeated(once, y, r, p, mode', c, until);
    } else {
      CachedRunsOut(H.At(once.hot, r.key), c, until, once.now);
      RecordIsReplayed(once, y, r, p, mode', c);
    }
  }

  lemma CachedRunsOut(slot: H.Slot, c: Completed, until: int, now: Time)
    requires E.KeyOf(slot) == L.Cached(c, until) && until < H.Ms(now)
    ensures H.Visible(slot, now).None?
  {
  }

  lemma NothingElseArrived(w: World, x: Worker, r: D.Request, p: Policy, mode: ResultMode, content: D.Content, result: StoredResult,
                           y: Worker)
    requires Fresh(w, x, r, p, mode, result) && KeyIsFree(w, r.key) && y != x && Arrives(w, y, r, p)
    ensures Arrives(Run(w, Dispatching(x, r, p, mode, content, result)), y, r, p)
  {
    var d, hot := RunsThrough(w, x, r, p, mode, content, result);
    G.UndisturbedAttemptCommits(w.durable, x, r, content, result, w.now);
  }
}
