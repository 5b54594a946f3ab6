/**
 Dispatches under a HOT_DURABLE policy: the coordinator claims a lease in the hot store, runs the durable
 execution, publishes its result to the hot store and answers. The hot store may fail, lose replies, run
 scripts late, evict and expire; workers may crash. All clocks are one nondecreasing clock.
 */
module DispatchProtocol {
  import opened Results
  import opened Models
  import opened ResultCodec
  import H = HotStore
  import D = DurableProtocol

  type Worker = D.Worker

  datatype Verdict = Give(completed: Completed) | RefuseConflict | RefuseBusy

  datatype Failure = KeyReused | StillRunning | Unavailable | Durable(error: D.Error)

  datatype Response = Success(completed: Completed, at: Time) | Failed(failure: Failure)

  datatype Phase =
    | Claiming
    | Leased(lost: bool)                                     // durable execution under a lease, heartbeat running
    | Unleased                                               // durable execution without the hot store
    | Busy(conflict: bool)                                   // another dispatch has the lease or the result
    | BusyFound(conflict: bool, found: Option<Completed>)
    | Publishing(outcome: D.Outcome)                         // the lease is believed ours
    | Abandoning                                             // cancelled, with a lease to give back
    | Answering(verdict: Verdict)
    | Answered(response: Response)
    | Dead

  /** `sent` is the result this dispatch has sent to the hot store, whether or not it arrived. */
  datatype Dispatch = Dispatch(request: D.Request, policy: Policy, mode: ResultMode, phase: Phase, sent: Option<Completed>)

  datatype World = World(now: Time, durable: D.World, hot: H.Keyspace, dispatches: map<Worker, Dispatch>)

  const INITIAL := World(0, D.INITIAL, map[], map[])

  /** A step of the durable execution; its clock readings are those of the shared clock. */
  datatype DurableStep =
    | Query
    | Judge
    | Read
    | Change(content: D.Content)
    | Insert(content: D.Content)
    | Finish(result: StoredResult)
    | Stamp
    | Upsert
    | Commit
    | CommitUnknown(landed: bool)
    | Fail(error: D.Error)

  datatype Script = ClaimScript | RenewScript | CompleteScript | ReleaseScript

  /** What becomes of a commit whose caller is gone: it is decided at once, or it stays in doubt for now. */
  datatype CommitFate = Decided(landed: bool) | InDoubt

  datatype Action =
    | Claim
    | ClaimFails
    | Late(script: Script)          // a script runs although its caller no longer waits for it
    | Renew
    | RenewFails
    | DurableRun(step: DurableStep)
    | Collect
    | LoseCommit                    // the connection is lost while the server still decides on the commit
    | Complete
    | CompleteFails
    | Release
    | ReleaseFails
    | Find
    | FindFails(error: D.Error)
    | Decide
    | Answer
    | Cancel(fate: CommitFate)      // the durable execution is cancelled
    | GiveBack
    | GiveBackFails
    | Crash(fate: CommitFate)

  datatype Event =
    | Tick(duration: nat)
    | Evict(key: Identity)
    | Arrive(worker: Worker, request: D.Request, policy: Policy, mode: ResultMode)
    | Act(worker: Worker, action: Action)

  function ToEvent(worker: Worker, step: DurableStep, now: Time): D.Event {
    match step
    case Query => D.Query(worker, now)
    case Judge => D.Judge(worker, now)
    case Read => D.Read(worker)
    case Change(content) => D.Change(worker, content)
    case Insert(content) => D.Insert(worker, content)
    case Finish(result) => D.Finish(worker, result, now)
    case Stamp => D.Stamp(worker, now)
    case Upsert => D.Upsert(worker)
    case Commit => D.CommitAcknowledged(worker)
    case CommitUnknown(landed) => D.CommitUnknown(worker, landed)
    case Fail(error) => D.Fail(worker, error)
  }

  // ---- decisions of the coordinator ----

  /** `_evaluate_result` up to its clock check. */
  function Conclude(outcome: D.Outcome): Phase {
    match outcome
    case Executed(c) => Answering(Give(c))
    case Replayed(c) => Answering(Give(c))
    case KeyConflict => Answering(RefuseConflict)
    case Raised(e) => Answered(Failed(Durable(e)))
  }

  /** What the reply to a claim leads to; one that makes no sense is an unavailable hot store. */
  function AfterReply(r: Result<H.ClaimResult, H.HotError>): Phase {
    match r
    case Err(_) => Unleased
    case Ok(ClaimAcquired) => Leased(false)
    case Ok(ClaimReplay(c)) => Answering(Give(c))
    case Ok(ClaimConflict) => Busy(true)
    case Ok(ClaimInProgress) => Busy(false)
  }

  function AfterClaim(reply: H.Reply, fingerprint: Digest): Phase {
    AfterReply(H.DecodeReply(reply, fingerprint))
  }

  /** A committed durable winner takes precedence over a pending lease. */
  function AfterFind(conflict: bool, found: Option<Completed>, fingerprint: Digest, now: Time): Phase {
    var j := D.Judgement(found, fingerprint, now);
    if j.Some? then Conclude(j.value)
    else Answering(if conflict then RefuseConflict else RefuseBusy)
  }

  function Reply(verdict: Verdict, now: Time): Response {
    match verdict
    case Give(c) => if c.expiresAt <= now then Failed(Unavailable) else Success(c, now)
    case RefuseConflict => Failed(KeyReused)
    case RefuseBusy => Failed(StillRunning)
  }

  /** What an attempt reports when it does not learn of its commit. */
  const COMMIT_LOST := D.Raised(D.Unavailable)

  function CarriesResult(outcome: D.Outcome): bool {
    outcome.Executed? || outcome.Replayed?
  }

  /** The durable execution of a worker has come to an end. */
  predicate Finished(d: D.World, w: Worker) {
    w in d.attempts && d.attempts[w].stage.Returned?
  }

  predicate Executing(p: Phase) {
    p.Leased? || p.Unleased?
  }

  /** The server has been asked to commit and has not answered. */
  predicate Committing(d: D.World, w: Worker) {
    w in d.attempts && d.attempts[w].stage.Recorded?
  }

  /** Only a commit that is under way can land or stay in doubt. */
  predicate PossibleFate(d: D.World, w: Worker, fate: CommitFate) {
    fate != Decided(false) ==> Committing(d, w)
  }

  predicate ModeAllows(mode: ResultMode, step: DurableStep) {
    step.Finish? ==> if mode.CompletionOnly? then step.result == COMPLETION else !step.result.IsCompletionOnly()
  }

  /** What a failing lookup raises: a serialization failure, an unavailable database or any other error. */
  const LOOKUP_ERRORS := {D.TransactionConflict, D.Unavailable, D.HandlerFailed}

  predicate Allowed(w: World, x: Worker, a: Action)
    requires x in w.dispatches
  {
    var d := w.dispatches[x];
    var p := d.phase;
    match a
    case Claim => p.Claiming?
    case ClaimFails => p.Claiming?
    case Late(script) => script.CompleteScript? ==> d.sent.Some?
    case Renew => p.Leased?
    case RenewFails => p.Leased?
    case DurableRun(step) => (Executing(p) || step.CommitUnknown?) && ModeAllows(d.mode, step)
    case Collect => Executing(p) && Finished(w.durable, x)
    case LoseCommit => Executing(p) && Committing(w.durable, x)
    case Complete => p.Publishing? && CarriesResult(p.outcome)
    case CompleteFails => p.Publishing? && CarriesResult(p.outcome)
    case Release => p.Publishing? && !CarriesResult(p.outcome)
    case ReleaseFails => p.Publishing? && !CarriesResult(p.outcome)
    case Find => p.Busy?
    case FindFails(error) => (p.Busy? || p.BusyFound?) && error in LOOKUP_ERRORS
    case Decide => p.BusyFound?
    case Answer => p.Answering?
    case Cancel(fate) => Executing(p) && PossibleFate(w.durable, x, fate)
    case GiveBack => p.Abandoning?
    case GiveBackFails => p.Abandoning?
    case Crash(fate) => !p.Answered? && PossibleFate(w.durable, x, fate)
  }

  /** What a script of a dispatch leaves of its key. The dispatch's number is its lease token. */
  function NewSlot(slot: H.Slot, d: Dispatch, x: Worker, script: Script, sent: Option<Completed>, now: Time): H.Slot
    requires script.CompleteScript? ==> sent.Some?
  {
    var lease := d.policy.leaseSeconds;
    match script
    case ClaimScript => H.ClaimScript(slot, d.request.fingerprint, x, lease, now).0
    case RenewScript => H.RenewScript(slot, x, lease, now).0
    case CompleteScript => H.CompleteScript(slot, x, sent.value, 1000 * d.policy.hotCacheSeconds, now).0
    case ReleaseScript => H.ReleaseScript(slot, x, now).0
  }

  function RunScript(w: World, x: Worker, script: Script, sent: Option<Completed>): H.Keyspace
    requires x in w.dispatches
    requires script.CompleteScript? ==> sent.Some?
  {
    var d := w.dispatches[x];
    var key := d.request.key;
    H.Put(w.hot, key, NewSlot(H.At(w.hot, key), d, x, script, sent, w.now))
  }

  function ClaimAnswer(w: World, x: Worker): Phase
    requires x in w.dispatches
  {
    var d := w.dispatches[x];
    var reply := H.ClaimScript(H.At(w.hot, d.request.key), d.request.fingerprint, x, d.policy.leaseSeconds, w.now).1;
    AfterClaim(reply, d.request.fingerprint)
  }

  function RenewAnswer(w: World, x: Worker): bool
    requires x in w.dispatches
  {
    var d := w.dispatches[x];
    H.RenewScript(H.At(w.hot, d.request.key), x, d.policy.leaseSeconds, w.now).1
  }

  function NextPhase(w: World, x: Worker, a: Action): Phase
    requires x in w.dispatches && Allowed(w, x, a)
  {
    var d := w.dispatches[x];
    var p, r := d.phase, d.request;
    match a
    case Claim => ClaimAnswer(w, x)
    case ClaimFails => Unleased
    case Late(_) => p
    case Renew => Leased(p.lost || !RenewAnswer(w, x))
    case RenewFails => Leased(true)
    case DurableRun(_) => p
    case Collect =>
      var outcome := w.durable.attempts[x].stage.outcome;
      if p == Leased(false) then Publishing(outcome) else Conclude(outcome)
    case LoseCommit => if p == Leased(false) then Publishing(COMMIT_LOST) else Conclude(COMMIT_LOST)
    case Complete => Conclude(p.outcome)
    case CompleteFails => Conclude(p.outcome)
    case Release => Conclude(p.outcome)
    case ReleaseFails => Conclude(p.outcome)
    case Find => BusyFound(p.conflict, D.LookUp(w.durable.db.records, r.key, w.now))
    case FindFails(error) => Answered(Failed(Durable(error)))
    case Decide => AfterFind(p.conflict, p.found, r.fingerprint, w.now)
    case Answer => Answered(Reply(p.verdict, w.now))
    case Cancel(_) => if p == Leased(false) then Abandoning else Dead
    case GiveBack => Dead
    case GiveBackFails => Dead
    case Crash(_) => Dead
  }

  function NextSent(w: World, x: Worker, a: Action): Option<Completed>
    requires x in w.dispatches && Allowed(w, x, a)
  {
    var d := w.dispatches[x];
    if a.Complete? || a.CompleteFails? then Some(d.phase.outcome.completed) else d.sent
  }

  /** The script that runs at the hot store, if one does. */
  function ScriptOf(a: Action): Option<Script> {
    match a
    case Claim => Some(ClaimScript)
    case Late(script) => Some(script)
    case Renew => Some(RenewScript)
    case Complete => Some(CompleteScript)
    case Release => Some(ReleaseScript)
    case GiveBack => Some(ReleaseScript)
    case _ => None
  }

  function NextHot(w: World, x: Worker, a: Action): H.Keyspace
    requires x in w.dispatches && Allowed(w, x, a)
  {
    if ScriptOf(a).Some? then RunScript(w, x, ScriptOf(a).value, NextSent(w, x, a)) else w.hot
  }

  /** A commit in doubt goes on at the server: its transaction is decided by a later step. */
  function CrashPart(x: Worker, fate: CommitFate): Option<D.Event> {
    if fate.Decided? then Some(D.Crash(x, fate.landed)) else None
  }

  /** The step of the durable protocol that an action contains. */
  function DurablePart(w: World, x: Worker, a: Action): Option<D.Event>
    requires x in w.dispatches && Allowed(w, x, a)
  {
    match a
    case Claim => if Executing(ClaimAnswer(w, x)) then Some(D.Arrive(x, w.dispatches[x].request)) else None
    case ClaimFails => Some(D.Arrive(x, w.dispatches[x].request))
    case DurableRun(step) => Some(ToEvent(x, step, w.now))
    case Cancel(fate) => CrashPart(x, fate)
    case Crash(fate) => CrashPart(x, fate)
    case _ => None
  }

  function DurableStepped(d: D.World, part: Option<D.Event>): D.World {
    if part.Some? then D.Step(d, part.value) else d
  }

  function ActStep(w: World, x: Worker, a: Action): World
    requires x in w.dispatches && Allowed(w, x, a)
  {
    World(w.now,
          DurableStepped(w.durable, DurablePart(w, x, a)),
          NextHot(w, x, a),
          w.dispatches[x := w.dispatches[x].(phase := NextPhase(w, x, a), sent := NextSent(w, x, a))])
  }

  /** An event that is not possible changes nothing. */
  function Step(w: World, e: Event): World {
    match e
    case Tick(d) => w.(now := w.now + d)
    case Evict(key) => w.(hot := w.hot - {key})
    case Arrive(x, r, p, mode) =>
      if x !in w.dispatches && ValidPolicy(p) && r.retentionSeconds == p.retentionSeconds
      then w.(dispatches := w.dispatches[x := Dispatch(r, p, mode, Claiming, None)]) else w
    case Act(x, a) =>
      if x in w.dispatches && Allowed(w, x, a) then ActStep(w, x, a) else w
  }

  function Run(w: World, es: seq<Event>): World {
    if es == [] then w else Step(Run(w, es[..|es| - 1]), es[|es| - 1])
  }
}
