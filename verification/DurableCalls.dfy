/**
 What can happen during a call of the durable execution, and what its answer and its commit must then be: faults of
 awaits, locks that are not released, rows that have moved on, records that are found, and the operation itself.
 */
module DurableCalls {
  import opened Results
  import opened Models
  import opened DurableProtocol
  import S = DurableSafety
  import O = DurableOutcomes
  import U = UnitOfWork

  /** An error of the driver, or the cancellation of the task. */
  datatype Fault = Driver(error: U.DriverError) | Cancelled

  function ErrorOf(e: U.DriverError): (r: Error)
    ensures r.TransactionConflict? <==> U.Translate(e).Conflict?
    ensures r.Unavailable? <==> U.Translate(e).Unavailable?
    ensures r in {TransactionConflict, Unavailable, HandlerFailed}
  {
    match U.Translate(e)
    case Conflict => TransactionConflict
    case Unavailable => Unavailable
    case Unchanged(_) => HandlerFailed
  }

  /** A wait for a lock that does not end. */
  const DEADLOCK := Driver(U.Dbapi(Some(U.DEADLOCK_DETECTED), false))

  /** What happens while an attempt awaits; `landed` tells whether a commit took effect although its reply was lost. */
  datatype Turn = Turn(others: seq<Event>, now: Time, fault: Option<Fault>, landed: bool)

  /** The stage an attempt enters when an awaited statement fails or the task is cancelled. */
  function Interrupted(stage: Stage, f: Fault): Stage {
    if f.Cancelled? then Gone
    else if LookingUp(stage) then Returned(Raised(ErrorOf(f.error)))
    else RolledBack(ErrorOf(f.error))
  }

  function Foreign(es: seq<Event>, me: Worker): seq<Event> {
    if es == [] then [] else
      var before, e := Foreign(es[..|es| - 1], me), es[|es| - 1];
      if e.worker == me then before else before + [e]
  }

  lemma {:induction false} ForeignLeaveMine(w: World, es: seq<Event>, me: Worker)
    ensures S.SameAttempt(w, Run(w, Foreign(es, me)), me)
  {
    if es != [] {
      ForeignLeaveMine(w, es[..|es| - 1], me);
      var before, e := Foreign(es[..|es| - 1], me), es[|es| - 1];
      if e.worker != me {
        assert (before + [e])[..|before|] == before;
        S.OthersLeaveMine(Run(w, before), e, me);
      }
    }
  }

  /** No transaction deletes a row. */
  lemma {:induction false} RowsStay(w: World, es: seq<Event>)
    ensures w.db.rows.Keys <= Run(w, es).db.rows.Keys
  {
    if es != [] {
      RowsStay(w, es[..|es| - 1]);
      StepKeepsRows(Run(w, es[..|es| - 1]), es[|es| - 1]);
    }
  }

  lemma StepKeepsRows(w: World, e: Event)
    ensures w.db.rows.Keys <= Step(w, e).db.rows.Keys
  {
  }

  /** Between these states `me` has committed nothing. */
  predicate Quiet(w: World, w': World, me: Worker) {
    O.CommitsBy(w'.db.log, me) == O.CommitsBy(w.db.log, me)
  }

  lemma {:induction false} OthersCommitNothingOfMine(w: World, es: seq<Event>, me: Worker)
    ensures Quiet(w, Run(w, Foreign(es, me)), me)
  {
    if es != [] {
      OthersCommitNothingOfMine(w, es[..|es| - 1], me);
      var before, e := Foreign(es[..|es| - 1], me), es[|es| - 1];
      if e.worker != me {
        assert (before + [e])[..|before|] == before;
        StepIsQuiet(Run(w, before), e, me);
      }
    }
  }

  lemma StepIsQuiet(w: World, e: Event, me: Worker)
    requires e.worker != me
    ensures Quiet(w, Step(w, e), me)
  {
    if Enabled(w, e) && Publishes(e) {
      var a := w.attempts[e.worker];
      O.CountNext(w.db.log, Commit(e.worker, a.request, PendingWrites(a.stage), PendingRecord(a.stage)), me);
    }
  }

  lemma {:induction false} NoneOfMine(log: seq<Commit>, me: Worker, i: nat)
    requires O.CommitsBy(log, me) == 0 && i < |log|
    ensures log[i].worker != me
  {
    if i < |log| - 1 {
      NoneOfMine(log[..|log| - 1], me, i);
    }
  }

  /** The attempt is running `request` and has reached `stage`. */
  predicate At(w: World, me: Worker, request: Request, stage: Stage) {
    me in w.attempts && w.attempts[me] == Attempt(request, stage)
  }

  /** Taking an enabled step moves the attempt on; only commits change what is committed. */
  lemma MyStep(w: World, e: Event)
    requires Enabled(w, e) && !e.Arrive?
    ensures var a := w.attempts[e.worker]; At(Step(w, e), e.worker, a.request, NextStage(w.db, a, e))
    ensures Step(w, e).db == Published(w.db, w.attempts[e.worker], e)
  {
  }

  /** What is committed after a step of this attempt. */
  function Published(db: Database, a: Attempt, e: Event): Database {
    if Publishes(e) then Publish(db, e.worker, a.request, PendingWrites(a.stage), PendingRecord(a.stage)) else db
  }

  // ---- why an attempt stops ----

  /** A call: its awaits are the turns from `from` up to `to`, and its moments are the histories from length `start` on. */
  datatype Span = Span(turns: nat -> Turn, from: nat, to: nat, start: nat, history: seq<Event>)

  ghost predicate Inside(a: Span, b: Span) {
    a.turns == b.turns && b.from <= a.from && a.to <= b.to && b.start <= a.start && a.history <= b.history
  }

  predicate Moment(c: Span, n: nat) {
    c.start <= n <= |c.history|
  }

  function WorldAt(c: Span, n: nat): World
    requires n <= |c.history|
  {
    Run(INITIAL, c.history[..n])
  }

  /** Await `k` of the call ends in this fault. */
  predicate Cut(c: Span, k: nat, f: Fault) {
    c.from <= k < c.to && c.turns(k).fault == Some(f)
  }

  ghost predicate Fails(c: Span, e: Error) {
    exists k: nat, d :: Cut(c, k, Driver(d)) && ErrorOf(d) == e
  }

  /** What a statement may have to wait for. */
  datatype Lock = NoLock | RowLock(row: RowId) | KeyLock

  predicate Free(w: World, me: Worker, request: Request, lock: Lock) {
    match lock
    case NoLock => true
    case RowLock(u) => RowFree(w.attempts, me, u)
    case KeyLock => KeyFree(w.attempts, me, request.key)
  }

  /** Another attempt holds the key or a row of the request at some moment of the call. */
  ghost predicate LockedOut(c: Span, me: Worker, request: Request) {
    exists n: nat, lock :: Moment(c, n) && !Free(WorldAt(c, n), me, request, lock) && Wanted(request.command, lock)
  }

  predicate Wanted(command: Command, lock: Lock) {
    match lock
    case NoLock => false
    case RowLock(u) => if command.Update? then u == command.row else u in command.rows
    case KeyLock => true
  }

  predicate RowRefuses(rows: map<RowId, Row>, command: Command, e: Error) {
    command.Update? &&
    if command.row !in rows then e.NotFound? else rows[command.row].version != command.expected && e.VersionMismatch?
  }

  /** The row of the request is missing or at another version at some moment of the call. */
  ghost predicate Outdated(c: Span, command: Command, e: Error) {
    exists n: nat :: Moment(c, n) && RowRefuses(WorldAt(c, n).db.rows, command, e)
  }

  /** Between two clock readings the result of the request expires. */
  ghost predicate Expires(c: Span, request: Request) {
    exists k: nat :: c.from <= k && k + 1 < c.to && Outlived(c.turns(k).now, request, c.turns(k + 1).now)
  }

  predicate Outlived(finished: Time, request: Request, stamped: Time) {
    finished + request.retentionSeconds * SECOND <= stamped
  }

  /** At a clock reading `t` of the call, a record of the key that outlives it has been committed at some moment. */
  ghost predicate LostTo(c: Span, key: Identity, t: Time) {
    exists k: nat, n: nat :: c.from <= k < c.to && c.turns(k).now == t && Moment(c, n) && LookUp(WorldAt(c, n).db.records, key, t).Some?
  }

  ghost predicate Excuse(c: Span, me: Worker, request: Request, e: Error) {
    || Fails(c, e)
    || (e.TransactionConflict? && LockedOut(c, me, request))
    || Outdated(c, request.command, e)
    || (e.Unavailable? && Expires(c, request))
  }

  /** A conflict of versions or transactions can mean that a duplicate has won. */
  predicate LooksForWinner(e: Error) {
    e in {VersionMismatch, TransactionConflict}
  }

  /** The attempt has rolled back to look for a winner, has failed or is gone, and what happened during the call made it so. */
  ghost predicate Why(c: Span, me: Worker, request: Request, stage: Stage) {
    match stage
    case Gone => exists k: nat :: Cut(c, k, Cancelled)
    case Returned(Raised(e)) => !LooksForWinner(e) && Excuse(c, me, request, e)
    case Querying(Some(Raced(e))) => LooksForWinner(e) && Excuse(c, me, request, e)
    case Querying(Some(LostUpsert(t))) => LostTo(c, request.key, t)
    case _ => false
  }

  lemma ExcuseWider(a: Span, b: Span, me: Worker, request: Request, e: Error)
    requires Inside(a, b) && Excuse(a, me, request, e)
    ensures Excuse(b, me, request, e)
  {
    assert forall n :: 0 <= n <= |a.history| ==> b.history[..n] == a.history[..n];
    if Fails(a, e) {
      var k: nat, d :| Cut(a, k, Driver(d)) && ErrorOf(d) == e;
      assert Cut(b, k, Driver(d));
    } else if e.TransactionConflict? && LockedOut(a, me, request) {
      var n: nat, lock :| Moment(a, n) && !Free(WorldAt(a, n), me, request, lock) && Wanted(request.command, lock);
      assert Moment(b, n) && WorldAt(b, n) == WorldAt(a, n);
    } else if Outdated(a, request.command, e) {
      var n: nat :| Moment(a, n) && RowRefuses(WorldAt(a, n).db.rows, request.command, e);
      assert Moment(b, n) && WorldAt(b, n) == WorldAt(a, n);
    }
  }

  lemma WhyWider(a: Span, b: Span, me: Worker, request: Request, stage: Stage)
    requires Inside(a, b) && Why(a, me, request, stage)
    ensures Why(b, me, request, stage)
  {
    match stage {
      case Gone =>
        var k: nat :| Cut(a, k, Cancelled);
        assert Cut(b, k, Cancelled);
      case Returned(Raised(e)) => ExcuseWider(a, b, me, request, e);
      case Querying(Some(Raced(e))) => ExcuseWider(a, b, me, request, e);
      case Querying(Some(LostUpsert(t))) =>
        var k: nat, n: nat :| a.from <= k < a.to && a.turns(k).now == t && Moment(a, n)
                              && LookUp(WorldAt(a, n).db.records, request.key, t).Some?;
        assert b.history[..n] == a.history[..n];
        assert Moment(b, n) && WorldAt(b, n) == WorldAt(a, n) && b.turns(k).now == t;
      case _ =>
    }
  }

  /** A statement of a business transaction can be interrupted. */
  predicate InTransaction(stage: Stage) {
    stage.Handling? || stage.Encoded? || stage.Stamped? || stage.Recorded?
  }

  lemma WhyInterrupted(c: Span, k: nat, f: Fault, me: Worker, request: Request, stage: Stage)
    requires Cut(c, k, f) && InTransaction(stage)
    ensures Why(c, me, request, Interrupted(stage, f))
  {
  }

  lemma WhyLockedOut(c: Span, n: nat, lock: Lock, me: Worker, request: Request, stage: Stage)
    requires Moment(c, n) && !Free(WorldAt(c, n), me, request, lock) && Wanted(request.command, lock) && InTransaction(stage)
    ensures Why(c, me, request, Interrupted(stage, DEADLOCK))
  {
    assert ErrorOf(DEADLOCK.error) == TransactionConflict;
  }

  lemma WhyOutdated(c: Span, n: nat, me: Worker, request: Request, e: Error)
    requires Moment(c, n) && RowRefuses(WorldAt(c, n).db.rows, request.command, e)
    ensures Why(c, me, request, RolledBack(e))
  {
    assert Outdated(c, request.command, e);
  }

  // ---- the operation ----

  /**
   The handler of one command: the content an update asks for given the row it read (`None` is no change), the
   default contents to insert, and the stored result, or `None` when the handler or its contract check raises.
   */
  datatype Operation = Operation(
    change: Row -> Option<Content>,
    initial: nat -> Content,
    finish: Tx -> Option<StoredResult>)

  datatype ExecutionError = AlreadyActive | InvalidRetention | Failed(error: Error) | TaskCancelled

  /** What the rows of a provisioning transaction may be so far: first versions of listed rows that were absent. */
  predicate Provisioned(rows: seq<RowId>, done: nat, initial: nat -> Content, writes: Writes, committed: set<RowId>)
    requires done <= |rows|
  {
    && (forall u :: u in writes ==>
          exists k :: 0 <= k < done && rows[k] == u && writes[u] == Write(None, Row(1, initial(k))))
    && (forall k :: 0 <= k < done ==> rows[k] in writes || rows[k] in committed)
  }

  /** The transaction has written exactly what the operation asks for. */
  predicate Performed(operation: Operation, command: Command, tx: Tx, committed: set<RowId>) {
    match command
    case Update(row, expected) =>
      && tx.read.Some? && tx.read.value.version == expected
      && var content := operation.change(tx.read.value);
         tx.writes == if content.None? then map[] else map[row := Write(tx.read, Row(expected + 1, content.value))]
    case Provision(rows) => Provisioned(rows, |rows|, operation.initial, tx.writes, committed)
  }

  lemma StillPerformed(operation: Operation, command: Command, tx: Tx, before: set<RowId>, committed: set<RowId>)
    requires Performed(operation, command, tx, before) && before <= committed
    ensures Performed(operation, command, tx, committed)
  {
  }

  /** The operation has done its writes, and then raises or gives a result that its contract refuses. */
  predicate Raises(w: World, operation: Operation, command: Command, tx: Tx) {
    Performed(operation, command, tx, w.db.rows.Keys) && operation.finish(tx).None?
  }

  /** Something happened during the call that stops the attempt, or the operation itself has raised. */
  ghost predicate Halts(c: Span, me: Worker, request: Request, operation: Operation, stage: Stage) {
    || Why(c, me, request, stage)
    || (stage == Returned(Raised(HandlerFailed))
        && exists n: nat, tx :: Moment(c, n) && Raises(WorldAt(c, n), operation, request.command, tx))
  }

  lemma HaltsWider(a: Span, b: Span, me: Worker, request: Request, operation: Operation, stage: Stage)
    requires Inside(a, b) && Halts(a, me, request, operation, stage)
    ensures Halts(b, me, request, operation, stage)
  {
    if Why(a, me, request, stage) {
      WhyWider(a, b, me, request, stage);
    } else {
      var n: nat, tx :| Moment(a, n) && Raises(WorldAt(a, n), operation, request.command, tx);
      assert b.history[..n] == a.history[..n];
      assert Moment(b, n) && Raises(WorldAt(b, n), operation, request.command, tx);
    }
  }

  // ---- what an attempt is told ----

  /** The stage after a lookup with this result. */
  function Found(cause: Option<Cause>, r: Result<Option<Outcome>, Fault>): Stage {
    match r
    case Err(f) => Interrupted(Querying(cause), f)
    case Ok(Some(outcome)) => Returned(outcome)
    case Ok(None) => NothingFound(cause)
  }

  /**
   The answer of the lookup that begins with turn `k`: the fault of one of its three awaits, or the judgement, at a
   second clock reading, of one committed state of the call.
   */
  ghost predicate LookedUp(c: Span, k: nat, key: Identity, fingerprint: Digest, r: Result<Option<Outcome>, Fault>) {
    var b, t, t' := c.turns(k), c.turns(k + 1), c.turns(k + 2);
    c.from <= k &&
    if b.fault.Some? then r == Err(b.fault.value)
    else if t.fault.Some? then r == Err(t.fault.value)
    else if t'.fault.Some? then r == Err(t'.fault.value)
    else exists n: nat :: Moment(c, n) && r == Ok(Judgement(LookUp(WorldAt(c, n).db.records, key, t.now), fingerprint, t'.now))
  }

  lemma LookedUpWider(a: Span, b: Span, k: nat, key: Identity, fingerprint: Digest, r: Result<Option<Outcome>, Fault>)
    requires Inside(a, b) && LookedUp(a, k, key, fingerprint, r)
    ensures LookedUp(b, k, key, fingerprint, r)
  {
    if a.turns(k).fault.None? && a.turns(k + 1).fault.None? && a.turns(k + 2).fault.None? {
      var n: nat :| Moment(a, n)
               && r == Ok(Judgement(LookUp(WorldAt(a, n).db.records, key, a.turns(k + 1).now), fingerprint, a.turns(k + 2).now));
      assert b.history[..n] == a.history[..n];
      assert Moment(b, n) && WorldAt(b, n) == WorldAt(a, n);
    }
  }

  /** How the business transaction of an attempt has ended. */
  function Ended(done: Result<Completed, Stage>): Stage {
    if done.Ok? then Returned(Executed(done.value)) else done.error
  }

  predicate HasStopped(stage: Stage) {
    (stage.Querying? && stage.cause.Some?) || (stage.Returned? && stage.outcome.Raised?) || stage.Gone?
  }

  /** What follows: a lost race is resolved by a lookup, any other end is the answer. */
  ghost predicate Resolved(c: Span, request: Request, ended: Stage, stage: Stage) {
    if ended.Querying? then exists k: nat, r :: LookedUp(c, k, request.key, request.fingerprint, r) && stage == Found(ended.cause, r)
    else stage == ended
  }

  /**
   The answer of an attempt: that of its first lookup, unless it found nothing; then the end of its transaction, which
   executed or had a reason to stop; and after a lost race what a second lookup found.
   */
  ghost predicate Told(c: Span, me: Worker, request: Request, operation: Operation, stage: Stage) {
    exists first ::
      && LookedUp(c, c.from, request.key, request.fingerprint, first)
      && if first.Err? || first.value.Some? then stage == Found(None, first)
         else exists ended :: Transacted(c, me, request, operation, ended) && Resolved(c, request, ended, stage)
  }

  ghost predicate Transacted(c: Span, me: Worker, request: Request, operation: Operation, ended: Stage) {
    (ended.Returned? && ended.outcome.Executed?) || Halts(c, me, request, operation, ended)
  }

  lemma ToldInTheEnd(c: Span, found: Span, transacted: Span, resolved: Span, me: Worker, request: Request, operation: Operation,
                     done: Result<Completed, Stage>, stage: Stage)
    requires Inside(found, c) && Inside(transacted, c) && Inside(resolved, c)
    requires LookedUp(found, c.from, request.key, request.fingerprint, Ok(None))
    requires done.Err? ==> Halts(transacted, me, request, operation, done.error)
    requires Resolved(resolved, request, Ended(done), stage)
    ensures Told(c, me, request, operation, stage)
  {
    LookedUpWider(found, c, c.from, request.key, request.fingerprint, Ok(None));
    if done.Err? {
      HaltsWider(transacted, c, me, request, operation, done.error);
    }
    assert Transacted(c, me, request, operation, Ended(done));
    if Ended(done).Querying? {
      var k: nat, r :| LookedUp(resolved, k, request.key, request.fingerprint, r) && stage == Found(Ended(done).cause, r);
      LookedUpWider(resolved, c, k, request.key, request.fingerprint, r);
    }
    assert Resolved(c, request, Ended(done), stage);
  }

  /** What an attempt reports to its caller. */
  function Report(stage: Stage): Result<Outcome, ExecutionError>
    requires stage.Returned? || stage.Gone?
  {
    if stage.Gone? then Err(TaskCancelled)
    else if stage.outcome.Raised? then Err(Failed(stage.outcome.error))
    else Ok(stage.outcome)
  }

  predicate ReportsAs(stage: Stage, r: Result<Outcome, ExecutionError>) {
    (stage.Returned? || stage.Gone?) && r == Report(stage)
  }

  /** The stage after a commit that is not acknowledged. */
  function Lost(tx: Tx, record: Record, f: Fault): Stage {
    if f.Driver? && ErrorOf(f.error).Unavailable? then Returned(Raised(Unavailable)) else Interrupted(Recorded(tx, record), f)
  }

  lemma WhyLost(c: Span, k: nat, f: Fault, me: Worker, request: Request, tx: Tx, record: Record)
    requires Cut(c, k, f)
    ensures Why(c, me, request, Lost(tx, record, f))
  {
    WhyInterrupted(c, k, f, me, request, Recorded(tx, record));
  }

  /** Where an upsert leaves its attempt; `now` is the clock reading of the record. */
  function AfterUpsert(tx: Tx, completed: Completed, now: Time, r: Result<bool, Stage>): Stage {
    match r
    case Err(stage) => stage
    case Ok(true) => Recorded(tx, Record(completed, now))
    case Ok(false) => Querying(Some(LostUpsert(now)))
  }

  /** The answer to an upsert, whose first await is the clock reading: refused for an expired result and for a live record. */
  ghost predicate Answered(c: Span, me: Worker, request: Request, completed: Completed, r: Result<bool, Stage>) {
    var now := c.turns(c.from).now;
    && c.from < c.to
    && (completed.expiresAt <= now ==> r == Err(RolledBack(Unavailable)))
    && (r.Err? && completed.expiresAt > now ==> Why(c, me, request, r.error))
    && (r.Ok? && !r.value ==> exists n: nat :: Moment(c, n) && LookUp(WorldAt(c, n).db.records, request.key, now).Some?)
  }

  lemma WhyNotAdded(a: Span, c: Span, me: Worker, request: Request, tx: Tx, completed: Completed, r: Result<bool, Stage>)
    requires Inside(a, c) && a.from == c.from + 1 && completed.expiresAt == c.turns(c.from).now + request.retentionSeconds * SECOND
    requires Answered(a, me, request, completed, r) && (r.Err? || !r.value)
    ensures Why(c, me, request, AfterUpsert(tx, completed, a.turns(a.from).now, r))
  {
    if r.Ok? {
      assert LostTo(a, request.key, a.turns(a.from).now);
      WhyWider(a, c, me, request, Querying(Some(LostUpsert(a.turns(a.from).now))));
    } else if completed.expiresAt <= a.turns(a.from).now {
      assert Outlived(c.turns(c.from).now, request, c.turns(c.from + 1).now);
    } else {
      WhyWider(a, c, me, request, r.error);
    }
  }

  // ---- what an attempt commits ----

  /** Commit `i` of the log is the operation's: its writes to the rows committed by then, and its result as the record. */
  ghost predicate CommitsOperation(log: seq<Commit>, i: nat, request: Request, operation: Operation)
    requires i < |log|
  {
    && log[i].request == request && log[i].record.Some?
    && exists tx: Tx ::
         && log[i].writes == tx.writes && operation.finish(tx) == Some(log[i].record.value.completed.result)
         && Performed(operation, request.command, tx, S.RowsOf(log[..i]).Keys)
  }

  /** Whatever `me` has committed is what its operation asked for. */
  ghost predicate OnlyOperation(log: seq<Commit>, me: Worker, request: Request, operation: Operation) {
    forall i :: 0 <= i < |log| && log[i].worker == me ==> CommitsOperation(log, i, request, operation)
  }

  lemma NothingCommitted(log: seq<Commit>, me: Worker, request: Request, operation: Operation)
    requires O.CommitsBy(log, me) == 0
    ensures OnlyOperation(log, me, request, operation)
  {
    forall i: nat | i < |log| ensures log[i].worker != me {
      NoneOfMine(log, me, i);
    }
  }

  lemma OperationCommitted(log: seq<Commit>, c: Commit, tx: Tx, operation: Operation)
    requires O.CommitsBy(log, c.worker) == 0 && c.writes == tx.writes && c.record.Some?
    requires operation.finish(tx) == Some(c.record.value.completed.result)
    requires Performed(operation, c.request.command, tx, S.RowsOf(log).Keys)
    ensures OnlyOperation(log + [c], c.worker, c.request, operation)
  {
    var log' := log + [c];
    assert log'[..|log|] == log;
    forall i: nat | i < |log'| && log'[i].worker == c.worker ensures CommitsOperation(log', i, c.request, operation) {
      if i < |log| { NoneOfMine(log, c.worker, i); }
    }
  }

  /** Committing the transaction commits the operation, and not committing it commits nothing. */
  lemma WhetherItLandsOrNot(es: seq<Event>, me: Worker, request: Request, tx: Tx, record: Record, operation: Operation,
                            committed: set<RowId>)
    requires var db := Run(INITIAL, es).db;
             && O.CommitsBy(db.log, me) == 0 && operation.finish(tx) == Some(record.completed.result)
             && Performed(operation, request.command, tx, committed) && committed <= db.rows.Keys
    ensures var db := Run(INITIAL, es).db;
            && OnlyOperation(db.log, me, request, operation)
            && OnlyOperation(Publish(db, me, request, tx.writes, Some(record)).log, me, request, operation)
  {
    var db := Run(INITIAL, es).db;
    S.Reachable(es);
    StillPerformed(operation, request.command, tx, committed, db.rows.Keys);
    NothingCommitted(db.log, me, request, operation);
    OperationCommitted(db.log, Commit(me, request, tx.writes, Some(record)), tx, operation);
  }

  lemma ProvisionNext(rows: seq<RowId>, done: nat, initial: nat -> Content, writes: Writes, before: set<RowId>, committed: set<RowId>)
    requires done < |rows| && before <= committed && Provisioned(rows, done, initial, writes, before)
    ensures var u := rows[done];
            Provisioned(rows, done + 1, initial,
                        if u in committed || u in writes then writes else writes[u := Write(None, Row(1, initial(done)))],
                        committed)
  {
    var u := rows[done];
    var writes' := if u in committed || u in writes then writes else writes[u := Write(None, Row(1, initial(done)))];
    forall x | x in writes' ensures exists k :: 0 <= k < done + 1 && rows[k] == x && writes'[x] == Write(None, Row(1, initial(k))) {
      if x in writes {
        var k :| 0 <= k < done && rows[k] == x && writes[x] == Write(None, Row(1, initial(k)));
        assert 0 <= k < done + 1 && rows[k] == x;
      } else {
        assert rows[done] == x;
      }
    }
  }

  /**
   An execution means one commit of the request with the reported record. A replay is a committed record of the key and
   fingerprint and means no commit of its own, as does a conflict or an error, except that an unavailable database and a
   cancellation leave the one commit open.
   */
  ghost predicate TellsTheCommit(log: seq<Commit>, me: Worker, request: Request, r: Result<Outcome, ExecutionError>) {
    && (r.Ok? && r.value.Executed? ==> O.CommitsBy(log, me) == 1 && O.CommittedAs(log, me, request, r.value.completed))
    && (r.Ok? && r.value.Replayed? ==>
          && O.CommitsBy(log, me) == 0
          && S.Committed(log, request.key, r.value.completed) && r.value.completed.fingerprint == request.fingerprint)
    && (r.Ok? && r.value.KeyConflict? ==> O.CommitsBy(log, me) == 0)
    && (r.Err? ==> O.CommitsBy(log, me) <= if r.error in {TaskCancelled, Failed(Unavailable)} then 1 else 0)
  }

  lemma EndTellsTheCommit(es: seq<Event>, me: Worker, request: Request, stage: Stage)
    requires At(Run(INITIAL, es), me, request, stage) && (stage.Returned? || stage.Gone?)
    ensures TellsTheCommit(Run(INITIAL, es).db.log, me, request, Report(stage))
  {
    O.OutcomeTellsTheCommit(es, me);
    S.Reachable(es);
    assert S.AttemptOk(Run(INITIAL, es).db, Run(INITIAL, es).attempts[me]);
  }
}
