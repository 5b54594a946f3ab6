/** What holds over every run of the durable execution protocol. */
module DurableSafety {
  import opened Results
  import opened Models
  import opened DurableProtocol

  // ---- the log determines the committed state ----

  function RecordsOf(log: seq<Commit>): map<Identity, Record> {
    if log == [] then map[] else
      var c, before := log[|log| - 1], RecordsOf(log[..|log| - 1]);
      if c.record.Some? then before[c.request.key := c.record.value] else before
  }

  function RowsOf(log: seq<Commit>): map<RowId, Row> {
    if log == [] then map[] else ApplyWrites(RowsOf(log[..|log| - 1]), log[|log| - 1].writes)
  }

  /** The writes a command may commit, each computed from the row committed last. */
  predicate WritesOk(rows: map<RowId, Row>, c: Command, writes: Writes) {
    forall u :: u in writes ==>
      && writes[u].basis == RowAt(rows, u)
      && writes[u].row.version == (if writes[u].basis.Some? then writes[u].basis.value.version + 1 else 1)
      && match c
         case Update(row, expected) => u == row && writes[u].basis.Some? && writes[u].basis.value.version == expected
         case Provision(_) => writes[u].basis.None?
  }

  predicate RecordOk(records: map<Identity, Record>, r: Request, record: Record) {
    && record.completed.fingerprint == r.fingerprint
    && record.createdAt < record.completed.expiresAt
    && MayReplace(records, r.key, record.createdAt)
  }

  /** A commit carries its effect and its record together, and both fit what was committed before. */
  predicate CommitOk(c: Commit, before: seq<Commit>) {
    && c.record.Some?
    && RecordOk(RecordsOf(before), c.request, c.record.value)
    && WritesOk(RowsOf(before), c.request.command, c.writes)
  }

  predicate LogOk(log: seq<Commit>) {
    log == [] || (LogOk(log[..|log| - 1]) && CommitOk(log[|log| - 1], log[..|log| - 1]))
  }

  // ---- what each attempt knows ----

  /** `completed` was committed under this key. */
  ghost predicate Committed(log: seq<Commit>, key: Identity, completed: Completed) {
    exists i :: 0 <= i < |log| && log[i].request.key == key && log[i].record.Some? && log[i].record.value.completed == completed
  }

  /** Some record committed under this key outlives `stamp`. */
  ghost predicate Blocked(log: seq<Commit>, key: Identity, stamp: Time) {
    exists i :: 0 <= i < |log| && log[i].request.key == key && log[i].record.Some? && log[i].record.value.completed.expiresAt > stamp
  }

  predicate ReadOk(rows: map<RowId, Row>, c: Command, read: Option<Row>) {
    read.Some? ==>
      && c.Update? && read.value.version == c.expected
      && c.row in rows && rows[c.row].version >= read.value.version
      && (rows[c.row].version == read.value.version ==> rows[c.row] == read.value)
  }

  predicate TxOk(db: Database, r: Request, tx: Tx) {
    ReadOk(db.rows, r.command, tx.read) && WritesOk(db.rows, r.command, tx.writes)
  }

  ghost predicate AttemptOk(db: Database, a: Attempt) {
    var r := a.request;
    match a.stage
    case Querying(cause) => CauseOk(db, r, cause)
    case Judging(cause, found) =>
      CauseOk(db, r, cause) && (found.Some? ==> Committed(db.log, r.key, found.value))
    case Handling(tx) => TxOk(db, r, tx)
    case Encoded(tx, completed) => TxOk(db, r, tx) && completed.fingerprint == r.fingerprint
    case Stamped(tx, record) =>
      TxOk(db, r, tx) && record.completed.fingerprint == r.fingerprint && record.createdAt < record.completed.expiresAt
    case Recorded(tx, record) => TxOk(db, r, tx) && RecordOk(db.records, r, record)
    case Returned(outcome) => OutcomeOk(db, r, outcome)
    case Gone => true
  }

  ghost predicate CauseOk(db: Database, r: Request, cause: Option<Cause>) {
    cause.Some? && cause.value.LostUpsert? ==> Blocked(db.log, r.key, cause.value.stamp)
  }

  ghost predicate OutcomeOk(db: Database, r: Request, outcome: Outcome) {
    outcome.Executed? || outcome.Replayed? ==>
      Committed(db.log, r.key, outcome.completed) && outcome.completed.fingerprint == r.fingerprint
  }

  /** No two transactions hold the same row or the same key. */
  predicate Exclusive(attempts: map<Worker, Attempt>) {
    forall x, y :: x in attempts && y in attempts && x != y ==>
      && PendingWrites(attempts[x].stage).Keys !! PendingWrites(attempts[y].stage).Keys
      && !(HoldsKey(attempts[x], attempts[y].request.key) && HoldsKey(attempts[y], attempts[y].request.key))
  }

  ghost predicate Inv(w: World) {
    && w.db.records == RecordsOf(w.db.log) && w.db.rows == RowsOf(w.db.log) && LogOk(w.db.log)
    && (forall x :: x in w.attempts ==> AttemptOk(w.db, w.attempts[x]))
    && Exclusive(w.attempts)
  }

  // ---- steps keep it ----

  lemma CommittedStays(log: seq<Commit>, c: Commit, key: Identity, completed: Completed)
    requires Committed(log, key, completed)
    ensures Committed(log + [c], key, completed)
  {
    var i :| 0 <= i < |log| && log[i].request.key == key && log[i].record.Some? && log[i].record.value.completed == completed;
    assert (log + [c])[i] == log[i];
  }

  lemma BlockedStays(log: seq<Commit>, c: Commit, key: Identity, stamp: Time)
    requires Blocked(log, key, stamp)
    ensures Blocked(log + [c], key, stamp)
  {
    var i :| 0 <= i < |log| && log[i].request.key == key && log[i].record.Some? && log[i].record.value.completed.expiresAt > stamp;
    assert (log + [c])[i] == log[i];
  }

  lemma {:induction false} RecordsAreCommitted(log: seq<Commit>, key: Identity)
    requires key in RecordsOf(log)
    ensures Committed(log, key, RecordsOf(log)[key].completed)
    ensures exists i :: 0 <= i < |log| && log[i].request.key == key && log[i].record == Some(RecordsOf(log)[key])
  {
    var before, c := log[..|log| - 1], log[|log| - 1];
    assert log == before + [c];
    if c.record.Some? && c.request.key == key {
      assert log[|log| - 1].record == Some(RecordsOf(log)[key]);
    } else {
      RecordsAreCommitted(before, key);
      CommittedStays(before, c, key, RecordsOf(log)[key].completed);
      var i :| 0 <= i < |before| && before[i].request.key == key && before[i].record == Some(RecordsOf(before)[key]);
      assert log[i] == before[i];
    }
  }

  /** A transaction that shares no row and no key with a commit keeps its knowledge across it. */
  lemma SurvivesPublish(db: Database, worker: Worker, r: Request, writes: Writes, record: Record, a: Attempt)
    requires AttemptOk(db, a) && WritesOk(db.rows, r.command, writes)
    requires PendingWrites(a.stage).Keys !! writes.Keys
    requires !HoldsKey(a, r.key)
    ensures AttemptOk(Publish(db, worker, r, writes, Some(record)), a)
  {
    var db' := Publish(db, worker, r, writes, Some(record));
    var c := Commit(worker, r, writes, Some(record));
    assert db'.log == db.log + [c];
    match a.stage {
      case Querying(cause) => CauseSurvives(db, c, db', a.request, cause);
      case Judging(cause, found) =>
        CauseSurvives(db, c, db', a.request, cause);
        if found.Some? { CommittedStays(db.log, c, a.request.key, found.value); }
      case Handling(tx) => TxSurvives(db, worker, r, writes, record, a.request, tx);
      case Encoded(tx, _) => TxSurvives(db, worker, r, writes, record, a.request, tx);
      case Stamped(tx, _) => TxSurvives(db, worker, r, writes, record, a.request, tx);
      case Recorded(tx, _) => TxSurvives(db, worker, r, writes, record, a.request, tx);
      case Returned(outcome) =>
        if outcome.Executed? || outcome.Replayed? { CommittedStays(db.log, c, a.request.key, outcome.completed); }
      case Gone =>
    }
  }

  lemma CauseSurvives(db: Database, c: Commit, db': Database, r: Request, cause: Option<Cause>)
    requires CauseOk(db, r, cause) && db'.log == db.log + [c]
    ensures CauseOk(db', r, cause)
  {
    if cause.Some? && cause.value.LostUpsert? {
      BlockedStays(db.log, c, r.key, cause.value.stamp);
    }
  }

  lemma TxSurvives(db: Database, worker: Worker, r: Request, writes: Writes, record: Record, mine: Request, tx: Tx)
    requires TxOk(db, mine, tx) && WritesOk(db.rows, r.command, writes) && tx.writes.Keys !! writes.Keys
    ensures TxOk(Publish(db, worker, r, writes, Some(record)), mine, tx)
  {
    var rows := ApplyWrites(db.rows, writes);
    forall u | u in tx.writes ensures RowAt(rows, u) == RowAt(db.rows, u) {
      assert u !in writes;
    }
  }

  lemma PublishKeepsLog(db: Database, worker: Worker, r: Request, writes: Writes, record: Record)
    requires db.records == RecordsOf(db.log) && db.rows == RowsOf(db.log) && LogOk(db.log)
    requires RecordOk(db.records, r, record) && WritesOk(db.rows, r.command, writes)
    ensures var db' := Publish(db, worker, r, writes, Some(record));
            db'.records == RecordsOf(db'.log) && db'.rows == RowsOf(db'.log) && LogOk(db'.log)
  {
    var c := Commit(worker, r, writes, Some(record));
    assert (db.log + [c])[..|db.log|] == db.log;
  }

  lemma QueryOk(w: World, e: Event)
    requires Inv(w) && Enabled(w, e) && e.Query?
    ensures var a := w.attempts[e.worker]; AttemptOk(w.db, a.(stage := NextStage(w.db, a, e)))
  {
    var a := w.attempts[e.worker];
    assert AttemptOk(w.db, a);
    if LookUp(w.db.records, a.request.key, e.now).Some? { RecordsAreCommitted(w.db.log, a.request.key); }
  }

  lemma UpsertOk(w: World, e: Event)
    requires Inv(w) && Enabled(w, e) && e.Upsert?
    ensures var a := w.attempts[e.worker]; AttemptOk(w.db, a.(stage := NextStage(w.db, a, e)))
  {
    var a := w.attempts[e.worker];
    assert AttemptOk(w.db, a);
    if !MayReplace(w.db.records, a.request.key, a.stage.record.createdAt) {
      RecordsAreCommitted(w.db.log, a.request.key);
    }
  }

  lemma HandlerOk(w: World, e: Event)
    requires Inv(w) && Enabled(w, e) && (e.Read? || e.Change? || e.Insert?)
    ensures var a := w.attempts[e.worker]; AttemptOk(w.db, a.(stage := NextStage(w.db, a, e)))
  {
    assert AttemptOk(w.db, w.attempts[e.worker]);
  }

  /** The stage an attempt enters without committing is justified by the same database. */
  lemma NextStageOk(w: World, e: Event)
    requires Inv(w) && Enabled(w, e) && !e.Arrive? && !Publishes(e)
    ensures var a := w.attempts[e.worker]; AttemptOk(w.db, a.(stage := NextStage(w.db, a, e)))
  {
    if e.Query? {
      QueryOk(w, e);
    } else if e.Upsert? {
      UpsertOk(w, e);
    } else if e.Read? || e.Change? || e.Insert? {
      HandlerOk(w, e);
    } else {
      assert AttemptOk(w.db, w.attempts[e.worker]);
    }
  }

  /** The row a step locks, if any. */
  function Locks(a: Attempt, e: Event): set<RowId> {
    if e.Change? && a.request.command.Update? then {a.request.command.row}
    else if e.Insert? && a.stage.Handling? && a.request.command.Provision? && a.stage.tx.inserted < |a.request.command.rows|
    then {a.request.command.rows[a.stage.tx.inserted]}
    else {}
  }

  lemma WritesGrow(w: World, e: Event)
    requires Enabled(w, e) && !e.Arrive?
    ensures var a := w.attempts[e.worker];
            PendingWrites(NextStage(w.db, a, e)).Keys <= PendingWrites(a.stage).Keys + Locks(a, e)
  {
  }

  lemma LocksWereFree(w: World, e: Event, y: Worker)
    requires Enabled(w, e) && !e.Arrive? && y in w.attempts && y != e.worker
    ensures Locks(w.attempts[e.worker], e) !! PendingWrites(w.attempts[y].stage).Keys
  {
  }

  lemma KeyWasFree(w: World, e: Event, y: Worker, key: Identity)
    requires Inv(w) && Enabled(w, e) && !e.Arrive? && y in w.attempts && y != e.worker
    ensures var a := w.attempts[e.worker];
            !(HoldsKey(a.(stage := NextStage(w.db, a, e)), key) && HoldsKey(w.attempts[y], key))
  {
  }

  /** New locks are taken only when nobody holds them. */
  lemma NextStageExclusive(w: World, e: Event)
    requires Inv(w) && Enabled(w, e) && !e.Arrive?
    ensures var a := w.attempts[e.worker];
            Exclusive(w.attempts[e.worker := a.(stage := NextStage(w.db, a, e))])
  {
    var a := w.attempts[e.worker];
    var a' := a.(stage := NextStage(w.db, a, e));
    WritesGrow(w, e);
    forall y | y in w.attempts && y != e.worker
      ensures PendingWrites(a'.stage).Keys !! PendingWrites(w.attempts[y].stage).Keys
      ensures forall key :: !(HoldsKey(a', key) && HoldsKey(w.attempts[y], key))
    {
      LocksWereFree(w, e, y);
      KeyWasFree(w, e, y, a.request.key);
    }
  }

  lemma ArriveKeepsInv(w: World, e: Event)
    requires Inv(w) && e.Arrive?
    ensures Inv(Step(w, e))
  {
    assert forall x :: x in w.attempts ==> x in Step(w, e).attempts && Step(w, e).attempts[x] == w.attempts[x];
  }

  lemma QuietStepKeepsInv(w: World, e: Event)
    requires Inv(w) && !Publishes(e)
    ensures Inv(Step(w, e))
  {
    if e.Arrive? {
      ArriveKeepsInv(w, e);
    } else if Enabled(w, e) {
      NextStageOk(w, e);
      NextStageExclusive(w, e);
    }
  }

  lemma CommitKeepsInv(w: World, e: Event)
    requires Inv(w) && Publishes(e)
    ensures Inv(Step(w, e))
  {
    if Enabled(w, e) {
      var a := w.attempts[e.worker];
      var tx, record := a.stage.tx, a.stage.record;
      assert AttemptOk(w.db, a);
      PublishKeepsLog(w.db, e.worker, a.request, tx.writes, record);
      var w' := Step(w, e);
      forall x | x in w'.attempts ensures AttemptOk(w'.db, w'.attempts[x]) {
        if x == e.worker {
          assert w'.db.log[|w.db.log|].record == Some(record);
        } else {
          assert HoldsKey(a, a.request.key);
          assert PendingWrites(w.attempts[x].stage).Keys !! PendingWrites(a.stage).Keys;
          SurvivesPublish(w.db, e.worker, a.request, tx.writes, record, w.attempts[x]);
        }
      }
      NextStageExclusive(w, e);
    }
  }

  lemma StepKeepsInv(w: World, e: Event)
    requires Inv(w)
    ensures Inv(Step(w, e))
  {
    if Publishes(e) { CommitKeepsInv(w, e); } else { QuietStepKeepsInv(w, e); }
  }

  lemma {:induction false} Reachable(es: seq<Event>)
    ensures Inv(Run(INITIAL, es))
  {
    if es != [] {
      Reachable(es[..|es| - 1]);
      StepKeepsInv(Run(INITIAL, es[..|es| - 1]), es[|es| - 1]);
    }
  }

  lemma {:induction false} RunOn(w: World, es: seq<Event>, more: seq<Event>)
    ensures Run(w, es + more) == Run(Run(w, es), more)
  {
    if more == [] {
      assert es + more == es;
    } else {
      RunOn(w, es, more[..|more| - 1]);
      assert (es + more)[..|es + more| - 1] == es + more[..|more| - 1];
    }
  }

  /** The other attempts leave an attempt and its locks alone. */
  predicate SameAttempt(w: World, w': World, me: Worker) {
    (me in w'.attempts <==> me in w.attempts) && (me in w.attempts ==> w'.attempts[me] == w.attempts[me])
  }

  lemma OthersLeaveMine(w: World, e: Event, me: Worker)
    requires e.worker != me
    ensures SameAttempt(w, Step(w, e), me)
  {
  }

  /** Events of other attempts. */
  predicate OfOthers(es: seq<Event>, me: Worker) {
    forall e :: e in es ==> e.worker != me
  }

  lemma {:induction false} OthersRunLeavesMine(w: World, es: seq<Event>, me: Worker)
    requires OfOthers(es, me)
    ensures SameAttempt(w, Run(w, es), me)
  {
    if es != [] {
      assert forall e :: e in es[..|es| - 1] ==> e in es;
      OthersRunLeavesMine(w, es[..|es| - 1], me);
      OthersLeaveMine(Run(w, es[..|es| - 1]), es[|es| - 1], me);
    }
  }

  // ---- at most one committed effect per retention window ----

  lemma {:induction false} CommitAt(log: seq<Commit>, i: nat)
    requires LogOk(log) && i < |log|
    ensures LogOk(log[..i]) && CommitOk(log[i], log[..i])
  {
    if i < |log| - 1 {
      CommitAt(log[..|log| - 1], i);
      assert log[..|log| - 1][..i] == log[..i];
    }
  }

  /** The stored record is the one a commit left, or a later one whose window starts after it. */
  lemma {:induction false} LaterRecord(log: seq<Commit>, i: nat)
    requires LogOk(log) && i < |log|
    ensures log[i].record.Some? && log[i].request.key in RecordsOf(log)
    ensures var latest, mine := RecordsOf(log)[log[i].request.key], log[i].record.value;
            latest == mine || mine.completed.expiresAt <= latest.createdAt
    ensures RecordsOf(log)[log[i].request.key].createdAt < RecordsOf(log)[log[i].request.key].completed.expiresAt
  {
    var before := log[..|log| - 1];
    if i < |log| - 1 {
      LaterRecord(before, i);
    }
  }

  lemma LogWindows(log: seq<Commit>, i: nat, j: nat)
    requires LogOk(log) && i < j < |log| && log[i].request.key == log[j].request.key
    ensures log[i].record.Some? && log[j].record.Some?
    ensures log[i].record.value.completed.expiresAt <= log[j].record.value.createdAt
  {
    CommitAt(log, j);
    LaterRecord(log[..j], i);
  }

  /**
   In every run each committed effect comes with exactly one record, for its own request, and the windows
   [createdAt, expiresAt) of the records of one key never overlap, whatever the clocks read.
   */
  lemma {:induction false} OneEffectPerWindow(es: seq<Event>, i: nat, j: nat)
    requires i < j < |Run(INITIAL, es).db.log|
    ensures var log := Run(INITIAL, es).db.log;
            && log[i].record.Some? && log[j].record.Some?
            && log[i].record.value.completed.fingerprint == log[i].request.fingerprint
            && log[i].record.value.createdAt < log[i].record.value.completed.expiresAt
            && (log[i].request.key == log[j].request.key ==>
                  log[i].record.value.completed.expiresAt <= log[j].record.value.createdAt)
  {
    Reachable(es);
    var log := Run(INITIAL, es).db.log;
    CommitAt(log, i);
    CommitAt(log, j);
    if log[i].request.key == log[j].request.key {
      LogWindows(log, i, j);
    }
  }

  /** The window of a commit's record contains `t`. */
  predicate InWindow(c: Commit, t: Time) {
    c.record.Some? && c.record.value.createdAt <= t < c.record.value.completed.expiresAt
  }

  /** At any time at most one committed record of a key is in force. */
  lemma WindowIsUnique(log: seq<Commit>, i: nat, j: nat, t: Time)
    requires LogOk(log) && i < |log| && j < |log| && log[i].request.key == log[j].request.key
    requires InWindow(log[i], t) && InWindow(log[j], t)
    ensures i == j
  {
    if i < j { LogWindows(log, i, j); } else if j < i { LogWindows(log, j, i); }
  }

  // ---- no lost updates ----

  /** How many commits wrote a row. */
  function WriteCount(log: seq<Commit>, u: RowId): nat {
    if log == [] then 0
    else WriteCount(log[..|log| - 1], u) + if u in log[|log| - 1].writes then 1 else 0
  }

  lemma {:induction false} VersionCountsWrites(log: seq<Commit>, u: RowId)
    requires LogOk(log)
    ensures u in RowsOf(log) <==> WriteCount(log, u) > 0
    ensures u in RowsOf(log) ==> RowsOf(log)[u].version == WriteCount(log, u)
  {
    if log != [] {
      VersionCountsWrites(log[..|log| - 1], u);
    }
  }

  lemma {:induction false} WriteCountGrows(log: seq<Commit>, u: RowId, i: nat)
    requires i < |log| && u in log[i].writes
    ensures WriteCount(log[..i], u) < WriteCount(log, u)
  {
    if i < |log| - 1 {
      WriteCountGrows(log[..|log| - 1], u, i);
      assert log[..|log| - 1][..i] == log[..i];
    }
  }

  /** A committed write starts from the row committed last, and takes the next version. */
  lemma WriteAt(log: seq<Commit>, u: RowId, i: nat)
    requires LogOk(log) && i < |log| && u in log[i].writes
    ensures log[i].writes[u].basis == RowAt(RowsOf(log[..i]), u)
    ensures log[i].writes[u].row.version == WriteCount(log[..i], u) + 1
    ensures RowAt(RowsOf(log[..i + 1]), u) == Some(log[i].writes[u].row)
  {
    CommitAt(log, i);
    VersionCountsWrites(log[..i], u);
    assert log[..i + 1][..i] == log[..i];
  }

  /**
   In every run the committed versions of a row are 1, 2, 3, ... , the current one counts the commits that wrote
   it, and each commit computed its row from the state the previous writer committed.
   */
  lemma {:induction false} NoLostUpdates(es: seq<Event>, u: RowId, i: nat)
    requires i < |Run(INITIAL, es).db.log| && u in Run(INITIAL, es).db.log[i].writes
    ensures var db := Run(INITIAL, es).db;
            && db.log[i].writes[u].basis == RowAt(RowsOf(db.log[..i]), u)
            && db.log[i].writes[u].row.version == WriteCount(db.log[..i], u) + 1
            && RowAt(RowsOf(db.log[..i + 1]), u) == Some(db.log[i].writes[u].row)
            && u in db.rows && db.rows[u].version == WriteCount(db.log, u)
  {
    Reachable(es);
    var db := Run(INITIAL, es).db;
    WriteAt(db.log, u, i);
    VersionCountsWrites(db.log, u);
    WriteCountGrows(db.log, u, i);
  }

  lemma VersionHasOneWriter(log: seq<Commit>, u: RowId, i: nat, j: nat)
    requires LogOk(log) && i < j < |log| && u in log[i].writes && u in log[j].writes
    ensures log[i].writes[u].row.version < log[j].writes[u].row.version
  {
    WriteAt(log, u, i);
    WriteAt(log, u, j);
    WriteCountGrows(log[..j], u, i);
    assert log[..j][..i] == log[..i];
  }

  /** No version is written twice. */
  lemma {:induction false} EachVersionHasOneWriter(es: seq<Event>, u: RowId, i: nat, j: nat)
    requires var log := Run(INITIAL, es).db.log;
             i < |log| && j < |log| && u in log[i].writes && u in log[j].writes
    ensures var log := Run(INITIAL, es).db.log;
            log[i].writes[u].row.version == log[j].writes[u].row.version <==> i == j
  {
    Reachable(es);
    var log := Run(INITIAL, es).db.log;
    if i < j { VersionHasOneWriter(log, u, i, j); } else if j < i { VersionHasOneWriter(log, u, j, i); }
  }

  /** However often one versioned command is sent, under whatever keys, at most one commit of it changes the row. */
  lemma {:induction false} VersionedCommandChangesOnce(es: seq<Event>, u: RowId, expected: nat, i: nat, j: nat)
    requires var log := Run(INITIAL, es).db.log;
             && i < |log| && j < |log| && u in log[i].writes && u in log[j].writes
             && log[i].request.command == Update(u, expected) && log[j].request.command == Update(u, expected)
    ensures i == j
  {
    Reachable(es);
    var log := Run(INITIAL, es).db.log;
    CommitAt(log, i);
    CommitAt(log, j);
    EachVersionHasOneWriter(es, u, i, j);
  }

  // ---- duplicates converge ----

  /** No record has been created after `t`: what the readings of one shared clock satisfy. */
  predicate CreatedBy(log: seq<Commit>, t: Time) {
    forall i :: 0 <= i < |log| && log[i].record.Some? ==> log[i].record.value.createdAt <= t
  }

  /** While a committed record is in force, the lookup finds it. */
  lemma LookUpFindsTheWinner(db: Database, i: nat, t: Time)
    requires db.records == RecordsOf(db.log) && LogOk(db.log) && CreatedBy(db.log, t)
    requires i < |db.log| && Unexpired(db.log[i], t)
    ensures LookUp(db.records, db.log[i].request.key, t) == Some(db.log[i].record.value.completed)
  {
    LaterRecord(db.log, i);
    RecordsAreCommitted(db.log, db.log[i].request.key);
  }

  predicate Unexpired(c: Commit, t: Time) {
    c.record.Some? && t < c.record.value.completed.expiresAt
  }

  /** And it finds nothing else: what a lookup finds is the one record whose window contains its reading. */
  lemma LookUpIsExact(db: Database, key: Identity, t: Time, found: Completed)
    requires db.records == RecordsOf(db.log) && LogOk(db.log) && CreatedBy(db.log, t)
    ensures LookUp(db.records, key, t) == Some(found) <==>
              exists i :: 0 <= i < |db.log| && db.log[i].request.key == key && InWindow(db.log[i], t)
                          && db.log[i].record.value.completed == found
  {
    if LookUp(db.records, key, t) == Some(found) {
      RecordsAreCommitted(db.log, key);
      var i :| 0 <= i < |db.log| && db.log[i].request.key == key && db.log[i].record == Some(RecordsOf(db.log)[key]);
      assert InWindow(db.log[i], t);
    }
    if i :| 0 <= i < |db.log| && db.log[i].request.key == key && InWindow(db.log[i], t)
            && db.log[i].record.value.completed == found {
      LookUpFindsTheWinner(db, i, t);
    }
  }

  /** A lookup and its judgement, with any steps of others in between and two clock readings. */
  function LookedUpAndJudged(s: World, w: Worker, t: Time, between: seq<Event>, t': Time): World {
    Step(Run(Step(s, Query(w, t)), between), Judge(w, t'))
  }

  lemma LookUpSteps(s: World, w: Worker, t: Time, between: seq<Event>, t': Time)
    requires w in s.attempts && s.attempts[w].stage.Querying? && OfOthers(between, w)
    ensures var a := s.attempts[w];
            var j := Judgement(LookUp(s.db.records, a.request.key, t), a.request.fingerprint, t');
            var s' := LookedUpAndJudged(s, w, t, between, t');
            w in s'.attempts && s'.attempts[w].stage == if j.Some? then Returned(j.value) else NothingFound(a.stage.cause)
  {
    OthersRunLeavesMine(Step(s, Query(w, t)), between, w);
  }

  /**
   An attempt that rolled back, for whatever reason, returns the replay of a duplicate's committed record
   as long as that record is in force, whatever others do between the lookup and its judgement.
   */
  lemma {:induction false} DuplicatesConverge(es: seq<Event>, w: Worker, i: nat, t: Time, between: seq<Event>, t': Time)
    requires var s := Run(INITIAL, es);
             && w in s.attempts && s.attempts[w].stage.Querying? && OfOthers(between, w)
             && i < |s.db.log| && s.db.log[i].request.key == s.attempts[w].request.key
             && s.db.log[i].request.fingerprint == s.attempts[w].request.fingerprint
             && CreatedBy(s.db.log, t)
             && Unexpired(s.db.log[i], t) && Unexpired(s.db.log[i], t')
    ensures var s := Run(INITIAL, es);
            var s' := LookedUpAndJudged(s, w, t, between, t');
            w in s'.attempts && s'.attempts[w].stage == Returned(Replayed(s.db.log[i].record.value.completed))
  {
    Reachable(es);
    var s := Run(INITIAL, es);
    CommitAt(s.db.log, i);
    LookUpFindsTheWinner(s.db, i, t);
    LookUpSteps(s, w, t, between, t');
  }

  /** Some committed record of the key is in force at `t` and still at `t'`; its request has this fingerprint, or another one. */
  ghost predicate InForceFor(log: seq<Commit>, key: Identity, t: Time, t': Time, fingerprint: Digest, same: bool) {
    exists i :: 0 <= i < |log| && log[i].request.key == key && InWindow(log[i], t) && Unexpired(log[i], t')
                && (log[i].request.fingerprint == fingerprint <==> same)
  }

  /** The judgement of a lookup tells which records are in force. */
  lemma JudgementIsExact(db: Database, key: Identity, fp: Digest, t: Time, t': Time)
    requires db.records == RecordsOf(db.log) && LogOk(db.log) && CreatedBy(db.log, t)
    ensures var j := Judgement(LookUp(db.records, key, t), fp, t');
            && (j == Some(KeyConflict) <==> InForceFor(db.log, key, t, t', fp, false))
            && (j.Some? && j.value.Replayed? <==> InForceFor(db.log, key, t, t', fp, true))
  {
    forall i | 0 <= i < |db.log| && db.log[i].request.key == key && InWindow(db.log[i], t)
      ensures LookUp(db.records, key, t) == Some(db.log[i].record.value.completed)
      ensures db.log[i].record.value.completed.fingerprint == db.log[i].request.fingerprint
    {
      LookUpFindsTheWinner(db, i, t);
      CommitAt(db.log, i);
    }
    if LookUp(db.records, key, t).Some? {
      LookUpIsExact(db, key, t, LookUp(db.records, key, t).value);
    }
  }

  /**
   How an attempt goes on that looks for a record at `t` and judges it at `t'`: it reports a conflict exactly if a
   record of another request is in force throughout, replays exactly if one of this request is, and otherwise
   finds nothing.
   */
  lemma {:induction false} LookUpDecides(es: seq<Event>, w: Worker, t: Time, between: seq<Event>, t': Time)
    requires var s := Run(INITIAL, es);
             w in s.attempts && s.attempts[w].stage.Querying? && CreatedBy(s.db.log, t) && OfOthers(between, w)
    ensures var s := Run(INITIAL, es);
            var (log, key, fp) := (s.db.log, s.attempts[w].request.key, s.attempts[w].request.fingerprint);
            var s' := LookedUpAndJudged(s, w, t, between, t');
            && w in s'.attempts
            && var stage := s'.attempts[w].stage;
               if InForceFor(log, key, t, t', fp, false) then stage == Returned(KeyConflict)
               else if InForceFor(log, key, t, t', fp, true) then stage.Returned? && stage.outcome.Replayed?
               else stage == NothingFound(s.attempts[w].stage.cause)
  {
    Reachable(es);
    var s := Run(INITIAL, es);
    JudgementIsExact(s.db, s.attempts[w].request.key, s.attempts[w].request.fingerprint, t, t');
    LookUpSteps(s, w, t, between, t');
  }

  /** Losing the upsert always has a committed record as its cause. */
  lemma {:induction false} LostUpsertHasAWinner(es: seq<Event>, w: Worker, stamp: Time)
    requires var s := Run(INITIAL, es);
             w in s.attempts && s.attempts[w].stage == Querying(Some(LostUpsert(stamp)))
    ensures var s := Run(INITIAL, es);
            exists i :: 0 <= i < |s.db.log| && s.db.log[i].request.key == s.attempts[w].request.key
                        && Unexpired(s.db.log[i], stamp)
  {
    Reachable(es);
    var s := Run(INITIAL, es);
    assert AttemptOk(s.db, s.attempts[w]);
    var i :| 0 <= i < |s.db.log| && s.db.log[i].request.key == s.attempts[w].request.key && s.db.log[i].record.Some?
             && s.db.log[i].record.value.completed.expiresAt > stamp;
    assert Unexpired(s.db.log[i], stamp);
  }

  /** Every normal return is a committed record of the request's key, with the request's fingerprint. */
  lemma {:induction false} ReturnsAreCommitted(es: seq<Event>, w: Worker)
    requires var s := Run(INITIAL, es);
             w in s.attempts && s.attempts[w].stage.Returned?
             && (s.attempts[w].stage.outcome.Executed? || s.attempts[w].stage.outcome.Replayed?)
    ensures var s := Run(INITIAL, es);
            var a := s.attempts[w];
            a.stage.outcome.completed.fingerprint == a.request.fingerprint &&
            exists i :: 0 <= i < |s.db.log| && s.db.log[i].request.key == a.request.key && s.db.log[i].record.Some?
                        && s.db.log[i].record.value.completed == a.stage.outcome.completed
  {
    Reachable(es);
    var s := Run(INITIAL, es);
    assert AttemptOk(s.db, s.attempts[w]);
  }
}
