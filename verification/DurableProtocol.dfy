/**
 The durable execution protocol: any number of attempts run against one transactional database that holds
 versioned rows and idempotency records. An attempt looks its record up, runs the handler in a transaction,
 conditionally upserts the record in the same transaction, commits, and otherwise resolves the winner.

 PostgreSQL is modelled at READ COMMITTED: statements see committed state, a written row or record is locked
 until its transaction ends, and a statement that had to wait evaluates its condition on what was committed
 meanwhile. Clock readings are part of the events and are not assumed to be related to one another.
 */
module DurableProtocol {
  import opened Results
  import opened Models

  type Worker = nat
  type RowId = nat
  type Content = nat

  datatype Row = Row(version: nat, content: Content)

  /** A versioned update of one row, or the insertion of default rows where they are absent. */
  datatype Command = Update(row: RowId, expected: nat) | Provision(rows: seq<RowId>)

  datatype Request = Request(key: Identity, fingerprint: Digest, retentionSeconds: nat, command: Command)

  datatype Record = Record(completed: Completed, createdAt: Time)

  /** A pending row and the committed row its transaction computed it from. */
  datatype Write = Write(basis: Option<Row>, row: Row)

  type Writes = map<RowId, Write>

  datatype Error = VersionMismatch | TransactionConflict | NotFound | HandlerFailed | Unavailable

  /** Why an attempt rolled back and looks for a winner. */
  datatype Cause = LostUpsert(stamp: Time) | Raced(error: Error)

  /** An open business transaction: the row it read, its pending writes and the inserts done so far. */
  datatype Tx = Tx(read: Option<Row>, writes: Writes, inserted: nat)

  const NEW_TX := Tx(None, map[], 0)

  datatype Outcome =
    | Executed(completed: Completed)
    | Replayed(completed: Completed)
    | KeyConflict
    | Raised(error: Error)

  datatype Stage =
    | Querying(cause: Option<Cause>)                              // before the lookup statement
    | Judging(cause: Option<Cause>, found: Option<Completed>)     // the lookup has returned
    | Handling(tx: Tx)                                            // the handler is running
    | Encoded(tx: Tx, completed: Completed)                       // the handler has returned
    | Stamped(tx: Tx, record: Record)                             // the upsert is sent, and may wait
    | Recorded(tx: Tx, record: Record)                            // the upsert took effect
    | Returned(outcome: Outcome)
    | Gone                                                        // the process crashed or the task was cancelled

  datatype Attempt = Attempt(request: Request, stage: Stage)

  /** One committed business transaction. */
  datatype Commit = Commit(worker: Worker, request: Request, writes: Writes, record: Option<Record>)

  /** Committed state, with the log of what was committed. */
  datatype Database = Database(records: map<Identity, Record>, rows: map<RowId, Row>, log: seq<Commit>)

  datatype World = World(db: Database, attempts: map<Worker, Attempt>)

  const INITIAL := World(Database(map[], map[], []), map[])

  datatype Event =
    | Arrive(worker: Worker, request: Request)
    | Query(worker: Worker, now: Time)
    | Judge(worker: Worker, now: Time)
    | Read(worker: Worker)
    | Change(worker: Worker, content: Content)
    | Insert(worker: Worker, content: Content)
    | Finish(worker: Worker, result: StoredResult, now: Time)
    | Stamp(worker: Worker, now: Time)
    | Upsert(worker: Worker)
    | CommitAcknowledged(worker: Worker)
    | CommitUnknown(worker: Worker, landed: bool)
    | Fail(worker: Worker, error: Error)
    | Crash(worker: Worker, landed: bool)

  // ---- the database ----

  function RowAt(rows: map<RowId, Row>, u: RowId): Option<Row> {
    if u in rows then Some(rows[u]) else None
  }

  function ApplyWrites(rows: map<RowId, Row>, writes: Writes): map<RowId, Row> {
    map u | u in rows.Keys + writes.Keys :: if u in writes then writes[u].row else rows[u]
  }

  /** Commits a transaction with whatever it wrote. */
  function Publish(db: Database, worker: Worker, request: Request, writes: Writes, record: Option<Record>): Database {
    Database(
      if record.Some? then db.records[request.key := record.value] else db.records,
      ApplyWrites(db.rows, writes),
      db.log + [Commit(worker, request, writes, record)])
  }

  /** `get_completed`: the record of a key that has not expired at `now`. */
  function LookUp(records: map<Identity, Record>, key: Identity, now: Time): Option<Completed> {
    if key in records && records[key].completed.expiresAt > now then Some(records[key].completed) else None
  }

  /** What the lookup result means for a request: nothing, a conflict or a replay. */
  function Judgement(found: Option<Completed>, fingerprint: Digest, now: Time): Option<Outcome> {
    if found.None? || found.value.expiresAt <= now then None
    else if found.value.fingerprint != fingerprint then Some(KeyConflict)
    else Some(Replayed(found.value))
  }

  /** The upsert replaces a record only if it had expired when the new one was created. */
  predicate MayReplace(records: map<Identity, Record>, key: Identity, createdAt: Time) {
    key in records ==> records[key].completed.expiresAt <= createdAt
  }

  // ---- locks ----

  function PendingWrites(stage: Stage): Writes {
    match stage
    case Handling(tx) => tx.writes
    case Encoded(tx, _) => tx.writes
    case Stamped(tx, _) => tx.writes
    case Recorded(tx, _) => tx.writes
    case _ => map[]
  }

  function PendingRecord(stage: Stage): Option<Record> {
    if stage.Recorded? then Some(stage.record) else None
  }

  predicate HoldsKey(a: Attempt, key: Identity) {
    a.stage.Recorded? && a.request.key == key
  }

  predicate RowFree(attempts: map<Worker, Attempt>, w: Worker, u: RowId) {
    forall x :: x in attempts && x != w ==> u !in PendingWrites(attempts[x].stage)
  }

  predicate KeyFree(attempts: map<Worker, Attempt>, w: Worker, key: Identity) {
    forall x :: x in attempts && x != w ==> !HoldsKey(attempts[x], key)
  }

  // ---- one step of one attempt ----

  /** Errors after which a committed winner is looked for. */
  predicate IsRace(error: Error) {
    error.VersionMismatch? || error.TransactionConflict?
  }

  /** The business transaction rolls back with an error. */
  function RolledBack(error: Error): Stage {
    if IsRace(error) then Querying(Some(Raced(error))) else Returned(Raised(error))
  }

  /** The attempt is in a lookup transaction; what fails there is raised as it is. */
  predicate LookingUp(stage: Stage) {
    stage.Querying? || stage.Judging?
  }

  /** No live record was found: run the handler, or give up after a lost race. */
  function NothingFound(cause: Option<Cause>): Stage {
    match cause
    case None => Handling(NEW_TX)
    case Some(LostUpsert(_)) => Returned(Raised(Unavailable))
    case Some(Raced(error)) => Returned(Raised(error))
  }

  /** The handler of a versioned command: it reads its row once and checks the expected version. */
  function ReadStage(db: Database, c: Command, tx: Tx): Stage
    requires c.Update?
  {
    if c.row !in db.rows then RolledBack(NotFound)
    else if db.rows[c.row].version != c.expected then RolledBack(VersionMismatch)
    else Handling(tx.(read := Some(db.rows[c.row])))
  }

  /** The conditional UPDATE, once the row lock is free. */
  function ChangeStage(db: Database, c: Command, tx: Tx, content: Content): Stage
    requires c.Update? && tx.read.Some?
  {
    if c.row !in db.rows then RolledBack(NotFound)
    else if db.rows[c.row].version != c.expected then RolledBack(VersionMismatch)
    else Handling(tx.(writes := map[c.row := Write(tx.read, Row(tx.read.value.version + 1, content))]))
  }

  /** The next INSERT ... ON CONFLICT DO NOTHING, once the row lock is free. */
  function InsertStage(db: Database, c: Command, tx: Tx, content: Content): Stage
    requires c.Provision? && tx.inserted < |c.rows|
  {
    var u := c.rows[tx.inserted];
    if u in db.rows || u in tx.writes then Handling(tx.(inserted := tx.inserted + 1))
    else Handling(tx.(inserted := tx.inserted + 1, writes := tx.writes[u := Write(None, Row(1, content))]))
  }

  predicate HandlerDone(c: Command, tx: Tx) {
    match c
    case Update(_, _) => tx.read.Some?
    case Provision(rows) => tx.inserted == |rows|
  }

  predicate Enabled(w: World, e: Event) {
    if e.Arrive? then e.worker !in w.attempts && e.request.retentionSeconds > 0
    else
      e.worker in w.attempts &&
      var a := w.attempts[e.worker];
      var c := a.request.command;
      match e
      case Query(_, _) => a.stage.Querying?
      case Judge(_, _) => a.stage.Judging?
      case Read(_) => a.stage.Handling? && c.Update? && a.stage.tx.read.None?
      case Change(_, _) =>
        a.stage.Handling? && c.Update? && a.stage.tx.read.Some? && a.stage.tx.writes == map[]
        && RowFree(w.attempts, e.worker, c.row)
      case Insert(_, _) =>
        a.stage.Handling? && c.Provision? && a.stage.tx.inserted < |c.rows|
        && RowFree(w.attempts, e.worker, c.rows[a.stage.tx.inserted])
      case Finish(_, _, _) => a.stage.Handling? && HandlerDone(c, a.stage.tx)
      case Stamp(_, _) => a.stage.Encoded?
      case Upsert(_) => a.stage.Stamped? && KeyFree(w.attempts, e.worker, a.request.key)
      case CommitAcknowledged(_) => a.stage.Recorded?
      case CommitUnknown(_, _) => a.stage.Recorded?
      case Fail(_, error) =>
        !a.stage.Returned? && !a.stage.Gone? && error in {TransactionConflict, Unavailable, HandlerFailed}
      case Crash(_, landed) => !a.stage.Returned? && (landed ==> a.stage.Recorded?)
      case Arrive(_, _) => false
  }

  /** The stage an attempt enters; commits also publish, see `Step`. */
  function NextStage(db: Database, a: Attempt, e: Event): Stage
    requires !e.Arrive?
    requires e.Query? ==> a.stage.Querying?
    requires e.Judge? ==> a.stage.Judging?
    requires e.Read? || e.Change? || e.Insert? || e.Finish? ==> a.stage.Handling?
    requires e.Read? ==> a.request.command.Update?
    requires e.Change? ==> a.request.command.Update? && a.stage.tx.read.Some?
    requires e.Insert? ==> a.request.command.Provision? && a.stage.tx.inserted < |a.request.command.rows|
    requires e.Stamp? ==> a.stage.Encoded?
    requires e.Upsert? ==> a.stage.Stamped?
    requires e.CommitAcknowledged? ==> a.stage.Recorded?
  {
    var c, s, r := a.request.command, a.stage, a.request;
    match e
    case Query(_, now) => Judging(s.cause, LookUp(db.records, r.key, now))
    case Judge(_, now) =>
      var j := Judgement(s.found, r.fingerprint, now);
      if j.Some? then Returned(j.value) else NothingFound(s.cause)
    case Read(_) => ReadStage(db, c, s.tx)
    case Change(_, content) => ChangeStage(db, c, s.tx, content)
    case Insert(_, content) => InsertStage(db, c, s.tx, content)
    case Finish(_, result, now) =>
      Encoded(s.tx, Completed(result, now + r.retentionSeconds * SECOND, r.fingerprint))
    case Stamp(_, now) =>
      if s.completed.expiresAt <= now then RolledBack(Unavailable)
      else Stamped(s.tx, Record(s.completed, now))
    case Upsert(_) =>
      if MayReplace(db.records, r.key, s.record.createdAt) then Recorded(s.tx, s.record)
      else Querying(Some(LostUpsert(s.record.createdAt)))
    case CommitAcknowledged(_) => Returned(Executed(s.record.completed))
    case CommitUnknown(_, _) => Returned(Raised(Unavailable))
    case Fail(_, error) => if LookingUp(s) then Returned(Raised(error)) else RolledBack(error)
    case Crash(_, _) => Gone
  }

  /** A commit takes effect; its caller may never learn of it. */
  predicate Publishes(e: Event) {
    e.CommitAcknowledged? || ((e.CommitUnknown? || e.Crash?) && e.landed)
  }

  /** A disabled event changes nothing. */
  function Step(w: World, e: Event): World {
    if !Enabled(w, e) then w
    else if e.Arrive? then w.(attempts := w.attempts[e.worker := Attempt(e.request, Querying(None))])
    else
      var a := w.attempts[e.worker];
      World(
        if Publishes(e) then Publish(w.db, e.worker, a.request, PendingWrites(a.stage), PendingRecord(a.stage)) else w.db,
        w.attempts[e.worker := a.(stage := NextStage(w.db, a, e))])
  }

  function Run(w: World, es: seq<Event>): World {
    if es == [] then w else Step(Run(w, es[..|es| - 1]), es[|es| - 1])
  }
}
