/** Undisturbed attempts succeed, and their duplicates replay them. */
module DurableProgress {
  import opened Results
  import opened Models
  import opened DurableProtocol
  import S = DurableSafety

  /** An attempt arrives and looks for a record. */
  function Look(x: Worker, r: Request, now: Time): seq<Event> {
    [Arrive(x, r), Query(x, now), Judge(x, now)]
  }

  /** It runs the handler of a versioned update. */
  function Handle(x: Worker, content: Content): seq<Event> {
    [Read(x), Change(x, content)]
  }

  /** It prepares the record of its result. */
  function Prepare(x: Worker, result: StoredResult, now: Time): seq<Event> {
    [Finish(x, result, now), Stamp(x, now)]
  }

  /** And it writes the record and commits. */
  function Land(x: Worker): seq<Event> {
    [Upsert(x), CommitAcknowledged(x)]
  }

  function Execute(x: Worker, r: Request, content: Content, result: StoredResult, now: Time): seq<Event> {
    Look(x, r, now) + Handle(x, content) + Prepare(x, result, now) + Land(x)
  }

  /** Nobody else holds the row or the key, the row has the expected version and no record is in force. */
  predicate Clear(w: World, x: Worker, r: Request, now: Time) {
    && x !in w.attempts && r.retentionSeconds > 0 && r.command.Update?
    && r.command.row in w.db.rows && w.db.rows[r.command.row].version == r.command.expected
    && RowFree(w.attempts, x, r.command.row) && KeyFree(w.attempts, x, r.key)
    && LookUp(w.db.records, r.key, now).None?
  }

  /** The attempt has reached this stage; everything committed and every other attempt is as in `w`. */
  function Reached(w: World, x: Worker, r: Request, stage: Stage): World {
    World(w.db, w.attempts[x := Attempt(r, stage)])
  }

  lemma Moves(w: World, x: Worker, r: Request, stage: Stage, e: Event)
    requires e.worker == x && !e.Arrive? && !Publishes(e) && Enabled(Reached(w, x, r, stage), e)
    ensures Step(Reached(w, x, r, stage), e) == Reached(w, x, r, NextStage(w.db, Attempt(r, stage), e))
  {
    var v := Reached(w, x, r, stage);
    assert v.attempts[x := Attempt(r, NextStage(w.db, Attempt(r, stage), e))]
        == w.attempts[x := Attempt(r, NextStage(w.db, Attempt(r, stage), e))];
  }

  lemma RunNext(w: World, es: seq<Event>, e: Event)
    ensures Run(w, es + [e]) == Step(Run(w, es), e)
  {
    assert (es + [e])[..|es|] == es;
  }

  lemma RunTwo(w: World, a: Event, b: Event)
    ensures Run(w, [a, b]) == Step(Step(w, a), b)
  {
    assert [a, b][..1] == [a];
    assert [a][..0] == [];
    assert Run(w, [a]) == Step(w, a);
  }

  lemma LooksAlone(w: World, x: Worker, r: Request, now: Time)
    requires x !in w.attempts && r.retentionSeconds > 0
    ensures var j := Judgement(LookUp(w.db.records, r.key, now), r.fingerprint, now);
            Run(w, Look(x, r, now)) == Reached(w, x, r, if j.Some? then Returned(j.value) else Handling(NEW_TX))
  {
    assert Step(w, Arrive(x, r)) == Reached(w, x, r, Querying(None));
    Moves(w, x, r, Querying(None), Query(x, now));
    Moves(w, x, r, Judging(None, LookUp(w.db.records, r.key, now)), Judge(x, now));
    assert Look(x, r, now) == [Arrive(x, r), Query(x, now)] + [Judge(x, now)];
    RunTwo(w, Arrive(x, r), Query(x, now));
    RunNext(w, [Arrive(x, r), Query(x, now)], Judge(x, now));
  }

  lemma LocksStayFree(w: World, x: Worker, r: Request, stage: Stage)
    requires r.command.Update? && RowFree(w.attempts, x, r.command.row) && KeyFree(w.attempts, x, r.key)
    ensures var v := Reached(w, x, r, stage);
            RowFree(v.attempts, x, r.command.row) && KeyFree(v.attempts, x, r.key)
  {
  }

  lemma HandlesAlone(w: World, x: Worker, r: Request, content: Content, now: Time)
    requires Clear(w, x, r, now)
    ensures var row := w.db.rows[r.command.row];
            Run(Reached(w, x, r, Handling(NEW_TX)), Handle(x, content)) ==
            Reached(w, x, r, Handling(Tx(Some(row), map[r.command.row := Write(Some(row), Row(row.version + 1, content))], 0)))
  {
    var row := w.db.rows[r.command.row];
    Moves(w, x, r, Handling(NEW_TX), Read(x));
    LocksStayFree(w, x, r, Handling(Tx(Some(row), map[], 0)));
    Moves(w, x, r, Handling(Tx(Some(row), map[], 0)), Change(x, content));
    RunTwo(Reached(w, x, r, Handling(NEW_TX)), Read(x), Change(x, content));
  }

  lemma LastStep(w: World, x: Worker, r: Request, tx: Tx, record: Record)
    ensures var w' := Step(Reached(w, x, r, Recorded(tx, record)), CommitAcknowledged(x));
            && w'.attempts == w.attempts[x := Attempt(r, Returned(Executed(record.completed)))]
            && w'.db == Publish(w.db, x, r, tx.writes, Some(record))
  {
    var v := Reached(w, x, r, Recorded(tx, record));
    assert v.attempts[x := Attempt(r, Returned(Executed(record.completed)))]
        == w.attempts[x := Attempt(r, Returned(Executed(record.completed)))];
  }

  lemma PreparesAlone(w: World, x: Worker, r: Request, tx: Tx, result: StoredResult, now: Time)
    requires Clear(w, x, r, now) && tx.read.Some?
    ensures var c := Completed(result, now + r.retentionSeconds * SECOND, r.fingerprint);
            Run(Reached(w, x, r, Handling(tx)), Prepare(x, result, now)) == Reached(w, x, r, Stamped(tx, Record(c, now)))
  {
    var c := Completed(result, now + r.retentionSeconds * SECOND, r.fingerprint);
    Moves(w, x, r, Handling(tx), Finish(x, result, now));
    Moves(w, x, r, Encoded(tx, c), Stamp(x, now));
    RunTwo(Reached(w, x, r, Handling(tx)), Finish(x, result, now), Stamp(x, now));
  }

  lemma LandsAlone(w: World, x: Worker, r: Request, tx: Tx, record: Record)
    requires Clear(w, x, r, record.createdAt)
    ensures var w' := Run(Reached(w, x, r, Stamped(tx, record)), Land(x));
            && w'.attempts == w.attempts[x := Attempt(r, Returned(Executed(record.completed)))]
            && w'.db == Publish(w.db, x, r, tx.writes, Some(record))
  {
    LocksStayFree(w, x, r, Stamped(tx, record));
    Moves(w, x, r, Stamped(tx, record), Upsert(x));
    RunTwo(Reached(w, x, r, Stamped(tx, record)), Upsert(x), CommitAcknowledged(x));
    LastStep(w, x, r, tx, record);
  }

  lemma ReachesHandled(w: World, x: Worker, r: Request, content: Content, now: Time, tx: Tx)
    requires Clear(w, x, r, now)
    requires var row := w.db.rows[r.command.row];
             tx == Tx(Some(row), map[r.command.row := Write(Some(row), Row(row.version + 1, content))], 0)
    ensures Run(w, Look(x, r, now) + Handle(x, content)) == Reached(w, x, r, Handling(tx))
  {
    LooksAlone(w, x, r, now);
    HandlesAlone(w, x, r, content, now);
    S.RunOn(w, Look(x, r, now), Handle(x, content));
  }

  lemma ReachesStamped(w: World, x: Worker, r: Request, content: Content, result: StoredResult, now: Time, tx: Tx, c: Completed)
    requires Clear(w, x, r, now) && c == Completed(result, now + r.retentionSeconds * SECOND, r.fingerprint)
    requires var row := w.db.rows[r.command.row];
             tx == Tx(Some(row), map[r.command.row := Write(Some(row), Row(row.version + 1, content))], 0)
    ensures Run(w, Look(x, r, now) + Handle(x, content) + Prepare(x, result, now)) == Reached(w, x, r, Stamped(tx, Record(c, now)))
  {
    ReachesHandled(w, x, r, content, now, tx);
    PreparesAlone(w, x, r, tx, result, now);
    S.RunOn(w, Look(x, r, now) + Handle(x, content), Prepare(x, result, now));
  }

  lemma PublishedUpdate(db: Database, x: Worker, r: Request, writes: Writes, record: Record)
    requires r.command.Update? && r.command.row in db.rows && writes.Keys == {r.command.row}
    ensures var db' := Publish(db, x, r, writes, Some(record));
            && db'.rows == db.rows[r.command.row := writes[r.command.row].row]
            && db'.records == db.records[r.key := record]
            && db'.log == db.log + [Commit(x, r, writes, Some(record))]
  {
  }

  /** The one write of a versioned update. */
  function Updating(row: Row, r: Request, content: Content): Writes
    requires r.command.Update?
  {
    map[r.command.row := Write(Some(row), Row(row.version + 1, content))]
  }

  lemma ExecutesAlone(w: World, x: Worker, r: Request, content: Content, result: StoredResult, now: Time, c: Completed)
    requires Clear(w, x, r, now) && c == Completed(result, now + r.retentionSeconds * SECOND, r.fingerprint)
    ensures var w' := Run(w, Execute(x, r, content, result, now));
            && w'.attempts == w.attempts[x := Attempt(r, Returned(Executed(c)))]
            && w'.db == Publish(w.db, x, r, Updating(w.db.rows[r.command.row], r, content), Some(Record(c, now)))
  {
    var row := w.db.rows[r.command.row];
    var tx := Tx(Some(row), Updating(row, r, content), 0);
    ReachesStamped(w, x, r, content, result, now, tx, c);
    LandsAlone(w, x, r, tx, Record(c, now));
    S.RunOn(w, Look(x, r, now) + Handle(x, content) + Prepare(x, result, now), Land(x));
  }

  /**
   A request that meets no obstacle takes effect: from any state in which its row has the expected version, its
   row and key are not locked and no record of its key is in force, it commits the next version with its record.
   */
  lemma UndisturbedAttemptCommits(w: World, x: Worker, r: Request, content: Content, result: StoredResult, now: Time)
    requires Clear(w, x, r, now)
    ensures var c := Completed(result, now + r.retentionSeconds * SECOND, r.fingerprint);
            var w' := Run(w, Execute(x, r, content, result, now));
            && w'.attempts == w.attempts[x := Attempt(r, Returned(Executed(c)))]
            && w'.db.rows == w.db.rows[r.command.row := Row(r.command.expected + 1, content)]
            && w'.db.records == w.db.records[r.key := Record(c, now)]
            && w'.db.log == w.db.log + [Commit(x, r, Updating(w.db.rows[r.command.row], r, content), Some(Record(c, now)))]
  {
    var c := Completed(result, now + r.retentionSeconds * SECOND, r.fingerprint);
    ExecutesAlone(w, x, r, content, result, now, c);
    PublishedUpdate(w.db, x, r, Updating(w.db.rows[r.command.row], r, content), Record(c, now));
  }

  /**
   Executing and sending the same request again is executing once: until the record expires, a duplicate gets
   the recorded result and nothing that is committed changes; afterwards its version check refuses it.
   */
  lemma ResendingReplays(w: World, x: Worker, y: Worker, r: Request, content: Content, result: StoredResult, now: Time,
                         later: Time)
    requires Clear(w, x, r, now) && y !in w.attempts && y != x
    ensures var c := Completed(result, now + r.retentionSeconds * SECOND, r.fingerprint);
            var once := Run(w, Execute(x, r, content, result, now));
            var twice := Run(once, Look(y, r, later));
            && twice.db == once.db
            && y in twice.attempts
            && (later < c.expiresAt ==> twice.attempts[y].stage == Returned(Replayed(c)))
            && (later >= c.expiresAt ==>
                  && twice.attempts[y].stage == Handling(NEW_TX)
                  && y in Step(twice, Read(y)).attempts
                  && Step(twice, Read(y)).attempts[y].stage == RolledBack(VersionMismatch))
  {
    UndisturbedAttemptCommits(w, x, r, content, result, now);
    var once := Run(w, Execute(x, r, content, result, now));
    LooksAlone(once, y, r, later);
    if later >= now + r.retentionSeconds * SECOND {
      Moves(once, y, r, Handling(NEW_TX), Read(y));
    }
  }

  /**
   It writes the record and asks for the commit, but loses the connection, or its process crashes; `landed` if the server
   commits all the same.
   */
  function LoseReply(x: Worker, r: Request, content: Content, result: StoredResult, now: Time, crashed: bool, landed: bool): seq<Event> {
    Look(x, r, now) + Handle(x, content) + Prepare(x, result, now) + [Upsert(x), Losing(x, crashed, landed)]
  }

  function Losing(x: Worker, crashed: bool, landed: bool): Event {
    if crashed then Crash(x, landed) else CommitUnknown(x, landed)
  }

  /** How the attempt ends. */
  function Unheard(crashed: bool): Stage {
    if crashed then Gone else Returned(Raised(Unavailable))
  }

  lemma ReplyIsLost(w: World, x: Worker, r: Request, tx: Tx, record: Record, crashed: bool, landed: bool)
    requires Clear(w, x, r, record.createdAt)
    ensures var w' := Run(Reached(w, x, r, Stamped(tx, record)), [Upsert(x), Losing(x, crashed, landed)]);
            && w'.attempts == w.attempts[x := Attempt(r, Unheard(crashed))]
            && w'.db == if landed then Publish(w.db, x, r, tx.writes, Some(record)) else w.db
  {
    LocksStayFree(w, x, r, Stamped(tx, record));
    Moves(w, x, r, Stamped(tx, record), Upsert(x));
    RunTwo(Reached(w, x, r, Stamped(tx, record)), Upsert(x), Losing(x, crashed, landed));
    LastUnheard(w, x, r, tx, record, Losing(x, crashed, landed), crashed, landed);
  }

  lemma LastUnheard(w: World, x: Worker, r: Request, tx: Tx, record: Record, e: Event, crashed: bool, landed: bool)
    requires e == Losing(x, crashed, landed)
    ensures var w' := Step(Reached(w, x, r, Recorded(tx, record)), e);
            && w'.attempts == w.attempts[x := Attempt(r, Unheard(crashed))]
            && w'.db == if landed then Publish(w.db, x, r, tx.writes, Some(record)) else w.db
  {
    var v := Reached(w, x, r, Recorded(tx, record));
    assert v.attempts[x := Attempt(r, Unheard(crashed))] == w.attempts[x := Attempt(r, Unheard(crashed))];
  }

  lemma LosesReply(w: World, x: Worker, r: Request, content: Content, result: StoredResult, now: Time, crashed: bool, landed: bool)
    requires Clear(w, x, r, now)
    ensures var c := Completed(result, now + r.retentionSeconds * SECOND, r.fingerprint);
            var lost := Run(w, LoseReply(x, r, content, result, now, crashed, landed));
            && lost.attempts == w.attempts[x := Attempt(r, Unheard(crashed))]
            && lost.db == if landed then Publish(w.db, x, r, Updating(w.db.rows[r.command.row], r, content), Some(Record(c, now))) else w.db
  {
    var row, c := w.db.rows[r.command.row], Completed(result, now + r.retentionSeconds * SECOND, r.fingerprint);
    var tx := Tx(Some(row), Updating(row, r, content), 0);
    ReachesStamped(w, x, r, content, result, now, tx, c);
    ReplyIsLost(w, x, r, tx, Record(c, now), crashed, landed);
    S.RunOn(w, Look(x, r, now) + Handle(x, content) + Prepare(x, result, now), [Upsert(x), Losing(x, crashed, landed)]);
  }

  /**
   A lost reply is resolved by sending the request again. Nobody is told, but if the commit took effect the row has its
   next version and the second attempt replays the record, and if it did not the second attempt runs the handler.
   */
  lemma ResendingResolvesALostReply(w: World, x: Worker, y: Worker, r: Request, content: Content, result: StoredResult, now: Time,
                                    later: Time, crashed: bool, landed: bool)
    requires Clear(w, x, r, now) && y !in w.attempts && y != x && now <= later < now + r.retentionSeconds * SECOND
    requires LookUp(w.db.records, r.key, later).None?
    ensures var c := Completed(result, now + r.retentionSeconds * SECOND, r.fingerprint);
            var lost := Run(w, LoseReply(x, r, content, result, now, crashed, landed));
            var again := Run(lost, Look(y, r, later));
            && x in lost.attempts && lost.attempts[x].stage == Unheard(crashed)
            && lost.db.rows == (if landed then w.db.rows[r.command.row := Row(r.command.expected + 1, content)] else w.db.rows)
            && again.db == lost.db && y in again.attempts
            && again.attempts[y].stage == if landed then Returned(Replayed(c)) else Handling(NEW_TX)
  {
    var c := Completed(result, now + r.retentionSeconds * SECOND, r.fingerprint);
    LosesReply(w, x, r, content, result, now, crashed, landed);
    PublishedUpdate(w.db, x, r, Updating(w.db.rows[r.command.row], r, content), Record(c, now));
    LooksAlone(Run(w, LoseReply(x, r, content, result, now, crashed, landed)), y, r, later);
  }
}
