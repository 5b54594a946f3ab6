/**
 The durable execution as the objects run it: a unit of work, the record store and `execute_once`, statement by
 statement against the shared database. Whenever an attempt awaits, the other attempts may take any steps, and
 the awaited statement may fail. Every statement is a step of the durable protocol, so that what holds over all
 runs of the protocol holds for these objects, whatever the environment does.
 */
module DurableExecution {
  import opened Results
  import opened Models
  import opened DurableProtocol
  import S = DurableSafety
  import O = DurableOutcomes
  import U = UnitOfWork
  import opened DurableCalls

  /** The shared database as one session sees it; `history` is the run that led to its state. */
  class Session {
    var world: World
    var turn: nat
    ghost var history: seq<Event>
    const turns: nat -> Turn

    ghost predicate Valid()
      reads this
    {
      world == Run(INITIAL, history)
    }

    /** The call that began at these points and has got to where the session is now. */
    ghost function Call(start: nat, from: nat): Span
      reads this
    {
      Span(turns, from, turn, start, history)
    }

    constructor (turns: nat -> Turn)
      ensures Valid() && world == INITIAL && turn == 0 && this.turns == turns
    {
      world, turn, history := INITIAL, 0, [];
      this.turns := turns;
    }

    /** One statement of this session takes effect. */
    method Advance(e: Event)
      requires Valid()
      modifies this`world, this`history
      ensures Valid() && world == Step(old(world), e) && history == old(history) + [e]
    {
      world := Step(world, e);
      history := history + [e];
      assert history[..|history| - 1] == old(history);
    }

    /** A step of an attempt of this session. */
    method Move(e: Event)
      requires Valid() && !e.Arrive? && Enabled(world, e)
      modifies this`world, this`history
      ensures Valid() && old(history) <= history
      ensures var a := old(world).attempts[e.worker]; At(world, e.worker, a.request, NextStage(old(world).db, a, e))
      ensures world.db == Published(old(world).db, old(world).attempts[e.worker], e)
    {
      MyStep(world, e);
      Advance(e);
    }

    /** An awaited statement of `me` fails, or its task is cancelled. */
    method Interrupt(me: Worker, f: Fault) returns (stage: Stage)
      requires Valid() && me in world.attempts && !world.attempts[me].stage.Returned? && !world.attempts[me].stage.Gone?
      modifies this`world, this`history
      ensures Valid() && old(history) <= history
      ensures stage == Interrupted(old(world).attempts[me].stage, f) && world.db == old(world).db
      ensures At(world, me, old(world).attempts[me].request, stage)
    {
      var e := if f.Cancelled? then Crash(me, false) else Fail(me, ErrorOf(f.error));
      Move(e);
      stage := world.attempts[me].stage;
    }

    /** Other attempts go on until the awaited statement of `me` has its turn. */
    method Await(me: Worker) returns (t: Turn)
      requires Valid()
      modifies this
      ensures Valid() && old(history) <= history && S.SameAttempt(old(world), world, me)
      ensures t == turns(old(turn)) && turn == old(turn) + 1
      ensures old(world).db.rows.Keys <= world.db.rows.Keys && Quiet(old(world), world, me)
    {
      t := turns(turn);
      OthersCommitNothingOfMine(world, t.others, me);
      turn := turn + 1;
      RowsStay(world, Foreign(t.others, me));
      ForeignLeaveMine(world, t.others, me);
      S.RunOn(INITIAL, history, Foreign(t.others, me));
      history := history + Foreign(t.others, me);
      world := Run(world, Foreign(t.others, me));
    }

    /** `me` awaits its next statement, which fails if the await does or if what it must wait for is not released. */
    method Wait(me: Worker, request: Request, stage: Stage, lock: Lock) returns (r: Result<(), Stage>)
      requires Valid() && At(world, me, request, stage) && InTransaction(stage) && (lock.NoLock? || Wanted(request.command, lock))
      modifies this
      ensures Valid() && old(history) <= history && turn == old(turn) + 1
      ensures old(world).db.rows.Keys <= world.db.rows.Keys && Quiet(old(world), world, me)
      ensures r.Err? ==> At(world, me, request, r.error) && Why(Call(|old(history)|, old(turn)), me, request, r.error)
      ensures r.Ok? ==> At(world, me, request, stage) && Free(world, me, request, lock)
    {
      var t := Await(me);
      ghost var h := history;
      if t.fault.Some? {
        var stopped := Interrupt(me, t.fault.value);
        WhyInterrupted(Call(|old(history)|, old(turn)), old(turn), t.fault.value, me, request, stage);
        return Err(stopped);
      }
      if !Free(world, me, request, lock) {
        var stopped := Interrupt(me, DEADLOCK);
        assert history[..|h|] == h;
        WhyLockedOut(Call(|old(history)|, old(turn)), |h|, lock, me, request, stage);
        return Err(stopped);
      }
      r := Ok(());
    }
  }

  /** The record table, seen through one session. */
  class PostgresDurableIdempotencyStore {
    const session: Session

    constructor (session: Session)
      ensures this.session == session
    {
      this.session := session;
    }

    /** SELECT the record that has not expired at `now`. */
    method GetCompleted(key: Identity, now: Time) returns (found: Option<Completed>)
      ensures found == LookUp(session.world.db.records, key, now)
    {
      var records := session.world.db.records;
      if key in records && records[key].completed.expiresAt > now {
        return Some(records[key].completed);
      }
      found := None;
    }

    /**
     The conditional upsert: the clock is read first, then the statement may wait for another transaction on the
     key, and it overwrites only a record that had expired at that reading. The record stays pending until commit.
     */
    method TryAddCompleted(me: Worker, request: Request, tx: Tx, completed: Completed) returns (r: Result<bool, Stage>)
      requires session.Valid() && At(session.world, me, request, Encoded(tx, completed))
      modifies session
      ensures session.Valid() && old(session.history) <= session.history && old(session.turn) <= session.turn
      ensures Quiet(old(session.world), session.world, me) && old(session.world).db.rows.Keys <= session.world.db.rows.Keys
      ensures At(session.world, me, request, AfterUpsert(tx, completed, session.turns(old(session.turn)).now, r))
      ensures Answered(session.Call(|old(session.history)|, old(session.turn)), me, request, completed, r)
      ensures r.Ok? && r.value ==> MayReplace(session.world.db.records, request.key, session.turns(old(session.turn)).now)
    {
      var t := session.Await(me);
      session.Move(Stamp(me, t.now));
      if completed.expiresAt <= t.now {
        return Err(RolledBack(Unavailable));
      }
      ghost var h, turn := |session.history|, session.turn;
      r := Upsert(me, request, tx, Record(completed, t.now));
      if r.Err? {
        WhyWider(session.Call(h, turn), session.Call(|old(session.history)|, old(session.turn)), me, request, r.error);
      } else {
        assert session.history[..|session.history|] == session.history;
        assert Moment(session.Call(|old(session.history)|, old(session.turn)), |session.history|);
      }
    }

    /** The statement itself, once the key is free. */
    method Upsert(me: Worker, request: Request, tx: Tx, record: Record) returns (r: Result<bool, Stage>)
      requires session.Valid() && At(session.world, me, request, Stamped(tx, record))
      modifies session
      ensures session.Valid() && old(session.history) <= session.history && old(session.turn) <= session.turn
      ensures Quiet(old(session.world), session.world, me) && old(session.world).db.rows.Keys <= session.world.db.rows.Keys
      ensures r.Err? ==>
                && At(session.world, me, request, r.error)
                && Why(session.Call(|old(session.history)|, old(session.turn)), me, request, r.error)
      ensures r.Ok? && r.value ==>
                At(session.world, me, request, Recorded(tx, record)) && MayReplace(session.world.db.records, request.key, record.createdAt)
      ensures r.Ok? && !r.value ==>
                && At(session.world, me, request, Querying(Some(LostUpsert(record.createdAt))))
                && LookUp(session.world.db.records, request.key, record.createdAt).Some?
    {
      var waited := session.Wait(me, request, Stamped(tx, record), KeyLock);
      if waited.Err? {
        return Err(waited.error);
      }
      var records := session.world.db.records;
      session.Move(DurableProtocol.Upsert(me));
      r := Ok(request.key !in records || records[request.key].completed.expiresAt <= record.createdAt);
    }
  }

  /** One dispatch's durable execution; it owns its session for as long as it is active. */
  class TransactionalIdempotencyExecution {
    const session: Session
    const store: PostgresDurableIdempotencyStore
    const uow: U.SqlAlchemyUnitOfWork
    var active: bool

    ghost predicate Valid()
      reads this, session, uow
    {
      session.Valid() && store.session == session && (!active ==> !uow.inTransaction)
    }

    constructor (session: Session, store: PostgresDurableIdempotencyStore, uow: U.SqlAlchemyUnitOfWork)
      requires session.Valid() && store.session == session && !uow.inTransaction
      ensures Valid() && !active && this.session == session && this.uow == uow
    {
      this.session, this.store, this.uow := session, store, uow;
      active := false;
    }

    /** The read of a versioned update and its version check. */
    method ReadRow(me: Worker, request: Request) returns (r: Result<Row, Stage>)
      requires session.Valid() && At(session.world, me, request, Handling(NEW_TX)) && request.command.Update?
      modifies session
      ensures session.Valid() && old(session.history) <= session.history && old(session.turn) <= session.turn
      ensures Quiet(old(session.world), session.world, me)
      ensures r.Err? ==>
                && At(session.world, me, request, r.error)
                && Why(session.Call(|old(session.history)|, old(session.turn)), me, request, r.error)
      ensures r.Ok? ==>
                At(session.world, me, request, Handling(Tx(Some(r.value), map[], 0))) && r.value.version == request.command.expected
    {
      var u := request.command.row;
      var waited := session.Wait(me, request, Handling(NEW_TX), NoLock);
      if waited.Err? {
        return Err(waited.error);
      }
      var rows := session.world.db.rows;
      ghost var h := session.history;
      session.Move(Read(me));
      assert session.history[..|h|] == h;
      if u !in rows {
        WhyOutdated(session.Call(|old(session.history)|, old(session.turn)), |h|, me, request, NotFound);
        return Err(RolledBack(NotFound));
      }
      if rows[u].version != request.command.expected {
        WhyOutdated(session.Call(|old(session.history)|, old(session.turn)), |h|, me, request, VersionMismatch);
        return Err(RolledBack(VersionMismatch));
      }
      r := Ok(rows[u]);
    }

    /** The conditional UPDATE, which may wait for the row. */
    method WriteRow(me: Worker, request: Request, read: Row, content: Content) returns (r: Result<Tx, Stage>)
      requires session.Valid() && request.command.Update?
      requires At(session.world, me, request, Handling(Tx(Some(read), map[], 0)))
      modifies session
      ensures session.Valid() && old(session.history) <= session.history && old(session.turn) <= session.turn
      ensures Quiet(old(session.world), session.world, me)
      ensures r.Err? ==>
                && At(session.world, me, request, r.error)
                && Why(session.Call(|old(session.history)|, old(session.turn)), me, request, r.error)
      ensures r.Ok? ==>
                && At(session.world, me, request, Handling(r.value)) && HandlerDone(request.command, r.value)
                && r.value == Tx(Some(read), map[request.command.row := Write(Some(read), Row(read.version + 1, content))], 0)
    {
      var u, expected := request.command.row, request.command.expected;
      var waited := session.Wait(me, request, Handling(Tx(Some(read), map[], 0)), RowLock(u));
      if waited.Err? {
        return Err(waited.error);
      }
      var rows := session.world.db.rows;
      ghost var h := session.history;
      session.Move(Change(me, content));
      assert session.history[..|h|] == h;
      if u !in rows {
        WhyOutdated(session.Call(|old(session.history)|, old(session.turn)), |h|, me, request, NotFound);
        return Err(RolledBack(NotFound));
      }
      if rows[u].version != expected {
        WhyOutdated(session.Call(|old(session.history)|, old(session.turn)), |h|, me, request, VersionMismatch);
        return Err(RolledBack(VersionMismatch));
      }
      r := Ok(Tx(Some(read), map[u := Write(Some(read), Row(read.version + 1, content))], 0));
    }

    /** A versioned update: read the row, check its version, write it conditionally. */
    method RunUpdate(me: Worker, request: Request, operation: Operation) returns (r: Result<Tx, Stage>)
      requires session.Valid() && At(session.world, me, request, Handling(NEW_TX)) && request.command.Update?
      modifies session
      ensures session.Valid() && old(session.history) <= session.history && old(session.turn) <= session.turn
      ensures Quiet(old(session.world), session.world, me)
      ensures r.Err? ==>
                && At(session.world, me, request, r.error)
                && Why(session.Call(|old(session.history)|, old(session.turn)), me, request, r.error)
      ensures r.Ok? ==>
                && At(session.world, me, request, Handling(r.value)) && HandlerDone(request.command, r.value)
                && var read := r.value.read.value;
                   var content := operation.change(read);
                   && read.version == request.command.expected
                   && r.value.writes ==
                      if content.None? then map[]
                      else map[request.command.row := Write(Some(read), Row(request.command.expected + 1, content.value))]
    {
      var read := ReadRow(me, request);
      if read.Err? {
        return Err(read.error);
      }
      var content := operation.change(read.value);
      if content.None? {
        return Ok(Tx(Some(read.value), map[], 0));
      }
      ghost var h, turn := |session.history|, session.turn;
      r := WriteRow(me, request, read.value, content.value);
      if r.Err? {
        WhyWider(session.Call(h, turn), session.Call(|old(session.history)|, old(session.turn)), me, request, r.error);
      }
    }

    /** Provisioning: the default rows are inserted one after the other, each only if it is absent. */
    method RunProvision(me: Worker, request: Request, operation: Operation) returns (r: Result<Tx, Stage>)
      requires session.Valid() && At(session.world, me, request, Handling(NEW_TX)) && request.command.Provision?
      modifies session
      ensures session.Valid() && old(session.history) <= session.history && old(session.turn) <= session.turn
      ensures Quiet(old(session.world), session.world, me)
      ensures r.Err? ==>
                && At(session.world, me, request, r.error)
                && Why(session.Call(|old(session.history)|, old(session.turn)), me, request, r.error)
      ensures r.Ok? ==>
                && At(session.world, me, request, Handling(r.value)) && HandlerDone(request.command, r.value)
                && Provisioned(request.command.rows, |request.command.rows|, operation.initial, r.value.writes,
                               session.world.db.rows.Keys)
    {
      var rows := request.command.rows;
      var tx := NEW_TX;
      while tx.inserted < |rows|
        invariant session.Valid() && old(session.history) <= session.history && old(session.turn) <= session.turn
        invariant Quiet(old(session.world), session.world, me)
        invariant tx.inserted <= |rows| && At(session.world, me, request, Handling(tx))
        invariant Provisioned(rows, tx.inserted, operation.initial, tx.writes, session.world.db.rows.Keys)
        decreases |rows| - tx.inserted
      {
        var u := rows[tx.inserted];
        ghost var before := session.world.db.rows.Keys;
        ghost var h, turn := |session.history|, session.turn;
        var waited := session.Wait(me, request, Handling(tx), RowLock(u));
        if waited.Err? {
          WhyWider(session.Call(h, turn), session.Call(|old(session.history)|, old(session.turn)), me, request, waited.error);
          return Err(waited.error);
        }
        var content := operation.initial(tx.inserted);
        var absent := u !in session.world.db.rows && u !in tx.writes;
        ProvisionNext(rows, tx.inserted, operation.initial, tx.writes, before, session.world.db.rows.Keys);
        session.Move(Insert(me, content));
        tx := Tx(tx.read, if absent then tx.writes[u := Write(None, Row(1, content))] else tx.writes, tx.inserted + 1);
      }
      r := Ok(tx);
    }

    method RunHandler(me: Worker, request: Request, operation: Operation) returns (r: Result<Tx, Stage>)
      requires session.Valid() && At(session.world, me, request, Handling(NEW_TX))
      modifies session
      ensures session.Valid() && old(session.history) <= session.history && old(session.turn) <= session.turn
      ensures Quiet(old(session.world), session.world, me)
      ensures r.Err? ==>
                && At(session.world, me, request, r.error)
                && Halts(session.Call(|old(session.history)|, old(session.turn)), me, request, operation, r.error)
      ensures r.Ok? ==> At(session.world, me, request, Handling(r.value)) && HandlerDone(request.command, r.value)
      ensures r.Ok? ==> operation.finish(r.value).Some?
      ensures r.Ok? ==> Performed(operation, request.command, r.value, session.world.db.rows.Keys)
    {
      match request.command {
        case Update(_, _) => r := RunUpdate(me, request, operation);
        case Provision(_) => r := RunProvision(me, request, operation);
      }
      if r.Ok? && operation.finish(r.value).None? {
        ghost var h := session.history;
        session.Move(Fail(me, HandlerFailed));
        assert session.history[..|h|] == h;
        assert Raises(WorldAt(session.Call(|old(session.history)|, old(session.turn)), |h|), operation, request.command, r.value);
        r := Err(RolledBack(HandlerFailed));
      }
    }

    /** Begins a transaction; a fault leaves none open and interrupts the attempt, if there is one. */
    method Begin(me: Worker) returns (fault: Option<Fault>)
      requires session.Valid() && !uow.inTransaction
      requires me in session.world.attempts ==>
                 !session.world.attempts[me].stage.Returned? && !session.world.attempts[me].stage.Gone?
      modifies session, uow
      ensures session.Valid() && old(session.history) <= session.history && old(session.turn) <= session.turn
      ensures uow.inTransaction == fault.None?
      ensures Quiet(old(session.world), session.world, me)
      ensures session.turn == old(session.turn) + 1 && fault == session.turns(old(session.turn)).fault
      ensures me in session.world.attempts <==> me in old(session.world).attempts
      ensures me in old(session.world).attempts ==>
                var a := old(session.world).attempts[me];
                At(session.world, me, a.request, if fault.Some? then Interrupted(a.stage, fault.value) else a.stage)
    {
      var t := session.Await(me);
      fault := t.fault;
      if fault.Some? && me in session.world.attempts {
        var _ := session.Interrupt(me, fault.value);
      }
      if fault.None? || fault.value.Driver? {
        var entered := uow.Enter(if fault.Some? then Some(fault.value.error) else None);
        assert entered.Ok? <==> fault.None?;
      }
    }

    /** The attempt of this session, if there is one, is about to look for the record of this key. */
    ghost predicate Asks(me: Worker, key: Identity, fingerprint: Digest, cause: Option<Cause>)
      reads this, session, uow
    {
      && session.Valid() && store.session == session
      && (me in session.world.attempts ==>
            && session.world.attempts[me].stage == Querying(cause)
            && session.world.attempts[me].request.key == key
            && session.world.attempts[me].request.fingerprint == fingerprint)
    }

    /** The lookup statement, on some committed state that existed during the call. */
    method Look(me: Worker, key: Identity, fingerprint: Digest, cause: Option<Cause>)
      returns (r: Result<Option<Completed>, Fault>)
      requires Asks(me, key, fingerprint, cause) && uow.inTransaction
      modifies session
      ensures session.Valid() && old(session.history) <= session.history && old(session.turn) <= session.turn
      ensures Quiet(old(session.world), session.world, me)
      ensures session.turn == old(session.turn) + 1
      ensures me in session.world.attempts <==> me in old(session.world).attempts
      ensures me in old(session.world).attempts ==>
                At(session.world, me, old(session.world).attempts[me].request,
                   if r.Err? then Interrupted(Querying(cause), r.error) else Judging(cause, r.value))
      ensures var t := session.turns(old(session.turn));
              if t.fault.Some? then r == Err(t.fault.value)
              else exists n :: |old(session.history)| <= n <= |session.history| &&
                               r == Ok(LookUp(Run(INITIAL, session.history[..n]).db.records, key, t.now))
    {
      var attempting := me in session.world.attempts;
      var t := session.Await(me);
      if t.fault.Some? {
        if attempting { var _ := session.Interrupt(me, t.fault.value); }
        return Err(t.fault.value);
      }
      var found := store.GetCompleted(key, t.now);
      ghost var h := session.history;
      if attempting { session.Move(Query(me, t.now)); }
      assert session.history[..|h|] == h;
      r := Ok(found);
    }

    /** The end of the lookup's transaction and its judgement. */
    method Decide(me: Worker, key: Identity, fingerprint: Digest, cause: Option<Cause>, found: Option<Completed>)
      returns (r: Result<Option<Outcome>, Fault>)
      requires session.Valid() && uow.inTransaction
      requires me in session.world.attempts ==>
                 && session.world.attempts[me].stage == Judging(cause, found)
                 && session.world.attempts[me].request.fingerprint == fingerprint
      modifies session, uow
      ensures session.Valid() && old(session.history) <= session.history && old(session.turn) <= session.turn && !uow.inTransaction
      ensures Quiet(old(session.world), session.world, me)
      ensures me in session.world.attempts <==> me in old(session.world).attempts
      ensures me in old(session.world).attempts ==>
                At(session.world, me, old(session.world).attempts[me].request, Found(cause, r))
      ensures var t := session.turns(old(session.turn));
              r == if t.fault.Some? then Err(t.fault.value) else Ok(Judgement(found, fingerprint, t.now))
    {
      var attempting := me in session.world.attempts;
      var t := session.Await(me);
      var _ := uow.Exit(U.Normally, if t.fault.Some? && t.fault.value.Driver? then Some(t.fault.value.error) else None);
      if t.fault.Some? {
        if attempting { var _ := session.Interrupt(me, t.fault.value); }
        return Err(t.fault.value);
      }
      if attempting { session.Move(Judge(me, t.now)); }
      if found.None? || found.value.expiresAt <= t.now {
        r := Ok(None);
      } else if found.value.fingerprint != fingerprint {
        r := Ok(Some(KeyConflict));
      } else {
        r := Ok(Some(Replayed(found.value)));
      }
    }

    /**
     Looks for the record of a key, on behalf of an attempt or for nobody in particular. The answer is the
     judgement, at a second clock reading, of one committed state that existed during the call.
     */
    method Find(me: Worker, key: Identity, fingerprint: Digest, cause: Option<Cause>)
      returns (r: Result<Option<Outcome>, Fault>)
      requires Asks(me, key, fingerprint, cause) && !uow.inTransaction
      modifies session, uow
      ensures session.Valid() && old(session.history) <= session.history && old(session.turn) <= session.turn && !uow.inTransaction
      ensures Quiet(old(session.world), session.world, me)
      ensures me in session.world.attempts <==> me in old(session.world).attempts
      ensures me in old(session.world).attempts ==>
                At(session.world, me, old(session.world).attempts[me].request, Found(cause, r))
      ensures LookedUp(session.Call(|old(session.history)|, old(session.turn)), old(session.turn), key, fingerprint, r)
    {
      var begun := Begin(me);
      if begun.Some? {
        return Err(begun.value);
      }
      var looked := Look(me, key, fingerprint, cause);
      if looked.Err? {
        var _ := uow.Exit(if looked.error.Driver? then U.WithSqlError(looked.error.error) else U.WithOtherError, None);
        return Err(looked.error);
      }
      ghost var h := session.history;
      r := Decide(me, key, fingerprint, cause, looked.value);
      ghost var c := session.Call(|old(session.history)|, old(session.turn));
      assert forall n :: 0 <= n <= |h| ==> WorldAt(c, n) == Run(INITIAL, h[..n]) by {
        assert forall n :: 0 <= n <= |h| ==> session.history[..n] == h[..n];
      }
    }

    /** The end of the business transaction: an acknowledged commit, a rollback or a commit in doubt. */
    method Commit(me: Worker, request: Request, tx: Tx, record: Record, ghost operation: Operation)
      returns (r: Result<Completed, Stage>)
      requires session.Valid() && At(session.world, me, request, Recorded(tx, record)) && uow.inTransaction
      requires O.CommitsBy(session.world.db.log, me) == 0 && operation.finish(tx) == Some(record.completed.result)
      requires Performed(operation, request.command, tx, session.world.db.rows.Keys)
      modifies session, uow
      ensures session.Valid() && old(session.history) <= session.history && old(session.turn) <= session.turn && !uow.inTransaction
      ensures At(session.world, me, request, Ended(r))
      ensures r.Ok? ==> r.value == record.completed
      ensures r.Err? ==> Why(session.Call(|old(session.history)|, old(session.turn)), me, request, r.error)
      ensures OnlyOperation(session.world.db.log, me, request, operation)
    {
      var t := session.Await(me);
      WhetherItLandsOrNot(session.history, me, request, tx, record, operation, old(session.world).db.rows.Keys);
      if t.fault.None? {
        var _ := uow.Exit(U.Normally, None);
        session.Move(CommitAcknowledged(me));
        return Ok(record.completed);
      }
      var stopped := LoseCommit(me, request, tx, record, t.fault.value, t.landed, operation);
      WhyLost(session.Call(|old(session.history)|, old(session.turn)), old(session.turn), t.fault.value, me, request, tx, record);
      r := Err(stopped);
    }

    /** A commit that is not acknowledged: cancelled or of unknown outcome, in which case it may have landed, or refused. */
    method LoseCommit(me: Worker, request: Request, tx: Tx, record: Record, fault: Fault, landed: bool, ghost operation: Operation)
      returns (stage: Stage)
      requires session.Valid() && At(session.world, me, request, Recorded(tx, record)) && uow.inTransaction
      requires OnlyOperation(session.world.db.log, me, request, operation)
      requires OnlyOperation(Publish(session.world.db, me, request, tx.writes, Some(record)).log, me, request, operation)
      modifies session, uow
      ensures session.Valid() && old(session.history) <= session.history && old(session.turn) <= session.turn && !uow.inTransaction
      ensures At(session.world, me, request, stage) && session.turn == old(session.turn)
      ensures stage == Lost(tx, record, fault)
      ensures OnlyOperation(session.world.db.log, me, request, operation)
    {
      if fault.Cancelled? {
        var _ := uow.Exit(U.WithOtherError, None);
        session.Move(Crash(me, landed));
        return Gone;
      }
      var _ := uow.Exit(U.Normally, Some(fault.error));
      if ErrorOf(fault.error).Unavailable? {
        session.Move(CommitUnknown(me, landed));
        return Returned(Raised(Unavailable));
      }
      stage := session.Interrupt(me, fault);
    }

    /** The handler's result becomes a record, which is committed with the handler's writes. */
    method Persist(me: Worker, request: Request, tx: Tx, result: StoredResult, ghost operation: Operation)
      returns (r: Result<Completed, Stage>)
      requires session.Valid() && store.session == session && uow.inTransaction
      requires At(session.world, me, request, Handling(tx)) && HandlerDone(request.command, tx)
      requires O.CommitsBy(session.world.db.log, me) == 0 && operation.finish(tx) == Some(result)
      requires Performed(operation, request.command, tx, session.world.db.rows.Keys)
      modifies session, uow
      ensures session.Valid() && old(session.history) <= session.history && old(session.turn) <= session.turn && !uow.inTransaction
      ensures At(session.world, me, request, Ended(r))
      ensures r.Ok? ==> r.value.result == result && r.value.fingerprint == request.fingerprint
      ensures r.Err? ==> Why(session.Call(|old(session.history)|, old(session.turn)), me, request, r.error)
      ensures OnlyOperation(session.world.db.log, me, request, operation)
    {
      var added := AddRecord(me, request, tx, result);
      if added.Err? {
        var _ := uow.Exit(U.WithOtherError, None);
        NothingCommitted(session.world.db.log, me, request, operation);
        return Err(added.error);
      }
      StillPerformed(operation, request.command, tx, old(session.world).db.rows.Keys, session.world.db.rows.Keys);
      ghost var h, turn := |session.history|, session.turn;
      r := Commit(me, request, tx, added.value, operation);
      if r.Err? {
        WhyWider(session.Call(h, turn), session.Call(|old(session.history)|, old(session.turn)), me, request, r.error);
      }
    }

    /** The handler's result becomes a record in its transaction, unless a live one is there. */
    method AddRecord(me: Worker, request: Request, tx: Tx, result: StoredResult) returns (r: Result<Record, Stage>)
      requires session.Valid() && store.session == session
      requires At(session.world, me, request, Handling(tx)) && HandlerDone(request.command, tx)
      modifies session
      ensures session.Valid() && old(session.history) <= session.history && old(session.turn) <= session.turn
      ensures Quiet(old(session.world), session.world, me) && old(session.world).db.rows.Keys <= session.world.db.rows.Keys
      ensures At(session.world, me, request, if r.Ok? then Recorded(tx, r.value) else r.error)
      ensures r.Ok? ==> r.value.completed.result == result && r.value.completed.fingerprint == request.fingerprint
      ensures r.Err? ==> Why(session.Call(|old(session.history)|, old(session.turn)), me, request, r.error)
    {
      var t := session.Await(me);
      var completed := Completed(result, t.now + request.retentionSeconds * SECOND, request.fingerprint);
      session.Move(Finish(me, result, t.now));
      ghost var h, turn := |session.history|, session.turn;
      var added := store.TryAddCompleted(me, request, tx, completed);
      if added.Err? || !added.value {
        WhyNotAdded(session.Call(h, turn), session.Call(|old(session.history)|, old(session.turn)), me, request, tx, completed, added);
        return Err(session.world.attempts[me].stage);
      }
      r := Ok(session.world.attempts[me].stage.record);
    }

    /** The business transaction: handler, record, commit. */
    method Transact(me: Worker, request: Request, operation: Operation) returns (r: Result<Completed, Stage>)
      requires session.Valid() && store.session == session && !uow.inTransaction
      requires At(session.world, me, request, Handling(NEW_TX))
      requires O.CommitsBy(session.world.db.log, me) == 0
      modifies session, uow
      ensures session.Valid() && old(session.history) <= session.history && old(session.turn) <= session.turn && !uow.inTransaction
      ensures At(session.world, me, request, Ended(r))
      ensures r.Err? ==> Halts(session.Call(|old(session.history)|, old(session.turn)), me, request, operation, r.error)
      ensures OnlyOperation(session.world.db.log, me, request, operation)
    {
      var begun := Begin(me);
      if begun.Some? {
        NothingCommitted(session.world.db.log, me, request, operation);
        WhyInterrupted(session.Call(|old(session.history)|, old(session.turn)), old(session.turn), begun.value, me, request,
                       Handling(NEW_TX));
        return Err(session.world.attempts[me].stage);
      }
      ghost var h, turn := |session.history|, session.turn;
      var handled := RunHandler(me, request, operation);
      if handled.Err? {
        var _ := uow.Exit(U.WithOtherError, None);
        NothingCommitted(session.world.db.log, me, request, operation);
        HaltsWider(session.Call(h, turn), session.Call(|old(session.history)|, old(session.turn)), me, request, operation, handled.error);
        return Err(handled.error);
      }
      h, turn := |session.history|, session.turn;
      r := Persist(me, request, handled.value, operation.finish(handled.value).value, operation);
      if r.Err? {
        WhyWider(session.Call(h, turn), session.Call(|old(session.history)|, old(session.turn)), me, request, r.error);
      }
    }

    /** The body of `execute_once`: replay, or execute, or resolve the winner of a lost race. */
    method Attempt(me: Worker, request: Request, operation: Operation) returns (stage: Stage)
      requires session.Valid() && store.session == session && !uow.inTransaction
      requires me !in session.world.attempts && request.retentionSeconds > 0
      modifies session, uow
      ensures session.Valid() && old(session.history) <= session.history && !uow.inTransaction
      ensures At(session.world, me, request, stage) && (stage.Returned? || stage.Gone?)
      ensures OnlyOperation(session.world.db.log, me, request, operation)
      ensures Told(session.Call(|old(session.history)|, old(session.turn)), me, request, operation, stage)
    {
      O.OutcomeTellsTheCommit(session.history, me);
      session.Advance(Arrive(me, request));
      ghost var h := |session.history|;
      var existing := Find(me, request.key, request.fingerprint, None);
      ghost var found, h1, turn1 := session.Call(h, old(session.turn)), |session.history|, session.turn;
      if existing.Err? || existing.value.Some? {
        NothingCommitted(session.world.db.log, me, request, operation);
        LookedUpWider(found, session.Call(|old(session.history)|, old(session.turn)), old(session.turn), request.key,
                        request.fingerprint, existing);
        return Found(None, existing);
      }
      var done := Transact(me, request, operation);
      ghost var transacted, h2, turn2 := session.Call(h1, turn1), |session.history|, session.turn;
      stage := Resolve(me, request, operation, done);
      ToldInTheEnd(session.Call(|old(session.history)|, old(session.turn)), found, transacted, session.Call(h2, turn2), me, request, operation, done, stage);
    }

    /** The answer of an attempt whose transaction has ended: its result, or what a lookup of the winner says. */
    method Resolve(me: Worker, request: Request, ghost operation: Operation, done: Result<Completed, Stage>) returns (stage: Stage)
      requires session.Valid() && store.session == session && !uow.inTransaction
      requires At(session.world, me, request, Ended(done))
      requires done.Err? ==> HasStopped(done.error)
      requires OnlyOperation(session.world.db.log, me, request, operation)
      modifies session, uow
      ensures session.Valid() && old(session.history) <= session.history && old(session.turn) <= session.turn && !uow.inTransaction
      ensures At(session.world, me, request, stage) && (stage.Returned? || stage.Gone?)
      ensures OnlyOperation(session.world.db.log, me, request, operation)
      ensures Resolved(session.Call(|old(session.history)|, old(session.turn)), request, Ended(done), stage)
    {
      if done.Ok? {
        return Returned(Executed(done.value));
      }
      if !done.error.Querying? {
        return done.error;
      }
      O.OutcomeTellsTheCommit(session.history, me);
      var cause := done.error.cause;
      var winner := Find(me, request.key, request.fingerprint, cause);
      NothingCommitted(session.world.db.log, me, request, operation);
      stage := Found(cause, winner);
    }

    /**
     `execute_once` as its callers see it, for every interleaving with other attempts and every fault: it refuses
     concurrent use of one session and a retention that is not positive without touching anything; otherwise
     its answer tells exactly what it has committed. An execution means one commit of this request with the
     reported record; a replay is a committed record of this key and fingerprint and means no commit of its own,
     as does any error, except that an unavailable database and a cancellation leave it open whether the one commit
     took place. In every case a commit carries exactly the writes that `operation` asks for and its stored result, and
     the answer is what the lookups and the transaction of the call come to, given what happened at their awaits.
     */
    method ExecuteOnce(me: Worker, key: Identity, fingerprint: Digest, command: Command, operation: Operation,
                       retentionSeconds: int)
      returns (r: Result<Outcome, ExecutionError>)
      requires Valid() && me !in session.world.attempts
      modifies this, session, uow
      ensures Valid() && old(session.history) <= session.history
      ensures active == old(active)
      ensures old(active) <==> r == Err(AlreadyActive)
      ensures !old(active) && retentionSeconds <= 0 <==> r == Err(InvalidRetention)
      ensures old(active) || retentionSeconds <= 0 ==> session.world == old(session.world)
      ensures !old(active) && retentionSeconds > 0 ==>
                var request := Request(key, fingerprint, retentionSeconds, command);
                var log := session.world.db.log;
                && (r.Ok? ==> At(session.world, me, request, Returned(r.value)) && !r.value.Raised?)
                && (r.Err? && r.error.Failed? ==> At(session.world, me, request, Returned(Raised(r.error.error))))
                && (r == Err(TaskCancelled) ==> At(session.world, me, request, Gone))
                && TellsTheCommit(log, me, request, r)
                && OnlyOperation(log, me, request, operation)
                && exists stage :: Told(session.Call(|old(session.history)|, old(session.turn)), me, request, operation, stage) && ReportsAs(stage, r)
    {
      if active {
        return Err(AlreadyActive);
      }
      active := true;
      if retentionSeconds <= 0 {
        active := false;
        return Err(InvalidRetention);
      }
      var request := Request(key, fingerprint, retentionSeconds, command);
      var stage := Attempt(me, request, operation);
      active := false;
      r := Report(stage);
      ghost var c := session.Call(|old(session.history)|, old(session.turn));
      assert Told(c, me, request, operation, stage);
      EndTellsTheCommit(session.history, me, request, stage);
    }

    static function ReportLookup(r: Result<Option<Outcome>, Fault>): Result<Option<Outcome>, ExecutionError> {
      match r
      case Ok(outcome) => Ok(outcome)
      case Err(Driver(e)) => Err(Failed(ErrorOf(e)))
      case Err(Cancelled) => Err(TaskCancelled)
    }

    /** `find_existing`: a lookup that leaves every attempt of this session as it was. */
    method FindExisting(me: Worker, key: Identity, fingerprint: Digest)
      returns (r: Result<Option<Outcome>, ExecutionError>)
      requires Valid() && me !in session.world.attempts
      modifies this, session, uow
      ensures Valid() && old(session.history) <= session.history && active == old(active)
      ensures old(active) ==> r == Err(AlreadyActive) && session.world == old(session.world)
      ensures me !in session.world.attempts
      ensures !old(active) ==>
                exists answer ::
                  LookedUp(session.Call(|old(session.history)|, old(session.turn)), old(session.turn), key, fingerprint, answer) && r == ReportLookup(answer)
    {
      if active {
        return Err(AlreadyActive);
      }
      active := true;
      var found := Find(me, key, fingerprint, None);
      active := false;
      r := ReportLookup(found);
      assert LookedUp(session.Call(|old(session.history)|, old(session.turn)), old(session.turn), key, fingerprint, found);
    }
  }
}
