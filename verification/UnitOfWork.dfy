/** Transaction contexts of one database session, and what driver errors become on the way out. */
module UnitOfWork {
  import opened Results

  /** An error with its SQLSTATE, or one of the errors the connection pool raises. */
  datatype DriverError =
    | Dbapi(sqlstate: Option<string>, connectionInvalidated: bool)
    | Disconnection
    | PoolTimeout
    | OtherSql

  datatype PersistenceError = Conflict | Unavailable | Unchanged(error: DriverError)

  datatype UowError = NestedTransaction | NotStarted | Persistence(error: PersistenceError)

  /** How the body of a context ended. */
  datatype Ending = Normally | WithSqlError(error: DriverError) | WithOtherError

  const SERIALIZATION_FAILURE := "40001"
  const DEADLOCK_DETECTED := "40P01"

  predicate ConnectionClass(sqlstate: string) {
    |sqlstate| >= 2 && sqlstate[0] == '0' && sqlstate[1] == '8'
  }

  /** Only known errors are translated; errors of statements and data stay what they are. */
  function Translate(e: DriverError): (p: PersistenceError)
    ensures p.Conflict? <==> e.Dbapi? && e.sqlstate in {Some("40001"), Some("40P01")}
    ensures p.Unavailable? <==>
              || e.Disconnection? || e.PoolTimeout?
              || (e.Dbapi? && !p.Conflict? && (e.connectionInvalidated || (e.sqlstate.Some? && "08" <= e.sqlstate.value)))
    ensures p.Unchanged? ==> p.error == e
  {
    match e
    case Dbapi(sqlstate, invalidated) =>
      if sqlstate == Some(SERIALIZATION_FAILURE) || sqlstate == Some(DEADLOCK_DETECTED) then Conflict
      else if invalidated || (sqlstate.Some? && ConnectionClass(sqlstate.value)) then Unavailable
      else Unchanged(e)
    case Disconnection => Unavailable
    case PoolTimeout => Unavailable
    case OtherSql => Unchanged(e)
  }

  class SqlAlchemyUnitOfWork {
    var inTransaction: bool

    constructor ()
      ensures !inTransaction
    {
      inTransaction := false;
    }

    /** Refused inside a transaction; a transaction that could not be begun is not open. */
    method Enter(begin: Option<DriverError>) returns (r: Result<(), UowError>)
      modifies this
      ensures old(inTransaction) ==> r == Err(NestedTransaction) && inTransaction
      ensures !old(inTransaction) ==>
                && inTransaction == begin.None?
                && r == if begin.Some? then Err(Persistence(Translate(begin.value))) else Ok(())
    {
      if inTransaction {
        return Err(NestedTransaction);
      }
      if begin.Some? {
        return Err(Persistence(Translate(begin.value)));
      }
      inTransaction := true;
      r := Ok(());
    }

    /** However the context ends, the session is free again; an error of the commit hides that of the body. */
    method Exit(body: Ending, finish: Option<DriverError>) returns (r: Result<(), UowError>)
      modifies this
      ensures !inTransaction
      ensures !old(inTransaction) ==> r == Err(NotStarted)
      ensures old(inTransaction) ==>
                r == if finish.Some? then Err(Persistence(Translate(finish.value)))
                     else if body.WithSqlError? then Err(Persistence(Translate(body.error)))
                     else Ok(())
    {
      if !inTransaction {
        return Err(NotStarted);
      }
      inTransaction := false;
      if finish.Some? {
        return Err(Persistence(Translate(finish.value)));
      }
      if body.WithSqlError? {
        return Err(Persistence(Translate(body.error)));
      }
      r := Ok(());
    }
  }
}
