/** A command without an idempotency policy: the dispatch owns the transaction around the handler. */
module CommandExecution {
  import opened Results
  import opened Models
  import opened ResultCodec
  import opened UnitOfWork

  datatype CommandError =
    | HandlerRaised
    | Refused(error: CodecError)
    | Uow(failure: UowError)
    | TaskCancelled

  /** What happens to a commit; with a lost connection or a cancellation it may have landed all the same. */
  datatype CommitFate = Acknowledged | Fails(error: DriverError, landed: bool) | Cancelled(landed: bool)

  /** The commit took effect. */
  predicate Lands(fate: CommitFate) {
    match fate
    case Acknowledged => true
    case Fails(e, landed) => landed && Translate(e).Unavailable?
    case Cancelled(landed) => landed
  }

  /** `State` is what the transaction changes; a handler leaves a new state and a result, or raises. */
  class CommandExecution<State, T(!new)> {
    var committed: State
    const uow: SqlAlchemyUnitOfWork
    const codec: Codec<T>

    constructor (initial: State, uow: SqlAlchemyUnitOfWork, codec: Codec<T>)
      ensures committed == initial && this.uow == uow && this.codec == codec
    {
      committed := initial;
      this.uow, this.codec := uow, codec;
    }

    /** The handler's result is checked against its contract in both modes. */
    method InvokeHandler(handler: State -> Option<(State, T)>, mode: ResultMode)
      returns (r: Result<(State, StoredResult), CommandError>)
      ensures match handler(committed)
              case None => r == Err(HandlerRaised)
              case Some((pending, x)) =>
                var stored := Store(mode, codec, x);
                r == if stored.Ok? then Ok((pending, stored.value)) else Err(Refused(stored.error))
    {
      var handled := handler(committed);
      if handled.None? {
        return Err(HandlerRaised);
      }
      var (pending, x) := handled.value;
      if !codec.accepts(x) {
        return Err(Refused(ContractViolated));
      }
      match mode {
        case CompletionOnly => r := Ok((pending, COMPLETION));
        case Replayable => r := Ok((pending, Snapshot(codec, x)));
      }
    }

    /** Leaves the transaction of an accepted result with a commit. */
    method Commit(pending: State, fate: CommitFate) returns (r: Result<(), CommandError>)
      requires uow.inTransaction
      modifies this, uow
      ensures !uow.inTransaction
      ensures committed == if Lands(fate) then pending else old(committed)
      ensures r == match fate
                   case Acknowledged => Ok(())
                   case Fails(e, _) => Err(Uow(Persistence(Translate(e))))
                   case Cancelled(_) => Err(TaskCancelled)
    {
      if Lands(fate) {
        committed := pending;
      }
      match fate {
        case Acknowledged =>
          var _ := uow.Exit(Normally, None);
          r := Ok(());
        case Fails(e, _) =>
          var exited := uow.Exit(Normally, Some(e));
          r := Err(Uow(exited.error));
        case Cancelled(_) =>
          var _ := uow.Exit(WithOtherError, None);
          r := Err(TaskCancelled);
      }
    }

    /**
     All or nothing: a handler that raises and a result that its contract refuses never commit; a result that is
     returned has been committed and is the handler's own, or nothing if completion only was asked for; and only an
     unavailable database or a cancellation leaves it open whether the state was committed.
     */
    method Execute(handler: State -> Option<(State, T)>, mode: ResultMode, begin: Option<DriverError>, fate: CommitFate)
      returns (r: Result<Option<T>, CommandError>)
      requires Lawful(codec)
      modifies this, uow
      ensures uow.inTransaction == old(uow.inTransaction)
      ensures old(uow.inTransaction) ==> r == Err(Uow(NestedTransaction)) && committed == old(committed)
      ensures !old(uow.inTransaction) && begin.Some? ==>
                r == Err(Uow(Persistence(Translate(begin.value)))) && committed == old(committed)
      ensures !old(uow.inTransaction) && begin.None? ==>
                match handler(old(committed))
                case None => r == Err(HandlerRaised) && committed == old(committed)
                case Some((pending, x)) =>
                  if codec.accepts(x)
                  then
                    && committed == (if Lands(fate) then pending else old(committed))
                    && (r.Ok? <==> fate.Acknowledged?)
                    && (r.Ok? ==> committed == pending && r.value == if mode.CompletionOnly? then None else Some(x))
                    && (fate.Fails? && Translate(fate.error).Unavailable? ==> committed == if fate.landed then pending else old(committed))
                    && (fate.Cancelled? ==> committed == if fate.landed then pending else old(committed))
                  else committed == old(committed) && r == Err(Refused(ContractViolated))
      ensures r.Err? && r.error !in {TaskCancelled, Uow(Persistence(Unavailable))} ==> committed == old(committed)
    {
      var entered := uow.Enter(begin);
      if entered.Err? {
        return Err(Uow(entered.error));
      }
      var invoked := InvokeHandler(handler, mode);
      if invoked.Err? {
        var _ := uow.Exit(WithOtherError, None);
        return Err(invoked.error);
      }
      var (pending, stored) := invoked.value;
      var done := Commit(pending, fate);
      if done.Err? {
        return Err(done.error);
      }
      StoredIsDelivered(codec, mode, stored, handler(old(committed)).value.1);
      r := match Deliver(mode, codec, stored)
        case Ok(delivered) => Ok(delivered)
        case Err(error) => Err(Refused(error));
    }
  }

  lemma StoredIsDelivered<T(!new)>(c: Codec<T>, mode: ResultMode, stored: StoredResult, x: T)
    requires Lawful(c) && Store(mode, c, x) == Ok(stored)
    ensures c.accepts(x)
    ensures Deliver(mode, c, stored) == Ok(if mode.CompletionOnly? then None else Some(x))
  {
    StoreThenDeliver(c, x, mode, mode);
  }
}
