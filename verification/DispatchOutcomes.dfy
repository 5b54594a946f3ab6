/** What an answer tells about the effect of the dispatch that gave it. */
module DispatchOutcomes {
  import opened Results
  import opened Models
  import D = DurableProtocol
  import S = DurableSafety
  import O = DurableOutcomes
  import P = DispatchSafety
  import opened DispatchProtocol

  /** The durable execution of `x` never started, or has returned one of the outcomes that `p` accepts. */
  predicate Ended(d: D.World, x: Worker, p: D.Outcome -> bool) {
    x in d.attempts ==> d.attempts[x].stage.Returned? && p(d.attempts[x].stage.outcome)
  }

  function Carries(c: Completed): D.Outcome -> bool {
    (o: D.Outcome) => CarriesResult(o) && o.completed == c
  }

  /** The durable execution ended like this, or reports a lost commit while the server still decides on it. */
  predicate EndsWith(d: D.World, x: Worker, outcome: D.Outcome) {
    x in d.attempts && (d.attempts[x].stage == D.Returned(outcome) || (outcome == COMMIT_LOST && Committing(d, x)))
  }

  /** How far the durable execution of a dispatch has come, given its phase. */
  ghost predicate Tracks(d: D.World, x: Worker, p: Phase) {
    match p
    case Claiming => x !in d.attempts
    case Leased(_) => true
    case Unleased => true
    case Busy(_) => x !in d.attempts
    case BusyFound(_, _) => x !in d.attempts
    case Publishing(outcome) => EndsWith(d, x, outcome)
    case Abandoning => true
    case Answering(Give(c)) => Ended(d, x, Carries(c))
    case Answering(RefuseConflict) => Ended(d, x, (o: D.Outcome) => o.KeyConflict?)
    case Answering(RefuseBusy) => x !in d.attempts
    case Answered(Success(c, _)) => Ended(d, x, Carries(c))
    case Answered(Failed(KeyReused)) => Ended(d, x, (o: D.Outcome) => o.KeyConflict?)
    case Answered(Failed(StillRunning)) => x !in d.attempts
    case Answered(Failed(Unavailable)) => Ended(d, x, CarriesResult)
    case Answered(Failed(Durable(e))) =>
      if x in d.attempts then EndsWith(d, x, D.Raised(e)) else e in LOOKUP_ERRORS
    case Dead => true
  }

  ghost predicate Inv(w: World) {
    && (forall x :: x in w.dispatches ==> Tracks(w.durable, x, w.dispatches[x].phase))
    && (forall x :: x in w.durable.attempts ==> x in w.dispatches)
  }

  /** The steps of another dispatch do not matter. */
  lemma OthersKeepTrack(d: D.World, e: D.Event, x: Worker, p: Phase)
    requires Tracks(d, x, p) && e.worker != x
    ensures Tracks(D.Step(d, e), x, p)
  {
    S.OthersLeaveMine(d, e, x);
  }

  /** Neither do a dispatch's own steps once its execution has returned. */
  lemma ConcludeTracks(d: D.World, x: Worker, outcome: D.Outcome)
    requires EndsWith(d, x, outcome)
    ensures Tracks(d, x, Conclude(outcome))
  {
  }

  lemma PartIsMine(w: World, x: Worker, a: Action)
    requires x in w.dispatches && Allowed(w, x, a)
    ensures var part := DurablePart(w, x, a); part.Some? ==> part.value.worker == x
  {
  }

  lemma NextTracks(w: World, x: Worker, a: Action)
    requires Inv(w) && x in w.dispatches && Allowed(w, x, a)
    ensures Tracks(DurableStepped(w.durable, DurablePart(w, x, a)), x, NextPhase(w, x, a))
  {
    var d := w.dispatches[x];
    assert Tracks(w.durable, x, d.phase);
    match a {
      case Collect => ConcludeTracks(w.durable, x, w.durable.attempts[x].stage.outcome);
      case LoseCommit => ConcludeTracks(w.durable, x, COMMIT_LOST);
      case Complete => ConcludeTracks(w.durable, x, d.phase.outcome);
      case CompleteFails => ConcludeTracks(w.durable, x, d.phase.outcome);
      case Release => ConcludeTracks(w.durable, x, d.phase.outcome);
      case ReleaseFails => ConcludeTracks(w.durable, x, d.phase.outcome);
      case _ =>
    }
  }

  lemma ActKeepsInv(w: World, x: Worker, a: Action)
    requires Inv(w) && x in w.dispatches && Allowed(w, x, a)
    ensures Inv(ActStep(w, x, a))
  {
    var w' := ActStep(w, x, a);
    var part := DurablePart(w, x, a);
    PartIsMine(w, x, a);
    NextTracks(w, x, a);
    forall y | y in w'.dispatches && y != x ensures Tracks(w'.durable, y, w'.dispatches[y].phase) {
      if part.Some? { OthersKeepTrack(w.durable, part.value, y, w.dispatches[y].phase); }
    }
    forall y | y in w'.durable.attempts ensures y in w'.dispatches {
      if part.Some? && y != x { S.OthersLeaveMine(w.durable, part.value, y); }
    }
  }

  lemma {:induction false} Reachable(es: seq<Event>)
    ensures Inv(Run(INITIAL, es))
  {
    if es != [] {
      var w, e := Run(INITIAL, es[..|es| - 1]), es[|es| - 1];
      Reachable(es[..|es| - 1]);
      if e.Act? && e.worker in w.dispatches && Allowed(w, e.worker, e.action) {
        ActKeepsInv(w, e.worker, e.action);
      }
    }
  }

  /** The business transactions that dispatch `x` has committed. */
  function Effects(w: World, x: Worker): nat {
    O.CommitsBy(w.durable.db.log, x)
  }

  /** Whatever becomes of it, a dispatch has at most one effect. */
  lemma {:induction false} AtMostOneEffect(es: seq<Event>, x: Worker)
    ensures Effects(Run(INITIAL, es), x) <= 1
  {
    P.Refines(es);
    O.OutcomeTellsTheCommit(P.Project(es), x);
  }

  /**
   In every run: a dispatch has at most one effect; one that answers "key reused" or "in progress", or that
   raises anything but unavailability, has none; a normal answer comes with an effect of this dispatch exactly
   if its own execution, and not a duplicate's, produced the record.
   */
  lemma {:induction false} AnswersTellTheEffect(es: seq<Event>, x: Worker)
    requires var w := Run(INITIAL, es); x in w.dispatches && w.dispatches[x].phase.Answered?
    ensures var w := Run(INITIAL, es);
            && Effects(w, x) <= 1
            && match w.dispatches[x].phase.response
               case Failed(KeyReused) => Effects(w, x) == 0
               case Failed(StillRunning) => Effects(w, x) == 0
               case Failed(Durable(e)) => e == D.Unavailable || Effects(w, x) == 0
               case Failed(Unavailable) => true
               case Success(c, _) =>
                 Effects(w, x) == 1 <==>
                   x in w.durable.attempts && w.durable.attempts[x].stage == D.Returned(D.Executed(c))
  {
    Reachable(es);
    P.Refines(es);
    var w := Run(INITIAL, es);
    O.OutcomeTellsTheCommit(P.Project(es), x);
    assert Tracks(w.durable, x, w.dispatches[x].phase);
  }
}
