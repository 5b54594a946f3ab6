/** What the end of an attempt tells about its commit, over every run of the durable protocol. */
module DurableOutcomes {
  import opened Results
  import opened Models
  import opened DurableProtocol
  import S = DurableSafety

  /** How many business transactions an attempt has committed. */
  function CommitsBy(log: seq<Commit>, w: Worker): nat {
    if log == [] then 0
    else CommitsBy(log[..|log| - 1], w) + if log[|log| - 1].worker == w then 1 else 0
  }

  /** The attempt committed its own request together with the record of `completed`. */
  ghost predicate CommittedAs(log: seq<Commit>, w: Worker, request: Request, completed: Completed) {
    exists i :: 0 <= i < |log| && log[i].worker == w && log[i].request == request
                && log[i].record.Some? && log[i].record.value.completed == completed
  }

  /** Reporting an execution means one commit; an unavailable database or a crash leaves it open; anything else means none. */
  ghost predicate Accounts(log: seq<Commit>, w: Worker, a: Attempt) {
    match a.stage
    case Returned(Executed(c)) => CommitsBy(log, w) == 1 && CommittedAs(log, w, a.request, c)
    case Returned(Raised(Unavailable)) => CommitsBy(log, w) <= 1
    case Gone => CommitsBy(log, w) <= 1
    case _ => CommitsBy(log, w) == 0
  }

  ghost predicate Inv(w: World) {
    forall x :: if x in w.attempts then Accounts(w.db.log, x, w.attempts[x]) else CommitsBy(w.db.log, x) == 0
  }

  lemma CountNext(log: seq<Commit>, c: Commit, w: Worker)
    ensures CommitsBy(log + [c], w) == CommitsBy(log, w) + if c.worker == w then 1 else 0
  {
    assert (log + [c])[..|log|] == log;
  }

  lemma OthersKeepAccount(log: seq<Commit>, c: Commit, w: Worker, a: Attempt)
    requires Accounts(log, w, a) && c.worker != w
    ensures Accounts(log + [c], w, a)
  {
    CountNext(log, c, w);
    if a.stage.Returned? && a.stage.outcome.Executed? {
      var i :| 0 <= i < |log| && log[i].worker == w && log[i].request == a.request
               && log[i].record.Some? && log[i].record.value.completed == a.stage.outcome.completed;
      assert (log + [c])[i] == log[i];
    }
  }

  lemma CommitAppends(w: World, e: Event, c: Commit)
    requires Enabled(w, e) && Publishes(e)
    requires var a := w.attempts[e.worker]; c == Commit(e.worker, a.request, PendingWrites(a.stage), PendingRecord(a.stage))
    ensures Step(w, e).db.log == w.db.log + [c]
    ensures Step(w, e).attempts == w.attempts[e.worker := w.attempts[e.worker].(stage := NextStage(w.db, w.attempts[e.worker], e))]
  {
  }

  lemma CommitterAccounts(log: seq<Commit>, c: Commit, db: Database, a: Attempt, e: Event)
    requires Accounts(log, c.worker, a) && Publishes(e) && a.stage.Recorded?
    requires c == Commit(c.worker, a.request, PendingWrites(a.stage), PendingRecord(a.stage))
    ensures Accounts(log + [c], c.worker, a.(stage := NextStage(db, a, e)))
  {
    CountNext(log, c, c.worker);
    assert (log + [c])[|log|] == c;
  }

  lemma CommitKeepsInv(w: World, e: Event)
    requires Inv(w) && Enabled(w, e) && Publishes(e)
    ensures Inv(Step(w, e))
  {
    var a, w' := w.attempts[e.worker], Step(w, e);
    var c := Commit(e.worker, a.request, PendingWrites(a.stage), PendingRecord(a.stage));
    CommitAppends(w, e, c);
    forall x ensures if x in w'.attempts then Accounts(w'.db.log, x, w'.attempts[x]) else CommitsBy(w'.db.log, x) == 0 {
      if x == e.worker {
        assert Accounts(w.db.log, x, a);
        CommitterAccounts(w.db.log, c, w.db, a, e);
      } else if x in w.attempts {
        OthersKeepAccount(w.db.log, c, x, w.attempts[x]);
      } else {
        CountNext(w.db.log, c, x);
      }
    }
  }

  lemma StepKeepsInv(w: World, e: Event)
    requires Inv(w)
    ensures Inv(Step(w, e))
  {
    if Enabled(w, e) {
      if Publishes(e) {
        CommitKeepsInv(w, e);
      } else if !e.Arrive? {
        assert Accounts(w.db.log, e.worker, w.attempts[e.worker]);
      }
    }
  }

  lemma {:induction false} Reachable(es: seq<Event>)
    ensures Inv(Run(INITIAL, es))
  {
    if es != [] {
      Reachable(es[..|es| - 1]);
      StepKeepsInv(Run(INITIAL, es[..|es| - 1]), es[|es| - 1]);
    }
  }

  /**
   In every run: an attempt that reports an execution has committed its request once, with exactly the reported
   record; one that replays, reports a conflict or raises any other error has committed nothing; only an unavailable
   database, a crash or a cancellation leaves the commit in doubt; and no attempt ever commits twice.
   */
  lemma {:induction false} OutcomeTellsTheCommit(es: seq<Event>, w: Worker)
    ensures var s := Run(INITIAL, es);
            && CommitsBy(s.db.log, w) <= 1
            && (w in s.attempts ==> Accounts(s.db.log, w, s.attempts[w]))
            && (w !in s.attempts ==> CommitsBy(s.db.log, w) == 0)
  {
    Reachable(es);
    var s := Run(INITIAL, es);
    assert if w in s.attempts then Accounts(s.db.log, w, s.attempts[w]) else CommitsBy(s.db.log, w) == 0;
  }
}
