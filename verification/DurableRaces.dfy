/** Why attempts fail, over whole runs: a race is lost in the end only to nobody's record in force. */
module DurableRaces {
  import opened Results
  import opened Models
  import opened DurableProtocol
  import opened DurableClock
  import S = DurableSafety

  /** The request and the stage of an attempt before event `n` of a run. */
  predicate StageAt(es: seq<Event>, n: nat, w: Worker, r: Request, stage: Stage)
    requires n <= |es|
  {
    At(Run(INITIAL, es[..n]), w, r, stage)
  }

  predicate At(s: World, w: Worker, r: Request, stage: Stage) {
    w in s.attempts && s.attempts[w] == Attempt(r, stage)
  }

  function LogAt(es: seq<Event>, n: nat): seq<Commit>
    requires n <= |es|
  {
    Run(INITIAL, es[..n]).db.log
  }

  // ---- lookups ----

  /** Event `n` is the lookup of `w`, sent with this cause, that found `found`. */
  predicate LookedUp(es: seq<Event>, n: nat, w: Worker, r: Request, cause: Option<Cause>, found: Option<Completed>) {
    && n < |es| && es[n].Query? && es[n].worker == w
    && StageAt(es, n, w, r, Querying(cause))
    && found == LookUp(Run(INITIAL, es[..n]).db.records, r.key, es[n].now)
  }

  lemma LookedUpStays(es: seq<Event>, e: Event, n: nat, w: Worker, r: Request, cause: Option<Cause>, found: Option<Completed>)
    requires LookedUp(es, n, w, r, cause, found)
    ensures LookedUp(es + [e], n, w, r, cause, found)
  {
    assert (es + [e])[..n] == es[..n];
  }

  /** What an attempt is judging, it has looked up. */
  lemma {:induction false} JudgingWasLookedUp(es: seq<Event>, w: Worker)
    requires var s := Run(INITIAL, es); w in s.attempts && s.attempts[w].stage.Judging?
    ensures var a := Run(INITIAL, es).attempts[w];
            exists n: nat :: LookedUp(es, n, w, a.request, a.stage.cause, a.stage.found)
  {
    var init, e := es[..|es| - 1], es[|es| - 1];
    var before, a := Run(INITIAL, init), Run(INITIAL, es).attempts[w];
    assert es == init + [e];
    if e.worker != w {
      S.OthersLeaveMine(before, e, w);
    }
    if w in before.attempts && before.attempts[w] == a {
      JudgingWasLookedUp(init, w);
      var n: nat :| LookedUp(init, n, w, a.request, a.stage.cause, a.stage.found);
      LookedUpStays(init, e, n, w, a.request, a.stage.cause, a.stage.found);
    } else {
      assert e.Query? && e.worker == w;
      assert es[..|init|] == init;
      assert LookedUp(es, |init|, w, a.request, a.stage.cause, a.stage.found);
    }
  }

  /** Every record of the key in this log has expired at `t`. */
  predicate AllExpired(log: seq<Commit>, key: Identity, t: Time) {
    forall i :: 0 <= i < |log| && log[i].request.key == key ==> !S.Unexpired(log[i], t)
  }

  /** A lookup that decides nothing on one clock means that no record of the key was left when it was judged. */
  lemma NothingMeansAllExpired(es: seq<Event>, n: nat, m: nat, w: Worker, r: Request, cause: Option<Cause>, found: Option<Completed>)
    requires OneClock(es) && n < m < |es| && LookedUp(es, n, w, r, cause, found)
    requires es[m].Judge? && Judgement(found, r.fingerprint, es[m].now).None?
    ensures AllExpired(LogAt(es, n), r.key, es[m].now)
  {
    var db, t := Run(INITIAL, es[..n]).db, es[n].now;
    S.Reachable(es[..n]);
    CreatedBeforeReading(es, n);
    assert t <= es[m].now by { assert Reading(es[n]) == Some(t) && Reading(es[m]) == Some(es[m].now); }
    forall i | 0 <= i < |db.log| && db.log[i].request.key == r.key && S.Unexpired(db.log[i], t)
      ensures !S.Unexpired(db.log[i], es[m].now)
    {
      S.LookUpFindsTheWinner(db, i, t);
    }
  }

  // ---- how attempts fail ----

  /**
   Event `m` judges the lookup that followed a lost race, and when it does every record of the key that was
   committed before the lookup, event `n`, has expired.
   */
  ghost predicate LostToNobody(es: seq<Event>, n: nat, m: nat, w: Worker, r: Request, cause: Cause) {
    && n < m < |es| && es[n].Query? && es[n].worker == w && StageAt(es, n, w, r, Querying(Some(cause)))
    && es[m].Judge? && es[m].worker == w && JudgesAt(es, m, w, r, cause)
    && AllExpired(LogAt(es, n), r.key, es[m].now)
  }

  /** The attempt judges a lookup that it sent for this cause. */
  predicate JudgesAt(es: seq<Event>, m: nat, w: Worker, r: Request, cause: Cause)
    requires m <= |es|
  {
    var s := Run(INITIAL, es[..m]);
    w in s.attempts && s.attempts[w].request == r && s.attempts[w].stage.Judging? && s.attempts[w].stage.cause == Some(cause)
  }

  /** A step takes an unfinished attempt to the end in which it raises `error`. */
  predicate Raises(s: World, e: Event, w: Worker, r: Request, error: Error) {
    && e.worker == w && w in s.attempts && s.attempts[w].request == r
    && !s.attempts[w].stage.Returned? && !s.attempts[w].stage.Gone?
    && At(Step(s, e), w, r, Returned(Raised(error)))
  }

  /** Why a step that is not a judgement raises an error. */
  predicate Reason(s: World, e: Event, w: Worker, error: Error)
    requires w in s.attempts
  {
    var stage, c := s.attempts[w].stage, s.attempts[w].request.command;
    match e
    case Fail(_, f) => f == error && !f.VersionMismatch? && !f.NotFound? && (f.TransactionConflict? ==> LookingUp(stage))
    case CommitUnknown(_, _) => error.Unavailable? && stage.Recorded?
    case Stamp(_, now) => error.Unavailable? && stage.Encoded? && stage.completed.expiresAt <= now
    case Read(_) => error.NotFound? && stage.Handling? && c.Update? && c.row !in s.db.rows
    case Change(_, _) => error.NotFound? && stage.Handling? && c.Update? && c.row !in s.db.rows
    case _ => false
  }

  /** Event `m` is the step with which the attempt raises `error`, and why it does. */
  ghost predicate Explains(es: seq<Event>, m: nat, w: Worker, r: Request, error: Error) {
    && m < |es| && Raises(Run(INITIAL, es[..m]), es[m], w, r, error)
    && if es[m].Judge?
       then exists n: nat, cause :: LostToNobody(es, n, m, w, r, cause) && NothingFound(Some(cause)) == Returned(Raised(error))
       else Reason(Run(INITIAL, es[..m]), es[m], w, error)
  }

  lemma ExplainsStays(es: seq<Event>, e: Event, m: nat, w: Worker, r: Request, error: Error)
    requires Explains(es, m, w, r, error)
    ensures Explains(es + [e], m, w, r, error)
  {
    var es' := es + [e];
    assert es'[..m] == es[..m] && es'[m] == es[m];
    if es[m].Judge? {
      var n: nat, cause :| LostToNobody(es, n, m, w, r, cause) && NothingFound(Some(cause)) == Returned(Raised(error));
      assert es'[..n] == es[..n];
      assert LostToNobody(es', n, m, w, r, cause);
    }
  }

  lemma PrefixHasOneClock(es: seq<Event>, n: nat)
    requires OneClock(es) && n <= |es|
    ensures OneClock(es[..n])
  {
  }

  /** The judgement that ends a lost race. */
  lemma JudgedToNobody(init: seq<Event>, e: Event, w: Worker, r: Request, cause: Cause, found: Option<Completed>) returns (n: nat)
    requires OneClock(init + [e]) && e.Judge? && e.worker == w
    requires At(Run(INITIAL, init), w, r, Judging(Some(cause), found)) && Judgement(found, r.fingerprint, e.now).None?
    ensures LostToNobody(init + [e], n, |init|, w, r, cause)
  {
    var es := init + [e];
    assert es[|init|] == e && es[..|init|] == init;
    JudgingWasLookedUp(init, w);
    n :| LookedUp(init, n, w, r, Some(cause), found);
    LookedUpStays(init, e, n, w, r, Some(cause), found);
    NothingMeansAllExpired(es, n, |init|, w, r, Some(cause), found);
  }

  /** The steps that make an attempt raise an error. */
  lemma StepsThatRaise(s: World, e: Event, w: Worker, r: Request, error: Error)
    requires Raises(s, e, w, r, error)
    ensures var stage := s.attempts[w].stage;
            if e.Judge?
            then stage.Judging? && stage.cause.Some? && Judgement(stage.found, r.fingerprint, e.now).None?
                 && NothingFound(stage.cause) == Returned(Raised(error))
            else Reason(s, e, w, error)
  {
    assert Enabled(s, e);
  }

  /** The step with which an attempt comes to raise an error. */
  lemma RaisingStep(init: seq<Event>, e: Event, w: Worker, r: Request, error: Error)
    requires OneClock(init + [e]) && Raises(Run(INITIAL, init), e, w, r, error)
    ensures Explains(init + [e], |init|, w, r, error)
  {
    assert (init + [e])[..|init|] == init && (init + [e])[|init|] == e;
    StepsThatRaise(Run(INITIAL, init), e, w, r, error);
    if e.Judge? {
      var stage := Run(INITIAL, init).attempts[w].stage;
      var n := JudgedToNobody(init, e, w, r, stage.cause.value, stage.found);
    }
  }

  /**
   In every run on one clock, an attempt that raises an error comes to do so with one step, for one of these reasons:
   it judges the lookup after a lost race, and every record of its key committed before that lookup has expired by
   then; a statement or the handler fails, and a serialization failure surfaces from a lookup only; the commit that
   was under way stays in doubt; its result has expired before it is stored; or the row does not exist.
   */
  lemma {:induction false} FailuresAreExplained(es: seq<Event>, w: Worker, r: Request, error: Error)
    requires OneClock(es) && At(Run(INITIAL, es), w, r, Returned(Raised(error)))
    ensures exists m: nat :: Explains(es, m, w, r, error)
  {
    var init, e := es[..|es| - 1], es[|es| - 1];
    var before, a := Run(INITIAL, init), Run(INITIAL, es).attempts[w];
    assert es == init + [e];
    PrefixHasOneClock(es, |init|);
    if e.worker != w {
      S.OthersLeaveMine(before, e, w);
    }
    if w in before.attempts && before.attempts[w] == a {
      FailuresAreExplained(init, w, r, error);
      var m: nat :| Explains(init, m, w, r, error);
      ExplainsStays(init, e, m, w, r, error);
    } else {
      RequestStays(before, e, w);
      RaisingStep(init, e, w, r, error);
    }
  }

  /** An attempt that raises an error after a step was there before, unfinished, with the same request. */
  lemma RequestStays(s: World, e: Event, w: Worker)
    requires e.worker == w && w in Step(s, e).attempts && Step(s, e).attempts[w].stage.Returned?
    requires !(w in s.attempts && s.attempts[w] == Step(s, e).attempts[w])
    ensures w in s.attempts && s.attempts[w].request == Step(s, e).attempts[w].request
    ensures !s.attempts[w].stage.Returned? && !s.attempts[w].stage.Gone?
  {
  }

  // ---- version mismatches ----

  /** Event `q` of a run reads or writes the row and finds another version than the command expects. */
  predicate MismatchSeen(es: seq<Event>, q: nat, w: Worker, r: Request) {
    && q < |es| && (es[q].Read? || es[q].Change?) && es[q].worker == w && r.command.Update?
    && var rows := Run(INITIAL, es[..q]).db.rows;
       r.command.row in rows && rows[r.command.row].version != r.command.expected
  }

  lemma {:induction false} MismatchWasSeen(es: seq<Event>, w: Worker, r: Request)
    requires At(Run(INITIAL, es), w, r, Querying(Some(Raced(VersionMismatch))))
    ensures exists q: nat :: MismatchSeen(es, q, w, r)
  {
    var init, e := es[..|es| - 1], es[|es| - 1];
    var before, a := Run(INITIAL, init), Run(INITIAL, es).attempts[w];
    assert es == init + [e];
    if e.worker != w {
      S.OthersLeaveMine(before, e, w);
    }
    if w in before.attempts && before.attempts[w] == a {
      MismatchWasSeen(init, w, r);
      var q: nat :| MismatchSeen(init, q, w, r);
      assert es[..q] == init[..q];
      assert MismatchSeen(es, q, w, r);
    } else {
      assert es[..|init|] == init;
      assert MismatchSeen(es, |init|, w, r);
    }
  }

  /** The row was found at another version; a later lookup, judged still later, met only expired records of the key
      among those committed before it. */
  ghost predicate MismatchTrail(es: seq<Event>, q: nat, n: nat, m: nat, w: Worker, r: Request) {
    q < n && MismatchSeen(es, q, w, r) && LostToNobody(es, n, m, w, r, Raced(VersionMismatch))
  }

  lemma TrailOfLoss(es: seq<Event>, n: nat, m: nat, w: Worker, r: Request) returns (q: nat)
    requires LostToNobody(es, n, m, w, r, Raced(VersionMismatch))
    ensures MismatchTrail(es, q, n, m, w, r)
  {
    MismatchWasSeen(es[..n], w, r);
    q :| MismatchSeen(es[..n], q, w, r);
    assert es[..n][..q] == es[..q];
  }

  lemma OnlyAMismatchRaisesOne(cause: Cause)
    requires NothingFound(Some(cause)) == Returned(Raised(VersionMismatch))
    ensures cause == Raced(VersionMismatch)
  {
  }

  /**
   In every run on one clock: an attempt that raises a version mismatch looked for a winner after it had seen the
   mismatch, and when it judged the lookup every record of its key committed before the lookup had expired.
   */
  lemma {:induction false} MismatchMeansNoWinner(es: seq<Event>, w: Worker, r: Request)
    requires OneClock(es) && At(Run(INITIAL, es), w, r, Returned(Raised(VersionMismatch)))
    ensures exists q: nat, n: nat, m: nat :: MismatchTrail(es, q, n, m, w, r)
  {
    FailuresAreExplained(es, w, r, VersionMismatch);
    var m: nat :| Explains(es, m, w, r, VersionMismatch);
    var n: nat, cause :| LostToNobody(es, n, m, w, r, cause) && NothingFound(Some(cause)) == Returned(Raised(VersionMismatch));
    OnlyAMismatchRaisesOne(cause);
    var q := TrailOfLoss(es, n, m, w, r);
  }

  lemma {:induction false} LogGrows(es: seq<Event>, n: nat)
    requires n <= |es|
    ensures |LogAt(es, n)| <= |Run(INITIAL, es).db.log| && Run(INITIAL, es).db.log[..|LogAt(es, n)|] == LogAt(es, n)
  {
    if n < |es| {
      var init := es[..|es| - 1];
      LogGrows(init, n);
      assert init[..n] == es[..n];
    } else {
      assert es[..n] == es;
    }
  }

  lemma {:induction false} WriteCountMonotone(log: seq<Commit>, k: nat, i: nat, u: RowId)
    requires k <= i <= |log|
    ensures S.WriteCount(log[..k], u) <= S.WriteCount(log[..i], u)
    decreases i - k
  {
    if k < i {
      WriteCountMonotone(log, k, i - 1, u);
      assert log[..i][..i - 1] == log[..i - 1];
    }
  }

  /**
   No attempt ever raises a mismatch that a commit under its own key caused while that commit's record lives: if
   the row had moved past the expected version when the attempt saw it, and a commit of its key is the one that
   took the next version, then this commit's record had expired when the attempt gave up.
   */
  lemma {:induction false} OwnWinnerHadExpired(es: seq<Event>, w: Worker, r: Request, i: nat, q: nat, n: nat, m: nat)
    requires MismatchTrail(es, q, n, m, w, r)
    requires i < |Run(INITIAL, es).db.log|
    requires var c := Run(INITIAL, es).db.log[i];
             && c.request.key == r.key && r.command.row in c.writes && c.writes[r.command.row].row.version == r.command.expected + 1
    requires Run(INITIAL, es[..q]).db.rows[r.command.row].version > r.command.expected
    ensures !S.Unexpired(Run(INITIAL, es).db.log[i], es[m].now)
  {
    var log, u := Run(INITIAL, es).db.log, r.command.row;
    var seen, atLookup := LogAt(es, q), LogAt(es, n);
    S.Reachable(es);
    S.Reachable(es[..q]);
    LogGrows(es, q);
    LogGrows(es, n);
    assert es[..n][..q] == es[..q];
    LogGrows(es[..n], q);
    S.WriteAt(log, u, i);
    S.VersionCountsWrites(seen, u);
    if |seen| <= i {
      WriteCountMonotone(log, |seen|, i, u);
    }
    assert atLookup[i] == log[i];
  }
}
