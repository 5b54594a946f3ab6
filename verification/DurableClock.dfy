/** Runs of the durable protocol whose clock readings are those of one nondecreasing clock. */
module DurableClock {
  import opened Results
  import opened Models
  import opened DurableProtocol
  import S = DurableSafety

  function Reading(e: Event): Option<Time> {
    match e
    case Query(_, now) => Some(now)
    case Judge(_, now) => Some(now)
    case Finish(_, _, now) => Some(now)
    case Stamp(_, now) => Some(now)
    case _ => None
  }

  /** Later readings are not earlier times. */
  predicate OneClock(es: seq<Event>) {
    forall i, j :: 0 <= i < j < |es| && Reading(es[i]).Some? && Reading(es[j]).Some? ==>
      Reading(es[i]).value <= Reading(es[j]).value
  }

  /** No reading is later than `t`. */
  predicate ReadBy(es: seq<Event>, t: Time) {
    forall i :: 0 <= i < |es| && Reading(es[i]).Some? ==> Reading(es[i]).value <= t
  }

  /** No record has been or will be created after `now` by what was stamped so far. */
  predicate StampsPast(d: World, now: Time) {
    && S.CreatedBy(d.db.log, now)
    && forall x :: x in d.attempts && (d.attempts[x].stage.Stamped? || d.attempts[x].stage.Recorded?) ==>
         d.attempts[x].stage.record.createdAt <= now
  }

  /** A stamp is a reading of the shared clock. */
  lemma MyStampIsPast(d: World, e: Event, now: Time)
    requires StampsPast(d, now) && (e.Stamp? ==> e.now <= now)
    ensures var d' := Step(d, e);
            e.worker in d'.attempts ==>
              var a := d'.attempts[e.worker];
              && (a.stage.Stamped? || a.stage.Recorded? ==> a.stage.record.createdAt <= now)
              && (!e.Arrive? ==> e.worker in d.attempts && a.request == d.attempts[e.worker].request)
              && (e.Arrive? ==> a.request == e.request || (e.worker in d.attempts && a == d.attempts[e.worker]))
  {
  }

  lemma CreatedByStays(d: World, e: Event, now: Time)
    requires StampsPast(d, now)
    ensures S.CreatedBy(Step(d, e).db.log, now)
  {
  }

  lemma StampsStayPast(d: World, e: Event, now: Time)
    requires StampsPast(d, now) && (e.Stamp? ==> e.now <= now)
    ensures StampsPast(Step(d, e), now)
  {
    var d' := Step(d, e);
    forall y | y in d'.attempts && y != e.worker ensures y in d.attempts && d'.attempts[y] == d.attempts[y] {
      S.OthersLeaveMine(d, e, y);
    }
    MyStampIsPast(d, e, now);
    CreatedByStays(d, e, now);
  }

  lemma {:induction false} StampsAreReadings(es: seq<Event>, t: Time)
    requires ReadBy(es, t)
    ensures StampsPast(Run(INITIAL, es), t)
  {
    if es != [] {
      var init := es[..|es| - 1];
      assert forall i :: 0 <= i < |init| ==> init[i] == es[i];
      StampsAreReadings(init, t);
      StampsStayPast(Run(INITIAL, init), es[|es| - 1], t);
    }
  }

  /** What was committed before a reading was created by then. */
  lemma CreatedBeforeReading(es: seq<Event>, n: nat)
    requires OneClock(es) && n < |es| && Reading(es[n]).Some?
    ensures S.CreatedBy(Run(INITIAL, es[..n]).db.log, Reading(es[n]).value)
  {
    StampsAreReadings(es[..n], Reading(es[n]).value);
  }
}
