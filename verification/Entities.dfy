/**
 Versioned aggregates: a change is validated and normalized on a candidate, and replaces the whole state or
 nothing. `F` is the record of business fields, `E` what their validators raise.
 */
module Entities {
  import opened Results
  import opened Models

  datatype State<F> = State(id: nat, createdAt: Time, updatedAt: Option<Time>, version: nat, fields: F)

  datatype ChangeError<E> = InvalidTimestamp | InvalidField(error: E)

  /** The validators of the business fields; they return the normalized fields. */
  type Normalizer<!F, !E> = F -> Result<F, E>

  /** `model_validate`: normalized fields and an update time after the creation time. */
  function Validate<F, E>(s: State<F>, normalize: Normalizer<F, E>): Result<State<F>, ChangeError<E>> {
    var fields := normalize(s.fields);
    if fields.Err? then Err(InvalidField(fields.error))
    else if s.updatedAt.Some? && s.updatedAt.value <= s.createdAt then Err(InvalidTimestamp)
    else Ok(s.(fields := fields.value))
  }

  function MarkUpdated<F, E>(s: State<F>, now: Time, normalize: Normalizer<F, E>): Result<State<F>, ChangeError<E>> {
    Validate(s.(updatedAt := Some(now), version := s.version + 1), normalize)
  }

  /** The state after a change was requested, and whether there was one. */
  function ApplyChanges<F(==), E>(s: State<F>, changes: F, now: Time, normalize: Normalizer<F, E>)
    : (State<F>, Result<bool, ChangeError<E>>)
  {
    var candidate := Validate(s.(fields := changes), normalize);
    if candidate.Err? then (s, Err(candidate.error))
    else if candidate.value == s then (s, Ok(false))
    else
      var marked := MarkUpdated(candidate.value, now, normalize);
      if marked.Err? then (s, Err(marked.error)) else (marked.value, Ok(true))
  }

  class VersionedEntity<F(==), E> {
    var state: State<F>
    const normalize: Normalizer<F, E>

    constructor (state: State<F>, normalize: Normalizer<F, E>)
      ensures this.state == state && this.normalize == normalize
    {
      this.state := state;
      this.normalize := normalize;
    }

    /** Replaces the whole state at once; nothing can fail here. */
    method ReplaceState(candidate: State<F>)
      modifies this
      ensures state == candidate
    {
      state := candidate;
    }

    method Touch(now: Time) returns (r: Result<(), ChangeError<E>>)
      modifies this
      ensures var marked := MarkUpdated(old(state), now, normalize);
              if marked.Ok? then r == Ok(()) && state == marked.value
              else r == Err(marked.error) && state == old(state)
    {
      var candidate := Validate(state.(updatedAt := Some(now), version := state.version + 1), normalize);
      if candidate.Err? {
        return Err(candidate.error);
      }
      ReplaceState(candidate.value);
      r := Ok(());
    }

    method Apply(changes: F, now: Time) returns (r: Result<bool, ChangeError<E>>)
      modifies this
      ensures (state, r) == ApplyChanges(old(state), changes, now, normalize)
    {
      var candidate := Validate(state.(fields := changes), normalize);
      if candidate.Err? {
        return Err(candidate.error);
      }
      if candidate.value == state {
        return Ok(false);
      }
      var copy := new VersionedEntity(candidate.value, normalize);
      var touched := copy.Touch(now);
      if touched.Err? {
        return Err(touched.error);
      }
      ReplaceState(copy.state);
      r := Ok(true);
    }
  }

  // ---- whole lives of an aggregate ----

  /** Normalizing twice is normalizing once. */
  ghost predicate Idempotent<F(!new), E>(normalize: Normalizer<F, E>) {
    forall f :: normalize(f).Ok? ==> normalize(normalize(f).value) == normalize(f)
  }

  /** A state its own validators accept without changing it. */
  predicate Settled<F(==), E(==)>(s: State<F>, normalize: Normalizer<F, E>) {
    Validate(s, normalize) == Ok(s) && s.version >= 1
  }

  /** One mutator call: the fields it asks for, given the current ones, and its clock reading. */
  datatype Call<!F> = Call(change: F -> F, now: Time)

  function Live<F(==), E>(s: State<F>, calls: seq<Call<F>>, normalize: Normalizer<F, E>): State<F> {
    if calls == [] then s else
      var before, call := Live(s, calls[..|calls| - 1], normalize), calls[|calls| - 1];
      ApplyChanges(before, call.change(before.fields), call.now, normalize).0
  }

  /** How many calls of a life reported a change. */
  function Changes<F(==), E>(s: State<F>, calls: seq<Call<F>>, normalize: Normalizer<F, E>): nat {
    if calls == [] then 0 else
      var before, call := Live(s, calls[..|calls| - 1], normalize), calls[|calls| - 1];
      var r := ApplyChanges(before, call.change(before.fields), call.now, normalize).1;
      Changes(s, calls[..|calls| - 1], normalize) + if r.Ok? && r.value then 1 else 0
  }

  /** One call: it changes nothing, or everything it asked for together with version and time. */
  lemma ChangeIsAllOrNothing<F(!new), E>(s: State<F>, changes: F, now: Time, normalize: Normalizer<F, E>)
    requires Settled(s, normalize) && Idempotent(normalize)
    ensures var (s', r) := ApplyChanges(s, changes, now, normalize);
            && Settled(s', normalize)
            && (r.Err? || !r.value ==> s' == s)
            && (r.Ok? && r.value ==>
                  s' == State(s.id, s.createdAt, Some(now), s.version + 1, normalize(changes).value) && now > s.createdAt)
            && (r == Ok(false) <==> normalize(changes) == Ok(s.fields))
            && (r == Ok(true) <==> normalize(changes).Ok? && normalize(changes).value != s.fields && now > s.createdAt)
  {
    assert Idempotent(normalize);
    var f := normalize(changes);
    if f.Ok? {
      assert normalize(f.value) == f;
      assert s.(fields := s.fields) == s;
    }
  }

  /**
   Over any sequence of calls, failing ones included: the version counts the effective changes, identity and
   creation time stay, and the state always passes its own validators unchanged.
   */
  lemma {:induction false} LifeKeepsInvariants<F(!new), E>(s: State<F>, calls: seq<Call<F>>, normalize: Normalizer<F, E>)
    requires Settled(s, normalize) && Idempotent(normalize)
    ensures var t := Live(s, calls, normalize);
            && Settled(t, normalize)
            && t.version == s.version + Changes(s, calls, normalize)
            && t.id == s.id && t.createdAt == s.createdAt
            && (t.updatedAt.Some? ==> t.updatedAt.value > t.createdAt)
            && (Changes(s, calls, normalize) == 0 ==> t == s)
  {
    if calls != [] {
      var before, call := Live(s, calls[..|calls| - 1], normalize), calls[|calls| - 1];
      LifeKeepsInvariants(s, calls[..|calls| - 1], normalize);
      ChangeIsAllOrNothing(before, call.change(before.fields), call.now, normalize);
    }
  }

  /** After any life, asking for values that normalize to the stored ones changes nothing, at any time. */
  lemma ResubmittingIsANoOp<F(!new), E>(s: State<F>, calls: seq<Call<F>>, again: F, now: Time, normalize: Normalizer<F, E>)
    requires Settled(s, normalize) && Idempotent(normalize)
    requires normalize(again) == Ok(Live(s, calls, normalize).fields)
    ensures ApplyChanges(Live(s, calls, normalize), again, now, normalize) == (Live(s, calls, normalize), Ok(false))
  {
    LifeKeepsInvariants(s, calls, normalize);
    ChangeIsAllOrNothing(Live(s, calls, normalize), again, now, normalize);
  }

  /** What a change to fields that are their own normal form comes to: it fails for its time or not at all. */
  function Moved<F(==), E>(s: State<F>, fields: F, now: Time): (State<F>, Result<bool, ChangeError<E>>) {
    if fields == s.fields then (s, Ok(false))
    else if now <= s.createdAt then (s, Err(InvalidTimestamp))
    else (State(s.id, s.createdAt, Some(now), s.version + 1, fields), Ok(true))
  }

  lemma NormalizedFieldsMove<F(!new), E>(s: State<F>, changes: F, fields: F, now: Time, normalize: Normalizer<F, E>)
    requires Settled(s, normalize) && normalize(changes) == Ok(fields) && normalize(fields) == Ok(fields)
    ensures ApplyChanges(s, changes, now, normalize) == Moved(s, fields, now)
    ensures Settled(ApplyChanges(s, changes, now, normalize).0, normalize)
  {
    assert s.(fields := s.fields) == s;
  }

  /** The update time is that of the last effective change: it moves forward exactly if the clock is past the previous one. */
  lemma UpdateTimeMovesForwardExactly<F(!new), E>(s: State<F>, changes: F, now: Time, normalize: Normalizer<F, E>)
    requires Settled(s, normalize) && Idempotent(normalize) && ApplyChanges(s, changes, now, normalize).1 == Ok(true)
    ensures var s' := ApplyChanges(s, changes, now, normalize).0;
            && s'.updatedAt.Some?
            && (s.updatedAt.Some? ==> (s'.updatedAt.value > s.updatedAt.value <==> now > s.updatedAt.value))
  {
    ChangeIsAllOrNothing(s, changes, now, normalize);
  }

  /** Fields without rules. */
  function AcceptAnything(f: bool): Result<bool, string> {
    Ok(f)
  }

  /** Only the creation time bounds it from below: a valid state whose next change is accepted and sets the time back. */
  lemma UpdateTimeCanGoBack()
    ensures var s := State(0, 0, Some(20), 2, false);
            && Settled(s, AcceptAnything) && Idempotent(AcceptAnything)
            && ApplyChanges(s, true, 10, AcceptAnything) == (State(0, 0, Some(10), 3, true), Ok(true))
  {
    NormalizedFieldsMove(State(0, 0, Some(20), 2, false), true, true, 10, AcceptAnything);
  }

  /** Asking twice for the same fields is asking once, whatever the second clock reads. */
  lemma ChangingTwice<F(!new), E>(s: State<F>, changes: F, now: Time, later: Time, normalize: Normalizer<F, E>)
    requires Settled(s, normalize) && Idempotent(normalize) && normalize(changes).Ok? && now > s.createdAt
    ensures var (once, r) := ApplyChanges(s, changes, now, normalize);
            && r == Ok(s.fields != normalize(changes).value)
            && once.fields == normalize(changes).value
            && once.version == s.version + (if s.fields != normalize(changes).value then 1 else 0)
            && ApplyChanges(once, changes, later, normalize) == (once, Ok(false))
  {
    ChangeIsAllOrNothing(s, changes, now, normalize);
    ChangeIsAllOrNothing(ApplyChanges(s, changes, now, normalize).0, changes, later, normalize);
  }
}
