/** Rows of aggregates with conditional updates, and the handlers that read, change and write them back. */
module Repositories {
  import opened Results
  import opened Models
  import opened Entities

  datatype RowError = Missing | VersionConflict | KeyTaken

  type Rows<F> = map<nat, State<F>>

  /** The text that must be unique over a table, if a row has one. */
  type UniqueKey<!F> = F -> Option<string>

  predicate KeyIsFree<F>(rows: Rows<F>, id: nat, fields: F, key: UniqueKey<F>) {
    key(fields).Some? ==> forall other :: other in rows && other != id ==> key(rows[other].fields) != key(fields)
  }

  /** UPDATE ... WHERE id = .. [AND version = ..]; identity and creation time are never written. */
  function UpdateRow<F>(rows: Rows<F>, entity: State<F>, expected: Option<nat>, key: UniqueKey<F>)
    : (Rows<F>, Result<State<F>, RowError>)
  {
    if entity.id !in rows then (rows, Err(Missing))
    else if expected.Some? && rows[entity.id].version != expected.value then (rows, Err(VersionConflict))
    else if !KeyIsFree(rows, entity.id, entity.fields, key) then (rows, Err(KeyTaken))
    else
      var row := entity.(createdAt := rows[entity.id].createdAt);
      (rows[entity.id := row], Ok(row))
  }

  /** INSERT ... ON CONFLICT DO NOTHING, and the row that is there afterwards. */
  function InsertIfAbsent<F>(rows: Rows<F>, initial: State<F>): (Rows<F>, State<F>) {
    if initial.id in rows then (rows, rows[initial.id]) else (rows[initial.id := initial], initial)
  }

  class Repository<F> {
    var rows: Rows<F>
    const key: UniqueKey<F>

    constructor (rows: Rows<F>, key: UniqueKey<F>)
      ensures this.rows == rows && this.key == key
    {
      this.rows := rows;
      this.key := key;
    }

    method GetById(id: nat) returns (row: Option<State<F>>)
      ensures row == if id in rows then Some(rows[id]) else None
    {
      row := if id in rows then Some(rows[id]) else None;
    }

    method Update(entity: State<F>, expected: Option<nat>) returns (r: Result<State<F>, RowError>)
      modifies this
      ensures (rows, r) == UpdateRow(old(rows), entity, expected, key)
    {
      if entity.id !in rows || (expected.Some? && rows[entity.id].version != expected.value) {
        return Err(if entity.id in rows then VersionConflict else Missing);
      }
      if !KeyIsFree(rows, entity.id, entity.fields, key) {
        return Err(KeyTaken);
      }
      rows := rows[entity.id := entity.(createdAt := rows[entity.id].createdAt)];
      r := Ok(rows[entity.id]);
    }

    method CreateDefaultIfAbsent(initial: State<F>) returns (row: State<F>)
      modifies this
      ensures (rows, row) == InsertIfAbsent(old(rows), initial)
    {
      if initial.id !in rows {
        rows := rows[initial.id := initial];
      }
      row := rows[initial.id];
    }

    /** What other transactions have committed by now. */
    method Become(rows: Rows<F>)
      modifies this
      ensures this.rows == rows
    {
      this.rows := rows;
    }
  }

  /** A later committed table: a row stays, and its version tells whether it has changed. */
  predicate Evolved<F(==)>(before: Rows<F>, after: Rows<F>) {
    forall id :: id in before ==>
      && id in after && after[id].version >= before[id].version
      && (after[id].version == before[id].version ==> after[id] == before[id])
  }

  datatype HandlerError<E> = NotFound | VersionMismatch | UsernameTaken | Rejected(error: ChangeError<E>)

  function OfRowError<E>(e: RowError): HandlerError<E> {
    match e
    case Missing => NotFound
    case VersionConflict => VersionMismatch
    case KeyTaken => UsernameTaken
  }

  /** The first half of an update handler: the row, if it is there in the expected version. */
  method Load<F, E>(repository: Repository<F>, id: nat, expected: nat) returns (r: Result<State<F>, HandlerError<E>>)
    ensures r == if id !in repository.rows then Err(NotFound)
                 else if repository.rows[id].version != expected then Err(VersionMismatch)
                 else Ok(repository.rows[id])
  {
    var row := repository.GetById(id);
    if row.None? {
      return Err(NotFound);
    }
    if row.value.version != expected {
      return Err(VersionMismatch);
    }
    r := Ok(row.value);
  }

  /** What a handler answers and leaves after asking a loaded aggregate for a change, on the table as it is by then. */
  function Saved<F, E>(meanwhile: Rows<F>, entity: State<F>, changed: Result<bool, ChangeError<E>>, expected: nat,
                       key: UniqueKey<F>): (Rows<F>, Result<State<F>, HandlerError<E>>)
  {
    match changed
    case Err(e) => (meanwhile, Err(Rejected(e)))
    case Ok(false) => (meanwhile, Ok(entity))
    case Ok(true) =>
      var (rows, written) := UpdateRow(meanwhile, entity, Some(expected), key);
      (rows, if written.Ok? then Ok(written.value) else Err(OfRowError(written.error)))
  }

  /** The second half: an effective change is written conditionally. */
  method Save<F, E>(repository: Repository<F>, entity: State<F>, changed: Result<bool, ChangeError<E>>, expected: nat)
    returns (r: Result<State<F>, HandlerError<E>>)
    modifies repository
    ensures (repository.rows, r) == Saved(old(repository.rows), entity, changed, expected, repository.key)
  {
    if changed.Err? {
      return Err(Rejected(changed.error));
    }
    if !changed.value {
      return Ok(entity);
    }
    var written := repository.Update(entity, Some(expected));
    if written.Err? {
      return Err(OfRowError(written.error));
    }
    r := Ok(written.value);
  }

  /**
   The provisioning handler: two default rows in one transaction, each only where there is none. Before each insert
   other transactions may have committed anything; neither insert touches what they left.
   */
  method CreateDefaults<P, S>(profiles: Repository<P>, settings: Repository<S>, profile: State<P>, setting: State<S>,
                              profilesMeanwhile: Rows<P>, settingsMeanwhile: Rows<S>)
    requires profiles as object != settings as object && profile.id == setting.id
    modifies profiles, settings
    ensures profiles.rows == InsertIfAbsent(profilesMeanwhile, profile).0
    ensures settings.rows == InsertIfAbsent(settingsMeanwhile, setting).0
    ensures profile.id in profiles.rows && profile.id in settings.rows
    ensures profile.id in profilesMeanwhile && profile.id in settingsMeanwhile ==>
              profiles.rows == profilesMeanwhile && settings.rows == settingsMeanwhile
  {
    profiles.Become(profilesMeanwhile);
    var _ := profiles.CreateDefaultIfAbsent(profile);
    settings.Become(settingsMeanwhile);
    var _ := settings.CreateDefaultIfAbsent(setting);
  }

  /** Every row is filed under its own identity. */
  predicate Filed<F>(rows: Rows<F>) {
    forall id :: id in rows ==> rows[id].id == id
  }

  /**
   A conditional write that succeeds replaces exactly the row its change was computed from, whatever was
   committed in between, and moves that row to the next version.
   */
  lemma ConditionalWriteLosesNothing<F(!new), E>(before: Rows<F>, meanwhile: Rows<F>, id: nat, expected: nat, changes: F,
                                                 now: Time, normalize: Normalizer<F, E>, key: UniqueKey<F>)
    requires Filed(before) && Evolved(before, meanwhile) && id in before && before[id].version == expected
    requires Settled(before[id], normalize) && Idempotent(normalize)
    requires ApplyChanges(before[id], changes, now, normalize).1 == Ok(true)
    ensures var (changed, _) := ApplyChanges(before[id], changes, now, normalize);
            var (after, r) := UpdateRow(meanwhile, changed, Some(expected), key);
            && (r.Ok? ==>
                  && meanwhile[id] == before[id]
                  && after == meanwhile[id := r.value] && r.value == changed && r.value.version == expected + 1
                  && Evolved(meanwhile, after))
            && (r.Err? ==> after == meanwhile)
            && (meanwhile[id] != before[id] ==> r == Err(VersionConflict))
  {
    ChangeIsAllOrNothing(before[id], changes, now, normalize);
  }

  /** No two rows share their unique text. */
  predicate UniqueKeys<F>(rows: Rows<F>, key: UniqueKey<F>) {
    forall x, y :: x in rows && y in rows && x != y && key(rows[x].fields).Some? ==> key(rows[x].fields) != key(rows[y].fields)
  }

  /** Updates and default rows without the text keep it unique. */
  lemma UniqueKeysStay<F>(rows: Rows<F>, entity: State<F>, expected: Option<nat>, initial: State<F>, key: UniqueKey<F>)
    requires UniqueKeys(rows, key) && key(initial.fields).None?
    ensures UniqueKeys(UpdateRow(rows, entity, expected, key).0, key)
    ensures UniqueKeys(InsertIfAbsent(rows, initial).0, key)
  {
  }

  /** No write changes the identity or the creation time of a row, removes a row or touches another one. */
  lemma IdentityStays<F>(rows: Rows<F>, entity: State<F>, expected: Option<nat>, initial: State<F>, key: UniqueKey<F>)
    requires Filed(rows)
    ensures var (after, _) := UpdateRow(rows, entity, expected, key);
            && Filed(after) && after.Keys == rows.Keys
            && forall id :: id in rows ==> after[id].createdAt == rows[id].createdAt && (id != entity.id ==> after[id] == rows[id])
    ensures var (after, _) := InsertIfAbsent(rows, initial);
            Filed(after) && after.Keys == rows.Keys + {initial.id} && forall id :: id in rows ==> after[id] == rows[id]
  {
  }

  /** Provisioning twice is provisioning once, and never overwrites. */
  lemma ProvisioningIsIdempotent<F>(rows: Rows<F>, first: State<F>, again: State<F>)
    requires first.id == again.id
    ensures var (once, row) := InsertIfAbsent(rows, first);
            && InsertIfAbsent(once, again) == (once, row)
            && forall id :: id in rows ==> id in once && once[id] == rows[id]
  {
  }
}
