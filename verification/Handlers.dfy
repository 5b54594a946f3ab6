/** The update handlers of profiles and settings, end to end. */
module Handlers {
  import opened Results
  import opened Models
  import opened Entities
  import opened Repositories
  import TextRules
  import Profiles
  import Settings

  /** Rows are filed under their identities and pass their own validators unchanged. */
  predicate Sound<F(==), E(==)>(rows: Rows<F>, normalize: Normalizer<F, E>) {
    Filed(rows) && forall id :: id in rows ==> Settled(rows[id], normalize)
  }

  /**
   What an update of row `id` comes to that wants these fields: it refuses a row that is missing or not in the
   expected version, it changes the loaded aggregate, and it writes an effective change to the table as it is by then.
   */
  function Updating<F(==), E>(before: Rows<F>, meanwhile: Rows<F>, id: nat, expected: nat, wanted: F, now: Time,
                              key: UniqueKey<F>): (Rows<F>, Result<State<F>, HandlerError<E>>)
  {
    if id !in before then (meanwhile, Err(NotFound))
    else if before[id].version != expected then (meanwhile, Err(VersionMismatch))
    else
      var (entity, changed) := Moved(before[id], wanted, now);
      Saved(meanwhile, entity, changed, expected, key)
  }

  /**
   What a successful update means: the row that was read is, still, the row that was replaced; the answer holds the
   wanted fields; and either nothing differed and nothing was written, or exactly this row moved to the next version.
   */
  predicate Updated<F(==)>(before: Rows<F>, meanwhile: Rows<F>, after: Rows<F>, id: nat, expected: nat, wanted: F, answer: State<F>)
  {
    && id in before && before[id].version == expected && answer.fields == wanted
    && if wanted == before[id].fields
       then answer == before[id] && after == meanwhile
       else id in meanwhile && meanwhile[id] == before[id] && after == meanwhile[id := answer] && answer.version == expected + 1
  }

  /** Which error an update that fails answers with: the first of these that applies. */
  predicate FailsWith<F(==), E>(before: Rows<F>, meanwhile: Rows<F>, id: nat, expected: nat, wanted: F, now: Time, key: UniqueKey<F>,
                                e: HandlerError<E>)
  {
    if id !in before then e.NotFound?
    else if before[id].version != expected then e.VersionMismatch?
    else if now <= before[id].createdAt then e == Rejected(InvalidTimestamp)
    else if id in meanwhile && meanwhile[id] != before[id] then e.VersionMismatch?
    else e.UsernameTaken?
  }

  /**
   Whatever other transactions commit between the read and the write: an update that succeeds has lost nothing, one
   that does not has written nothing, it fails exactly for one of these reasons, and its error says for which.
   */
  lemma UpdatingLosesNothing<F, E>(before: Rows<F>, meanwhile: Rows<F>, id: nat, expected: nat, wanted: F, now: Time,
                                       key: UniqueKey<F>)
    requires Filed(before) && Evolved(before, meanwhile)
    ensures var (after, r) := Updating<F, E>(before, meanwhile, id, expected, wanted, now, key);
            && (r.Err? ==> after == meanwhile)
            && (r.Ok? ==> Updated(before, meanwhile, after, id, expected, wanted, r.value))
            && (r.Err? <==>
                  || id !in before
                  || before[id].version != expected
                  || (wanted != before[id].fields
                      && (now <= before[id].createdAt || meanwhile[id] != before[id] || !KeyIsFree(meanwhile, id, wanted, key))))
            && (r.Err? ==> FailsWith(before, meanwhile, id, expected, wanted, now, key, r.error))
  {
  }

  /** Every field that was asked for has its normal form, an empty biography is none, and all else is as it was. */
  predicate AskedOrKept(before: Profiles.Fields, after: Profiles.Fields, displayName: Option<string>, bio: Option<string>,
                        username: Option<string>, lib: TextRules.Library)
  {
    && (displayName.Some? ==> TextRules.DisplayName(displayName.value, lib) == Ok(after.displayName))
    && (displayName.None? ==> after.displayName == before.displayName)
    && (bio.Some? ==> after.bio == if |bio.value| > 0 then bio else None)
    && (bio.None? ==> after.bio == before.bio)
    && (username.Some? ==> after.username.Some? && TextRules.Username(username.value, lib) == Ok(after.username.value))
    && (username.None? ==> after.username == before.username)
    && after == before.(displayName := after.displayName, bio := after.bio, username := after.username)
  }

  lemma WantedIsAsked(before: Profiles.Fields, displayName: Option<string>, bio: Option<string>, username: Option<string>,
                      lib: TextRules.Library)
    requires Profiles.Acceptable(displayName, bio, username, lib)
    ensures AskedOrKept(before, Profiles.Wanted(before, displayName, bio, username, lib), displayName, bio, username, lib)
  {
    if displayName.Some? { TextRules.DisplayNameIsStable(displayName.value, lib); }
  }

  method UpdateProfile(repository: Repository<Profiles.Fields>, id: nat, expected: nat, displayName: Option<string>,
                       bio: Option<string>, username: Option<string>, now: Time, lib: TextRules.Library,
                       meanwhile: Rows<Profiles.Fields>)
    returns (r: Result<State<Profiles.Fields>, HandlerError<TextRules.FieldError>>)
    requires TextRules.Lawful(lib) && Sound(repository.rows, Profiles.Normalize(lib)) && Evolved(repository.rows, meanwhile)
    modifies repository
    ensures r.Err? ==> repository.rows == meanwhile
    ensures id in old(repository.rows) && Profiles.Acceptable(displayName, bio, username, lib) ==>
              var wanted := Profiles.Wanted(old(repository.rows)[id].fields, displayName, bio, username, lib);
              && (repository.rows, r) == Updating(old(repository.rows), meanwhile, id, expected, wanted, now, repository.key)
              && (r.Ok? ==> Updated(old(repository.rows), meanwhile, repository.rows, id, expected, wanted, r.value))
              && (r.Err? ==> FailsWith(old(repository.rows), meanwhile, id, expected, wanted, now, repository.key, r.error))
    ensures r.Ok? ==> id in old(repository.rows) && AskedOrKept(old(repository.rows)[id].fields, r.value.fields, displayName, bio, username, lib)
    ensures id !in old(repository.rows) ==> r == Err(NotFound)
    ensures id in old(repository.rows) && old(repository.rows)[id].version != expected ==> r == Err(VersionMismatch)
    ensures !Profiles.Acceptable(displayName, bio, username, lib) && id in old(repository.rows) && old(repository.rows)[id].version == expected ==>
              r.Err? && r.error.Rejected? && r.error.error.InvalidField?
  {
    ghost var before := repository.rows;
    var loaded := Load(repository, id, expected);
    repository.Become(meanwhile);
    if loaded.Err? {
      return loaded;
    }
    var profile := new VersionedEntity(loaded.value, Profiles.Normalize(lib));
    var changed := Profiles.UpdateProfile(profile, now, displayName, bio, username, lib);
    r := Save(repository, profile.state, changed, expected);
    if Profiles.Acceptable(displayName, bio, username, lib) {
      WantedIsAsked(before[id].fields, displayName, bio, username, lib);
    }
    UpdatingLosesNothing<Profiles.Fields, TextRules.FieldError>(
      before, meanwhile, id, expected, Profiles.Wanted(before[id].fields, displayName, bio, username, lib), now, repository.key);
  }

  /** Every scope is the one that was given under its name, or the one it was. */
  predicate GivenOrKept(before: Settings.Privacy, after: Settings.Privacy, seeAvatar: Option<Settings.Scope>,
                        findByUsername: Option<Settings.Scope>, seeBio: Option<Settings.Scope>)
  {
    && after.seeAvatar == (if seeAvatar.Some? then seeAvatar.value else before.seeAvatar)
    && after.findByUsername == (if findByUsername.Some? then findByUsername.value else before.findByUsername)
    && after.seeBio == (if seeBio.Some? then seeBio.value else before.seeBio)
  }

  method UpdateSettings(repository: Repository<Settings.Fields>, id: nat, expected: nat, theme: Option<Settings.Theme>,
                        locale: Option<Settings.Locale>, timezone: Option<string>, seeAvatar: Option<Settings.Scope>,
                        findByUsername: Option<Settings.Scope>, seeBio: Option<Settings.Scope>, now: Time,
                        lib: TextRules.Library, zone: string -> bool, meanwhile: Rows<Settings.Fields>)
    returns (r: Result<State<Settings.Fields>, HandlerError<TextRules.FieldError>>)
    requires Sound(repository.rows, Settings.Normalize(lib, zone)) && Evolved(repository.rows, meanwhile)
    modifies repository
    ensures r.Err? ==> repository.rows == meanwhile
    ensures id in old(repository.rows) && Settings.Acceptable(timezone, lib, zone) ==>
              var f := old(repository.rows)[id].fields;
              var privacy := Settings.MergePrivacy(f.privacy, seeAvatar, findByUsername, seeBio);
              var wanted := Settings.Wanted(f, theme, locale, timezone, Some(privacy), lib);
              && (repository.rows, r) == Updating(old(repository.rows), meanwhile, id, expected, wanted, now, repository.key)
              && (r.Ok? ==> Updated(old(repository.rows), meanwhile, repository.rows, id, expected, wanted, r.value))
              && (r.Err? ==> FailsWith(old(repository.rows), meanwhile, id, expected, wanted, now, repository.key, r.error))
    ensures r.Ok? ==> id in old(repository.rows) && GivenOrKept(old(repository.rows)[id].fields.privacy, r.value.fields.privacy,
                                                               seeAvatar, findByUsername, seeBio)
    ensures id !in old(repository.rows) ==> r == Err(NotFound)
    ensures id in old(repository.rows) && old(repository.rows)[id].version != expected ==> r == Err(VersionMismatch)
    ensures !Settings.Acceptable(timezone, lib, zone) && id in old(repository.rows) && old(repository.rows)[id].version == expected ==>
              r.Err? && r.error.Rejected? && r.error.error.InvalidField?
  {
    ghost var before := repository.rows;
    var loaded := Load(repository, id, expected);
    repository.Become(meanwhile);
    if loaded.Err? {
      return loaded;
    }
    var settings := new VersionedEntity(loaded.value, Settings.Normalize(lib, zone));
    var privacy := Settings.MergePrivacy(loaded.value.fields.privacy, seeAvatar, findByUsername, seeBio);
    var changed := Settings.UpdateSettings(settings, theme, locale, timezone, Some(privacy), now, lib, zone);
    r := Save(repository, settings.state, changed, expected);
    UpdatingLosesNothing<Settings.Fields, TextRules.FieldError>(
      before, meanwhile, id, expected, Settings.Wanted(before[id].fields, theme, locale, timezone, Some(privacy), lib), now,
      repository.key);
  }
}
