/** The profile aggregate. */
module Profiles {
  import opened Results
  import opened Models
  import opened Entities
  import opened TextRules

  datatype Status = Active | Disabled | Blocked

  datatype Fields = Fields(
    username: Option<string>,
    displayName: string,
    bio: Option<string>,
    avatarKey: Option<string>,
    status: Status,
    isVerified: bool)

  /** The fields of a new profile. */
  function DefaultFields(): Fields {
    Fields(None, DEFAULT_DISPLAY_NAME, None, None, Active, false)
  }

  /** The field validators, in declaration order. */
  function Normalize(lib: Library): Normalizer<Fields, FieldError> {
    (f: Fields) => NormalizeFields(f, lib)
  }

  function NormalizeFields(f: Fields, lib: Library): Result<Fields, FieldError> {
    var username := NormalizeUsername(f.username, lib);
    var displayName := DisplayName(f.displayName, lib);
    var bio := NormalizeBio(f.bio);
    if username.Err? then Err(username.error)
    else if displayName.Err? then Err(displayName.error)
    else if bio.Err? then Err(bio.error)
    else Ok(f.(username := username.value, displayName := displayName.value))
  }

  function NormalizeUsername(u: Option<string>, lib: Library): Result<Option<string>, FieldError> {
    if u.None? then Ok(None) else
      var r := Username(u.value, lib);
      if r.Ok? then Ok(Some(r.value)) else Err(r.error)
  }

  function NormalizeBio(b: Option<string>): Result<string, FieldError> {
    if b.Some? then Bio(b.value) else Ok("")
  }

  lemma NormalizedFromParts(f: Fields, lib: Library)
    ensures var (u, n, b) := (NormalizeUsername(f.username, lib), DisplayName(f.displayName, lib), NormalizeBio(f.bio));
            var r := NormalizeFields(f, lib);
            if u.Ok? && n.Ok? && b.Ok? then r == Ok(f.(username := u.value, displayName := n.value)) else r.Err?
  {
  }

  /** What normalized parts make of a profile tells the parts. */
  lemma PartsOfFixpoint(f: Fields, u: Result<Option<string>, FieldError>, n: Result<string, FieldError>, accepted: bool,
                        r: Result<Fields, FieldError>)
    requires if u.Ok? && n.Ok? && accepted then r == Ok(f.(username := u.value, displayName := n.value)) else r.Err?
    requires r == Ok(f)
    ensures u == Ok(f.username) && n == Ok(f.displayName) && accepted
  {
    assert f == f.(username := u.value, displayName := n.value);
    assert f.username == u.value && f.displayName == n.value;
  }

  lemma UsernamePartIsStable(u: Option<string>, lib: Library)
    requires Lawful(lib) && NormalizeUsername(u, lib).Ok?
    ensures NormalizeUsername(NormalizeUsername(u, lib).value, lib) == NormalizeUsername(u, lib)
  {
    if u.Some? { UsernameIsStable(u.value, lib); }
  }

  lemma AcceptedIsNormal(f: Fields, lib: Library)
    requires Lawful(lib) && NormalizeFields(f, lib).Ok?
    ensures NormalizeFields(NormalizeFields(f, lib).value, lib) == NormalizeFields(f, lib)
  {
    var u, n := NormalizeUsername(f.username, lib), DisplayName(f.displayName, lib);
    NormalizedFromParts(f, lib);
    UsernamePartIsStable(f.username, lib);
    DisplayNameIsStable(f.displayName, lib);
    var g := f.(username := u.value, displayName := n.value);
    NormalizedFromParts(g, lib);
    assert g.(username := u.value, displayName := n.value) == g;
  }

  /** Every accepted profile is a fixed point of its own validators. */
  lemma {:induction false} ProfilesAreStable(lib: Library)
    requires Lawful(lib)
    ensures Idempotent(Normalize(lib))
  {
    forall f: Fields | Normalize(lib)(f).Ok? ensures Normalize(lib)(Normalize(lib)(f).value) == Normalize(lib)(f) {
      AcceptedIsNormal(f, lib);
    }
  }

  type UserProfile = VersionedEntity<Fields, FieldError>

  /** What an update asks for; `None` keeps a field, and an empty biography removes it. */
  function Requested(f: Fields, displayName: Option<string>, bio: Option<string>, username: Option<string>): Fields {
    f.(displayName := if displayName.None? then f.displayName else displayName.value,
       bio := if bio.None? then f.bio else if bio.value == "" then None else bio,
       username := if username.None? then f.username else username)
  }

  predicate AcceptsUsername(u: Option<string>, lib: Library) {
    u.Some? ==> var name := Lower(Strip(u.value, lib), lib); UsernamePattern(name) && name !in lib.reserved
  }

  predicate AcceptsName(n: Option<string>, lib: Library) {
    n.Some? ==> var name := Strip(n.value, lib); 1 <= |name| <= 64 && forall c :: c in name ==> !IsEmoji(c)
  }

  predicate AcceptsBio(b: Option<string>) {
    b.Some? && b.value != "" ==> |b.value| <= 255 && '\n' !in b.value && '\r' !in b.value
  }

  /** Which requested texts the profile accepts. */
  predicate Acceptable(displayName: Option<string>, bio: Option<string>, username: Option<string>, lib: Library) {
    AcceptsUsername(username, lib) && AcceptsName(displayName, lib) && AcceptsBio(bio)
  }

  /** The fields an accepted update leaves: each given text in its normal form, everything else as it was. */
  function Wanted(f: Fields, displayName: Option<string>, bio: Option<string>, username: Option<string>, lib: Library): Fields {
    f.(displayName := if displayName.None? then f.displayName else Strip(displayName.value, lib),
       bio := if bio.None? then f.bio else if bio.value == "" then None else bio,
       username := if username.None? then f.username else Some(Lower(Strip(username.value, lib), lib)))
  }

  lemma RequestedUsername(stored: Option<string>, u: Option<string>, lib: Library)
    requires NormalizeUsername(stored, lib) == Ok(stored)
    ensures var n := NormalizeUsername(if u.None? then stored else u, lib);
            if AcceptsUsername(u, lib)
            then n == Ok(if u.None? then stored else Some(Lower(Strip(u.value, lib), lib)))
            else n.Err?
  {
  }

  lemma RequestedName(stored: string, n: Option<string>, lib: Library)
    requires DisplayName(stored, lib) == Ok(stored)
    ensures var d := DisplayName(if n.None? then stored else n.value, lib);
            if AcceptsName(n, lib) then d == Ok(if n.None? then stored else Strip(n.value, lib)) else d.Err?
  {
    if n.Some? { DisplayNameIsStable(n.value, lib); }
  }

  lemma RequestedBio(stored: Option<string>, b: Option<string>)
    requires NormalizeBio(stored).Ok?
    ensures NormalizeBio(if b.None? then stored else if b.value == "" then None else b).Ok? <==> AcceptsBio(b)
  {
  }

  lemma StoredParts(f: Fields, lib: Library)
    requires NormalizeFields(f, lib) == Ok(f)
    ensures NormalizeUsername(f.username, lib) == Ok(f.username)
    ensures DisplayName(f.displayName, lib) == Ok(f.displayName)
    ensures NormalizeBio(f.bio).Ok?
  {
    NormalizedFromParts(f, lib);
    PartsOfFixpoint(f, NormalizeUsername(f.username, lib), DisplayName(f.displayName, lib), NormalizeBio(f.bio).Ok?,
                    NormalizeFields(f, lib));
  }

  lemma RequestedTexts(f: Fields, displayName: Option<string>, bio: Option<string>, username: Option<string>, lib: Library)
    requires NormalizeFields(f, lib) == Ok(f)
    ensures var n := NormalizeFields(Requested(f, displayName, bio, username), lib);
            if Acceptable(displayName, bio, username, lib)
            then n == Ok(Wanted(f, displayName, bio, username, lib))
            else n.Err?
  {
    var g := Requested(f, displayName, bio, username);
    StoredParts(f, lib);
    RequestedUsername(f.username, username, lib);
    RequestedName(f.displayName, displayName, lib);
    RequestedBio(f.bio, bio);
    NormalizedFromParts(g, lib);
  }

  /**
   An update of a valid profile is refused exactly if one of its texts is not acceptable; otherwise every given text
   replaces its field in its normal form, an empty biography removes it, the other fields stay, and the change takes
   effect exactly if a field then differs and the clock is past the creation time. The profile stays valid.
   */
  method UpdateProfile(p: UserProfile, now: Time, displayName: Option<string>, bio: Option<string>, username: Option<string>,
                       ghost lib: Library)
    returns (r: Result<bool, ChangeError<FieldError>>)
    requires ValidProfile(p.state, p.normalize, lib)
    modifies p
    ensures ValidProfile(p.state, p.normalize, lib)
    ensures if Acceptable(displayName, bio, username, lib)
            then (p.state, r) == Moved(old(p.state), Wanted(old(p.state.fields), displayName, bio, username, lib), now)
            else r.Err? && r.error.InvalidField? && p.state == old(p.state)
  {
    ghost var before := p.state;
    UpdateComesTo(before, displayName, bio, username, now, lib);
    r := p.Apply(Requested(p.state.fields, displayName, bio, username), now);
  }

  lemma UpdateComesTo(s: State<Fields>, displayName: Option<string>, bio: Option<string>, username: Option<string>, now: Time,
                      lib: Library)
    requires Lawful(lib) && Settled(s, Normalize(lib))
    ensures var (s', r) := ApplyChanges(s, Requested(s.fields, displayName, bio, username), now, Normalize(lib));
            && Settled(s', Normalize(lib))
            && if Acceptable(displayName, bio, username, lib)
               then (s', r) == Moved(s, Wanted(s.fields, displayName, bio, username, lib), now)
               else r.Err? && r.error.InvalidField? && s' == s
  {
    var changes := Requested(s.fields, displayName, bio, username);
    SettledFields(s, lib);
    RequestedTexts(s.fields, displayName, bio, username, lib);
    ProfilesAreStable(lib);
    if Acceptable(displayName, bio, username, lib) {
      AcceptedIsNormal(changes, lib);
      NormalizedFieldsMove(s, changes, Wanted(s.fields, displayName, bio, username, lib), now, Normalize(lib));
    } else {
      ChangeIsAllOrNothing(s, changes, now, Normalize(lib));
      RefusedIsInvalid(s, changes, now, lib);
    }
  }

  lemma RefusedIsInvalid(s: State<Fields>, changes: Fields, now: Time, lib: Library)
    requires NormalizeFields(changes, lib).Err?
    ensures ApplyChanges(s, changes, now, Normalize(lib)).1 == Err(InvalidField(NormalizeFields(changes, lib).error))
  {
  }

  /** The avatar, the status and the verification flag can be changed whatever the texts are. */
  lemma {:induction false} PlainChangesSucceed(s: State<Fields>, f: Fields, now: Time, lib: Library)
    requires Lawful(lib) && Settled(s, Normalize(lib))
    requires f.username == s.fields.username && f.displayName == s.fields.displayName && f.bio == s.fields.bio
    ensures ApplyChanges(s, f, now, Normalize(lib)) == Moved(s, f, now)
  {
    SettledFields(s, lib);
    PlainFieldsAreNormal(s.fields, f, lib);
    NormalizedFieldsMove(s, f, f, now, Normalize(lib));
  }

  lemma PlainFieldsAreNormal(stored: Fields, f: Fields, lib: Library)
    requires NormalizeFields(stored, lib) == Ok(stored)
    requires f.username == stored.username && f.displayName == stored.displayName && f.bio == stored.bio
    ensures NormalizeFields(f, lib) == Ok(f)
  {
    StoredParts(stored, lib);
    NormalizedFromParts(f, lib);
    assert f.(username := f.username, displayName := f.displayName) == f;
  }

  ghost predicate ValidProfile(s: State<Fields>, normalize: Normalizer<Fields, FieldError>, lib: Library) {
    Lawful(lib) && Settled(s, Normalize(lib)) && normalize == Normalize(lib)
  }

  method UpdateAvatar(p: UserProfile, avatarKey: Option<string>, now: Time, ghost lib: Library) returns (r: Result<bool, ChangeError<FieldError>>)
    requires ValidProfile(p.state, p.normalize, lib)
    modifies p
    ensures (p.state, r) == Moved(old(p.state), old(p.state.fields).(avatarKey := avatarKey), now)
    ensures ValidProfile(p.state, p.normalize, lib)
  {
    ghost var before := p.state;
    PlainChangesSucceed(before, before.fields.(avatarKey := avatarKey), now, lib);
    ProfilesAreStable(lib);
    ChangeIsAllOrNothing(before, before.fields.(avatarKey := avatarKey), now, Normalize(lib));
    r := p.Apply(p.state.fields.(avatarKey := avatarKey), now);
  }

  method SetStatus(p: UserProfile, status: Status, now: Time, ghost lib: Library) returns (r: Result<bool, ChangeError<FieldError>>)
    requires ValidProfile(p.state, p.normalize, lib)
    modifies p
    ensures (p.state, r) == Moved(old(p.state), old(p.state.fields).(status := status), now)
    ensures ValidProfile(p.state, p.normalize, lib)
  {
    ghost var before := p.state;
    PlainChangesSucceed(before, before.fields.(status := status), now, lib);
    ProfilesAreStable(lib);
    ChangeIsAllOrNothing(before, before.fields.(status := status), now, Normalize(lib));
    r := p.Apply(p.state.fields.(status := status), now);
  }

  method SetVerified(p: UserProfile, isVerified: bool, now: Time, ghost lib: Library) returns (r: Result<bool, ChangeError<FieldError>>)
    requires ValidProfile(p.state, p.normalize, lib)
    modifies p
    ensures (p.state, r) == Moved(old(p.state), old(p.state.fields).(isVerified := isVerified), now)
    ensures ValidProfile(p.state, p.normalize, lib)
  {
    ghost var before := p.state;
    PlainChangesSucceed(before, before.fields.(isVerified := isVerified), now, lib);
    ProfilesAreStable(lib);
    ChangeIsAllOrNothing(before, before.fields.(isVerified := isVerified), now, Normalize(lib));
    r := p.Apply(p.state.fields.(isVerified := isVerified), now);
  }

  /** A new profile, with the default display name, is a valid start of a life at any time. */
  lemma NewProfilesAreSettled(id: nat, now: Time, lib: Library)
    requires Lawful(lib)
    ensures Settled(State(id, now, None, 1, DefaultFields()), Normalize(lib))
  {
    DefaultNameIsItself(lib);
    assert NormalizeFields(DefaultFields(), lib) == Ok(DefaultFields());
  }

  lemma StoredTexts(f: Fields, lib: Library)
    requires NormalizeFields(f, lib) == Ok(f)
    ensures f.username.Some? ==> Username(f.username.value, lib) == Ok(f.username.value)
    ensures DisplayName(f.displayName, lib) == Ok(f.displayName)
  {
    StoredParts(f, lib);
  }

  lemma SameTexts(f: Fields, username: string, displayName: string, lib: Library)
    requires NormalizeFields(f, lib) == Ok(f) && f.username.Some?
    requires Username(username, lib) == Ok(f.username.value) && DisplayName(displayName, lib) == Ok(f.displayName)
    ensures NormalizeFields(Requested(f, Some(displayName), None, Some(username)), lib) == Ok(f)
  {
    var g := Requested(f, Some(displayName), None, Some(username));
    StoredParts(f, lib);
    NormalizedFromParts(g, lib);
    assert g.(username := f.username, displayName := f.displayName) == f;
  }

  /** The texts differ from the stored ones only in letter case or white space around the username, or in white
      space around the display name. */
  predicate SameUpToCaseAndPadding(f: Fields, username: string, displayName: string, lib: Library) {
    f.username == Some(Lower(Strip(username, lib), lib)) && f.displayName == Strip(displayName, lib)
  }

  lemma CaseAndPaddingNormalizeAway(f: Fields, username: string, displayName: string, lib: Library)
    requires NormalizeFields(f, lib) == Ok(f) && SameUpToCaseAndPadding(f, username, displayName, lib)
    ensures NormalizeFields(Requested(f, Some(displayName), None, Some(username)), lib) == Ok(f)
  {
    StoredTexts(f, lib);
    UsernameAgain(f.username.value, username, lib);
    DisplayNameAgain(f.displayName, displayName, lib);
    SameTexts(f, username, displayName, lib);
  }

  lemma NormalizedAwayIsANoOp(s: State<Fields>, changes: Fields, now: Time, lib: Library)
    requires Lawful(lib) && Settled(s, Normalize(lib)) && NormalizeFields(changes, lib) == Ok(s.fields)
    ensures ApplyChanges(s, changes, now, Normalize(lib)) == (s, Ok(false))
  {
    ProfilesAreStable(lib);
    ChangeIsAllOrNothing(s, changes, now, Normalize(lib));
  }

  /** Whatever a profile has become, submitting its own texts in other case or with padding is a no-op. */
  lemma CaseAndPaddingDoNotCount(s: State<Fields>, username: string, displayName: string, now: Time, lib: Library)
    requires Lawful(lib) && Settled(s, Normalize(lib))
    requires SameUpToCaseAndPadding(s.fields, username, displayName, lib)
    ensures ApplyChanges(s, Requested(s.fields, Some(displayName), None, Some(username)), now, Normalize(lib)) == (s, Ok(false))
  {
    SettledFields(s, lib);
    CaseAndPaddingNormalizeAway(s.fields, username, displayName, lib);
    NormalizedAwayIsANoOp(s, Requested(s.fields, Some(displayName), None, Some(username)), now, lib);
  }

  lemma SettledFields(s: State<Fields>, lib: Library)
    requires Settled(s, Normalize(lib))
    ensures NormalizeFields(s.fields, lib) == Ok(s.fields)
  {
  }
}
