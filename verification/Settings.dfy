/** The settings aggregate. */
module Settings {
  import opened Results
  import opened Models
  import opened Entities
  import opened TextRules

  datatype Theme = Light | Dark | SystemTheme
  datatype Locale = Ru | En
  datatype Scope = All | Nobody

  datatype Privacy = Privacy(seeAvatar: Scope, findByUsername: Scope, seeBio: Scope)

  datatype Fields = Fields(theme: Theme, locale: Locale, timezone: string, privacy: Privacy)

  /** The IANA database decides which zone names exist. */
  function Normalize(lib: Library, zone: string -> bool): Normalizer<Fields, FieldError> {
    (f: Fields) =>
      var name := Strip(f.timezone, lib);
      if zone(name) then Ok(f.(timezone := name)) else Err(InvalidTimezone)
  }

  lemma SettingsAreStable(lib: Library, zone: string -> bool)
    ensures Idempotent(Normalize(lib, zone))
  {
    forall f: Fields | Normalize(lib, zone)(f).Ok?
      ensures Normalize(lib, zone)(Normalize(lib, zone)(f).value) == Normalize(lib, zone)(f)
    {
      StripTwice(f.timezone, lib);
    }
  }

  type UserSettings = VersionedEntity<Fields, FieldError>

  function OrElse<T>(x: Option<T>, y: T): T {
    if x.Some? then x.value else y
  }

  function Requested(f: Fields, theme: Option<Theme>, locale: Option<Locale>, timezone: Option<string>, privacy: Option<Privacy>): Fields {
    Fields(OrElse(theme, f.theme), OrElse(locale, f.locale), OrElse(timezone, f.timezone), OrElse(privacy, f.privacy))
  }

  ghost predicate ValidSettings(s: State<Fields>, normalize: Normalizer<Fields, FieldError>, lib: Library, zone: string -> bool) {
    Settled(s, Normalize(lib, zone)) && normalize == Normalize(lib, zone)
  }

  /** Only the zone can be refused. */
  predicate Acceptable(timezone: Option<string>, lib: Library, zone: string -> bool) {
    timezone.Some? ==> zone(Strip(timezone.value, lib))
  }

  /** The settings an accepted update leaves: what is given replaces what was, the zone without padding. */
  function Wanted(f: Fields, theme: Option<Theme>, locale: Option<Locale>, timezone: Option<string>, privacy: Option<Privacy>,
                  lib: Library): Fields {
    f.(theme := if theme.Some? then theme.value else f.theme,
       locale := if locale.Some? then locale.value else f.locale,
       timezone := if timezone.Some? then Strip(timezone.value, lib) else f.timezone,
       privacy := if privacy.Some? then privacy.value else f.privacy)
  }

  lemma RequestedSettings(f: Fields, g: Fields, wanted: Fields, lib: Library, zone: string -> bool)
    requires Normalize(lib, zone)(f) == Ok(f)
    requires wanted == g.(timezone := wanted.timezone) && Strip(wanted.timezone, lib) == wanted.timezone
    requires Strip(g.timezone, lib) == wanted.timezone
    ensures Normalize(lib, zone)(g) == if zone(wanted.timezone) then Ok(wanted) else Err(InvalidTimezone)
    ensures zone(wanted.timezone) ==> Normalize(lib, zone)(wanted) == Ok(wanted)
  {
  }

  lemma UpdateComesTo(s: State<Fields>, theme: Option<Theme>, locale: Option<Locale>, timezone: Option<string>,
                      privacy: Option<Privacy>, now: Time, lib: Library, zone: string -> bool)
    requires Settled(s, Normalize(lib, zone))
    ensures var normalize := Normalize(lib, zone);
            var (s', r) := ApplyChanges(s, Requested(s.fields, theme, locale, timezone, privacy), now, normalize);
            && Settled(s', normalize)
            && if Acceptable(timezone, lib, zone)
               then (s', r) == Moved(s, Wanted(s.fields, theme, locale, timezone, privacy, lib), now)
               else r == Err(InvalidField(InvalidTimezone)) && s' == s
  {
    var normalize := Normalize(lib, zone);
    var changes := Requested(s.fields, theme, locale, timezone, privacy);
    var wanted := Wanted(s.fields, theme, locale, timezone, privacy, lib);
    assert Strip(s.fields.timezone, lib) == s.fields.timezone && zone(s.fields.timezone);
    if timezone.Some? { StripTwice(timezone.value, lib); }
    RequestedSettings(s.fields, changes, wanted, lib, zone);
    if Acceptable(timezone, lib, zone) {
      NormalizedFieldsMove(s, changes, wanted, now, normalize);
    }
  }

  /**
   An update of valid settings is refused exactly if the given zone does not exist; otherwise what is given replaces
   what was, the rest stays, and the change takes effect exactly if something then differs and the clock is past the
   creation time. The settings stay valid.
   */
  method UpdateSettings(s: UserSettings, theme: Option<Theme>, locale: Option<Locale>, timezone: Option<string>,
                        privacy: Option<Privacy>, now: Time, ghost lib: Library, ghost zone: string -> bool)
    returns (r: Result<bool, ChangeError<FieldError>>)
    requires ValidSettings(s.state, s.normalize, lib, zone)
    modifies s
    ensures ValidSettings(s.state, s.normalize, lib, zone)
    ensures if Acceptable(timezone, lib, zone)
            then (s.state, r) == Moved(old(s.state), Wanted(old(s.state.fields), theme, locale, timezone, privacy, lib), now)
            else r == Err(InvalidField(InvalidTimezone)) && s.state == old(s.state)
  {
    UpdateComesTo(s.state, theme, locale, timezone, privacy, now, lib, zone);
    r := s.Apply(Requested(s.state.fields, theme, locale, timezone, privacy), now);
  }

  /** The privacy part of an update command: scopes that are not given stay. */
  function MergePrivacy(p: Privacy, seeAvatar: Option<Scope>, findByUsername: Option<Scope>, seeBio: Option<Scope>): Privacy {
    Privacy(OrElse(seeAvatar, p.seeAvatar), OrElse(findByUsername, p.findByUsername), OrElse(seeBio, p.seeBio))
  }

  const DEFAULT_TIMEZONE := "Europe/Moscow"
  const DEFAULTS := Fields(SystemTheme, Ru, DEFAULT_TIMEZONE, Privacy(All, All, All))

  /** No white space at the ends. */
  predicate Unpadded(s: string, lib: Library) {
    s != [] ==> !lib.space(s[0]) && !lib.space(s[|s| - 1])
  }

  method ChangeTo(s: UserSettings, target: Fields, now: Time, ghost lib: Library, ghost zone: string -> bool)
    returns (r: Result<bool, ChangeError<FieldError>>)
    requires ValidSettings(s.state, s.normalize, lib, zone) && Unpadded(target.timezone, lib)
    modifies s
    ensures ValidSettings(s.state, s.normalize, lib, zone)
    ensures if zone(target.timezone) then (s.state, r) == Moved(old(s.state), target, now)
            else r == Err(InvalidField(InvalidTimezone)) && s.state == old(s.state)
  {
    StripKeeps(target.timezone, lib);
    r := UpdateSettings(s, Some(target.theme), Some(target.locale), Some(target.timezone), Some(target.privacy), now, lib, zone);
  }

  /** A reset is refused only if the default zone does not exist; otherwise every setting gets its default. */
  method ResetToDefaults(s: UserSettings, now: Time, ghost lib: Library, ghost zone: string -> bool)
    returns (r: Result<bool, ChangeError<FieldError>>)
    requires ValidSettings(s.state, s.normalize, lib, zone) && Lawful(lib)
    modifies s
    ensures ValidSettings(s.state, s.normalize, lib, zone)
    ensures if zone(DEFAULTS.timezone) then (s.state, r) == Moved(old(s.state), DEFAULTS, now)
            else r == Err(InvalidField(InvalidTimezone)) && s.state == old(s.state)
  {
    assert NameChar(DEFAULT_TIMEZONE[|DEFAULT_TIMEZONE| - 1]);
    r := ChangeTo(s, DEFAULTS, now, lib, zone);
  }

  lemma ValidZoneIsNormal(f: Fields, lib: Library, zone: string -> bool)
    requires Strip(f.timezone, lib) == f.timezone && zone(f.timezone)
    ensures Normalize(lib, zone)(f) == Ok(f)
  {
  }

  /** Changing to given settings, as a reset does, takes at most one version, and a second time changes nothing. */
  lemma ResettingTwice(s: State<Fields>, target: Fields, now: Time, later: Time, lib: Library, zone: string -> bool)
    requires Settled(s, Normalize(lib, zone)) && now > s.createdAt
    requires Strip(target.timezone, lib) == target.timezone && zone(target.timezone)
    ensures var (once, r) := ApplyChanges(s, target, now, Normalize(lib, zone));
            && r == Ok(s.fields != target) && once.fields == target
            && once.version == s.version + (if s.fields != target then 1 else 0)
            && ApplyChanges(once, target, later, Normalize(lib, zone)) == (once, Ok(false))
  {
    SettingsAreStable(lib, zone);
    ValidZoneIsNormal(target, lib, zone);
    ChangingTwice(s, target, now, later, Normalize(lib, zone));
  }
}
