/**
 The text rules of the profile fields. Case mapping and white space are library tables and stand as
 parameters; what is needed of them is stated for ASCII and the Russian letters only.
 */
module TextRules {
  import opened Results

  /** `str.lower` and `str.strip`, character by character, and the names nobody may take. */
  datatype Library = Library(lower: char -> string, space: char -> bool, reserved: set<string>)

  predicate NameChar(c: char) {
    'a' <= c <= 'z' || '0' <= c <= '9' || c == '_'
  }

  ghost predicate Lawful(lib: Library) {
    && (forall c :: NameChar(c) ==> lib.lower(c) == [c] && !lib.space(c))
    && (forall c :: 'A' <= c <= 'Z' ==> lib.lower(c) == [((c as int) + 32) as char] && !lib.space(c))
    && (forall c :: Cyrillic(c) ==> !lib.space(c))
    && lib.space(' ')
  }

  /** The letters of the default display name. */
  predicate Cyrillic(c: char) {
    'А' <= c <= 'я'
  }

  function StripLeft(s: string, lib: Library): (r: string)
    ensures r == [] || !lib.space(r[0])
    ensures |r| <= |s| && r == s[|s| - |r|..]
  {
    if s != [] && lib.space(s[0]) then StripLeft(s[1..], lib) else s
  }

  function StripRight(s: string, lib: Library): (r: string)
    ensures r == [] || !lib.space(r[|r| - 1])
    ensures |r| <= |s| && r == s[..|r|]
  {
    if s != [] && lib.space(s[|s| - 1]) then StripRight(s[..|s| - 1], lib) else s
  }

  function Strip(s: string, lib: Library): string {
    StripRight(StripLeft(s, lib), lib)
  }

  function Lower(s: string, lib: Library): string {
    if s == [] then [] else lib.lower(s[0]) + Lower(s[1..], lib)
  }

  /** Text without white space at its ends is not stripped. */
  lemma StripKeeps(s: string, lib: Library)
    requires s != [] ==> !lib.space(s[0]) && !lib.space(s[|s| - 1])
    ensures Strip(s, lib) == s
  {
  }

  lemma StripTwice(s: string, lib: Library)
    ensures Strip(Strip(s, lib), lib) == Strip(s, lib)
  {
    var l := StripLeft(s, lib);
    var r := StripRight(l, lib);
    if r != [] {
      assert r[0] == l[0];
      StripKeeps(r, lib);
    }
  }

  lemma {:induction false} LowerKeepsNames(s: string, lib: Library)
    requires Lawful(lib) && forall i :: 0 <= i < |s| ==> NameChar(s[i])
    ensures Lower(s, lib) == s
  {
    if s != [] {
      LowerKeepsNames(s[1..], lib);
      assert NameChar(s[0]);
      assert s == [s[0]] + s[1..];
    }
  }

  predicate Blank(s: string, lib: Library) {
    forall i :: 0 <= i < |s| ==> lib.space(s[i])
  }

  lemma {:induction false} StripLeftDrops(pad: string, s: string, lib: Library)
    requires Blank(pad, lib)
    ensures StripLeft(pad + s, lib) == StripLeft(s, lib)
  {
    if pad == [] {
      assert pad + s == s;
    } else {
      assert (pad + s)[1..] == pad[1..] + s;
      StripLeftDrops(pad[1..], s, lib);
    }
  }

  lemma {:induction false} StripRightDrops(s: string, pad: string, lib: Library)
    requires Blank(pad, lib)
    ensures StripRight(s + pad, lib) == StripRight(s, lib)
  {
    if pad == [] {
      assert s + pad == s;
    } else {
      assert (s + pad)[..|s + pad| - 1] == s + pad[..|pad| - 1];
      StripRightDrops(s, pad[..|pad| - 1], lib);
    }
  }

  /** Text without white space at its ends is what is left of it in any padding. */
  lemma PaddingIsStripped(left: string, s: string, right: string, lib: Library)
    requires Blank(left, lib) && Blank(right, lib) && s != [] && !lib.space(s[0]) && !lib.space(s[|s| - 1])
    ensures Strip(left + s + right, lib) == s
  {
    assert left + s + right == left + (s + right);
    StripLeftDrops(left, s + right, lib);
    assert (s + right)[0] == s[0];
    StripRightDrops(s, right, lib);
  }

  /** `t` is `s` with some of its letters as capitals. */
  predicate Recased(s: string, t: string) {
    |s| == |t| && forall i :: 0 <= i < |s| ==> t[i] == s[i] || ('a' <= s[i] <= 'z' && t[i] as int == s[i] as int - 32)
  }

  lemma {:induction false} CapitalsAreLowered(s: string, t: string, lib: Library)
    requires Lawful(lib) && Recased(s, t) && forall i :: 0 <= i < |s| ==> NameChar(s[i])
    ensures Lower(t, lib) == s
  {
    if s != [] {
      CapitalsAreLowered(s[1..], t[1..], lib);
      assert NameChar(s[0]) && (t[0] == s[0] || 'A' <= t[0] <= 'Z');
      assert lib.lower(t[0]) == [s[0]];
      assert s == [s[0]] + s[1..];
    }
  }

  // ---- usernames ----

  /** The reserved names of this service. */
  const RESERVED_USERNAMES: set<string> := {
    "admin", "administrator", "root", "system", "support", "help", "api", "bot", "official", "andruha",
    "moderator", "service", "null", "undefined"}

  datatype FieldError = InvalidUsername | ReservedUsername | InvalidDisplayName | InvalidBio | InvalidTimezone

  predicate UsernamePattern(s: string) {
    3 <= |s| <= 32 && forall i :: 0 <= i < |s| ==> NameChar(s[i])
  }

  function Username(s: string, lib: Library): Result<string, FieldError> {
    var normalized := Lower(Strip(s, lib), lib);
    if !UsernamePattern(normalized) then Err(InvalidUsername)
    else if normalized in lib.reserved then Err(ReservedUsername)
    else Ok(normalized)
  }

  /** A normalized username is its own normal form. */
  lemma {:induction false} UsernameIsStable(s: string, lib: Library)
    requires Lawful(lib) && Username(s, lib).Ok?
    ensures Username(Username(s, lib).value, lib) == Username(s, lib)
  {
    var u := Username(s, lib).value;
    assert NameChar(u[0]) && NameChar(u[|u| - 1]);
    StripKeeps(u, lib);
    LowerKeepsNames(u, lib);
  }

  /** A username in any capitals and any padding is the username. */
  lemma RecasedUsernameIsTheUsername(s: string, t: string, left: string, right: string, lib: Library)
    requires Lawful(lib) && UsernamePattern(s) && s !in lib.reserved && Recased(s, t) && Blank(left, lib) && Blank(right, lib)
    ensures Username(left + t + right, lib) == Ok(s)
  {
    var last := |s| - 1;
    assert NameChar(s[0]) && NameChar(s[last]);
    assert t[0] == s[0] || 'A' <= t[0] <= 'Z';
    assert t[last] == s[last] || 'A' <= t[last] <= 'Z';
    PaddingIsStripped(left, t, right, lib);
    CapitalsAreLowered(s, t, lib);
  }

  // ---- display names ----

  const DEFAULT_DISPLAY_NAME := "Пользователь"

  function MaxChar(s: string): (m: char)
    requires s != []
    ensures m in s && forall c :: c in s ==> c <= m
  {
    if |s| == 1 then s[0] else
      var rest := MaxChar(s[1..]);
      assert s == [s[0]] + s[1..];
      if s[0] >= rest then s[0] else rest
  }

  predicate IsEmoji(c: char) {
    '\U{2600}' <= c <= '\U{27BF}' || '\U{1F000}' <= c <= '\U{1FFFF}'
  }

  /** The largest character decides alone when it is below every pictogram. */
  predicate ContainsEmoji(s: string)
    requires s != []
  {
    if MaxChar(s) < '\U{2000}' then false else exists c :: c in s && IsEmoji(c)
  }

  /** The shortcut never misses one. */
  lemma {:induction false} EmojiShortcutIsExact(s: string)
    requires s != []
    ensures ContainsEmoji(s) <==> exists c :: c in s && IsEmoji(c)
  {
    if c :| c in s && IsEmoji(c) {
      assert c <= MaxChar(s);
    }
  }

  function DisplayName(s: string, lib: Library): Result<string, FieldError> {
    Trimmed(Strip(s, lib))
  }

  function Trimmed(trimmed: string): Result<string, FieldError> {
    if !(1 <= |trimmed| <= 64) then Err(InvalidDisplayName)
    else if ContainsEmoji(trimmed) then Err(InvalidDisplayName)
    else Ok(trimmed)
  }

  /** Exactly the trimmed texts of 1 to 64 characters without pictograms are display names. */
  lemma {:induction false} DisplayNameIsStable(s: string, lib: Library)
    ensures DisplayName(s, lib).Ok? <==>
              1 <= |Strip(s, lib)| <= 64 && forall c :: c in Strip(s, lib) ==> !IsEmoji(c)
    ensures DisplayName(s, lib).Ok? ==> DisplayName(DisplayName(s, lib).value, lib) == DisplayName(s, lib)
  {
    StripTwice(s, lib);
    if Strip(s, lib) != [] {
      EmojiShortcutIsExact(Strip(s, lib));
    }
  }

  /** A display name in any padding is the display name. */
  lemma PaddedNameIsTheName(s: string, left: string, right: string, lib: Library)
    requires DisplayName(s, lib) == Ok(s) && Blank(left, lib) && Blank(right, lib)
    ensures DisplayName(left + s + right, lib) == Ok(s)
  {
    assert Strip(s, lib) == s;
    EndsAreSolid(s, lib);
    PaddingIsStripped(left, s, right, lib);
  }

  lemma EndsAreSolid(s: string, lib: Library)
    requires Strip(s, lib) == s && s != []
    ensures !lib.space(s[0]) && !lib.space(s[|s| - 1])
  {
    var l := StripLeft(s, lib);
    assert |l| == |s| && l == s;
  }

  /** Names of up to 64 Russian letters are their own normal form. */
  lemma RussianNameIsItself(s: string, lib: Library)
    requires Lawful(lib) && 1 <= |s| <= 64 && forall c :: c in s ==> Cyrillic(c)
    ensures DisplayName(s, lib) == Ok(s)
  {
    assert s[0] in s && s[|s| - 1] in s;
    StripKeeps(s, lib);
    assert MaxChar(s) in s;
  }

  /** The default display name is an accepted name in its normal form. */
  lemma DefaultNameIsItself(lib: Library)
    requires Lawful(lib)
    ensures DisplayName(DEFAULT_DISPLAY_NAME, lib) == Ok(DEFAULT_DISPLAY_NAME)
  {
    RussianNameIsItself(DEFAULT_DISPLAY_NAME, lib);
  }

  lemma ReservedNamesFitThePattern(name: string)
    requires name in RESERVED_USERNAMES
    ensures UsernamePattern(name)
  {
  }

  /** With the names of this service, a reserved name is refused as reserved in every spelling. */
  lemma ReservedNamesAreRefused(s: string, name: string, lib: Library)
    requires lib.reserved == RESERVED_USERNAMES && name in RESERVED_USERNAMES && Lower(Strip(s, lib), lib) == name
    ensures Username(s, lib) == Err(ReservedUsername)
  {
    ReservedNamesFitThePattern(name);
    assert name in lib.reserved;
  }

  /** Padding around a stored display name does not count. */
  lemma DisplayNameAgain(stored: string, again: string, lib: Library)
    requires DisplayName(stored, lib) == Ok(stored) && stored == Strip(again, lib)
    ensures DisplayName(again, lib) == Ok(stored)
  {
  }

  /** Letter case and padding of a stored username do not count. */
  lemma UsernameAgain(stored: string, again: string, lib: Library)
    requires Username(stored, lib) == Ok(stored) && stored == Lower(Strip(again, lib), lib)
    ensures Username(again, lib) == Ok(stored)
  {
  }

  function Bio(s: string): Result<string, FieldError> {
    if |s| > 255 || '\n' in s || '\r' in s then Err(InvalidBio) else Ok(s)
  }
}
