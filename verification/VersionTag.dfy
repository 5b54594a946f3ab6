/** Entity versions as strong ETags (section 8.8.3 of RFC 9110) and their If-Match conditions (section 13.1.1). */
module VersionTag {
  import opened Results
  import opened Digits

  const MAX_VERSION: nat := 0x7FFF_FFFF_FFFF_FFFF

  datatype HttpError = PreconditionRequired | InvalidVersionTag

  /** The ETag header written for a version. */
  function Print(version: nat): string {
    "\"" + Text(version) + "\""
  }

  /** A quoted digit string of at most 19 digits without a leading zero. */
  predicate TagPattern(s: string) {
    3 <= |s| <= 21 && s[0] == '"' && s[|s| - 1] == '"' &&
    '1' <= s[1] <= '9' && AllDigits(s[2..|s| - 1])
  }

  /** The version an If-Match header asks for. */
  function ExpectedVersion(ifMatch: Option<string>): (r: Result<nat, HttpError>)
    ensures r == Err(PreconditionRequired) <==> ifMatch.None?
  {
    if ifMatch.None? then Err(PreconditionRequired)
    else
      var s := ifMatch.value;
      if !TagPattern(s) then Err(InvalidVersionTag)
      else
        var version := ReadTag(s);
        if version > MAX_VERSION then Err(InvalidVersionTag) else Ok(version)
  }

  lemma TagDigits(s: string)
    requires TagPattern(s)
    ensures AllDigits(s[1..|s| - 1]) && 1 <= |s[1..|s| - 1]| <= 19 && s[1..|s| - 1][0] != '0'
    ensures s == "\"" + s[1..|s| - 1] + "\""
  {
    var d := s[1..|s| - 1];
    assert d == [s[1]] + s[2..|s| - 1];
  }

  function ReadTag(s: string): nat
    requires TagPattern(s)
  {
    TagDigits(s);
    Value(s[1..|s| - 1])
  }

  lemma NineteenDigits()
    ensures MAX_VERSION < Pow10(19)
  {
    assert Pow10(5) == 100000;
    assert Pow10(10) == 10000000000;
    assert Pow10(15) == 1000000000000000;
    assert Pow10(19) == 10000000000000000000;
  }

  /** A printed version is read back. */
  lemma PrintedTagIsAccepted(v: nat)
    requires 1 <= v <= MAX_VERSION
    ensures ExpectedVersion(Some(Print(v))) == Ok(v)
  {
    NineteenDigits();
    TextLength(v, 19);
    QuotedDigits(Text(v), Print(v));
    ValueOfText(v);
  }

  lemma QuotedDigits(t: string, s: string)
    requires AllDigits(t) && 1 <= |t| <= 19 && t[0] != '0' && s == "\"" + t + "\""
    ensures TagPattern(s) && s[1..|s| - 1] == t
  {
    assert s[1..|s| - 1] == t;
    assert s[1] == t[0] && s[2..|s| - 1] == t[1..];
  }

  /** Exactly the printed forms of the versions a bigint column holds are accepted, each as its own version. */
  lemma AcceptsExactlyPrintedTags(s: string, v: nat)
    ensures ExpectedVersion(Some(s)) == Ok(v) <==> 1 <= v <= MAX_VERSION && s == Print(v)
  {
    if 1 <= v <= MAX_VERSION && s == Print(v) {
      PrintedTagIsAccepted(v);
    }
    if ExpectedVersion(Some(s)) == Ok(v) {
      TagDigits(s);
      TextOfValue(s[1..|s| - 1]);
    }
  }

  /** Two distinct tags never stand for the same version, and no tag stands for two. */
  lemma TagsAreVersions(s: string, t: string)
    requires ExpectedVersion(Some(s)).Ok? && ExpectedVersion(Some(t)).Ok?
    ensures s == t <==> ExpectedVersion(Some(s)) == ExpectedVersion(Some(t))
  {
    AcceptsExactlyPrintedTags(s, ExpectedVersion(Some(s)).value);
    AcceptsExactlyPrintedTags(t, ExpectedVersion(Some(t)).value);
  }

  /** The header entries of a response. */
  class Response {
    var headers: map<string, string>

    constructor (headers: map<string, string>)
      ensures this.headers == headers
    {
      this.headers := headers;
    }

    /** The tag set here is accepted as a condition and gives the version back; other entries stay. */
    method SetPrivateVersion(version: nat)
      modifies this
      ensures headers == old(headers)["ETag" := Print(version)]["Cache-Control" := "private, no-cache"]
      ensures ExpectedVersion(Some(headers["ETag"])) == Ok(version) <==> 1 <= version <= MAX_VERSION
    {
      headers := headers["ETag" := Print(version)];
      headers := headers["Cache-Control" := "private, no-cache"];
      AcceptsExactlyPrintedTags(Print(version), version);
      assert "ETag"[0] != "Cache-Control"[0];
    }
  }
}
