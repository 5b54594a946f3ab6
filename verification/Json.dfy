/**
 The compact JSON text that is hashed into a request fingerprint
 (`ensure_ascii=False`, separators "," and ":"; strings escaped as in section 7 of RFC 8259).
 The main theorem: reading the text gives the tree back, so that different trees never share their text.
 */
module Json {
  import opened Results
  import opened Digits

  datatype Json =
    | JNull
    | JBool(b: bool)
    | JInt(i: int)
    | JStr(s: string)
    | JArr(items: seq<Json>)
    | JObj(members: seq<Member>)

  datatype Member = Member(key: string, value: Json)

  function HexDigit(d: nat): char
    requires d < 16
  {
    if d < 10 then DigitChar(d) else (d + 87) as char
  }

  /** The quote, the backslash and the control characters are escaped; everything else is literal. */
  function EscapeChar(c: char): (s: string)
    ensures |s| > 0 && s[0] != '"'
  {
    if c == '"' then "\\\""
    else if c == '\\' then "\\\\"
    else if c == '\n' then "\\n"
    else if c == '\r' then "\\r"
    else if c == '\t' then "\\t"
    else if c as int == 8 then "\\b"
    else if c as int == 12 then "\\f"
    else if (c as int) < 32 then "\\u00" + [HexDigit(c as int / 16), HexDigit(c as int % 16)]
    else [c]
  }

  /** The rest of a quoted string, its closing quote and then `rest`. */
  function WriteString(s: string, rest: string): (t: string)
    ensures t != []
  {
    if s == [] then "\"" + rest else EscapeChar(s[0]) + WriteString(s[1..], rest)
  }

  function IntText(i: int): string {
    if i < 0 then "-" + Text(-i) else Text(i)
  }

  /** The compact text of `j`, followed by `rest`. */
  function Write(j: Json, rest: string): string
    decreases j, 1
  {
    match j
    case JNull => "null" + rest
    case JBool(b) => (if b then "true" else "false") + rest
    case JInt(i) => IntText(i) + rest
    case JStr(s) => "\"" + WriteString(s, rest)
    case JArr(items) => "[" + WriteItems(items, rest)
    case JObj(members) => "{" + WriteMembers(members, rest)
  }

  /** Items, the closing bracket and then `rest`. */
  function WriteItems(items: seq<Json>, rest: string): string
    decreases items, 0
  {
    if items == [] then "]" + rest
    else if |items| == 1 then Write(items[0], "]" + rest)
    else Write(items[0], "," + WriteItems(items[1..], rest))
  }

  function WriteMember(m: Member, rest: string): string
    decreases m, 1
  {
    "\"" + WriteString(m.key, ":" + Write(m.value, rest))
  }

  /** Members, the closing brace and then `rest`. */
  function WriteMembers(members: seq<Member>, rest: string): string
    decreases members, 0
  {
    if members == [] then "}" + rest
    else if |members| == 1 then WriteMember(members[0], "}" + rest)
    else WriteMember(members[0], "," + WriteMembers(members[1..], rest))
  }

  /** `json.dumps(j)`; canonical objects already list their members by key. */
  function Dumps(j: Json): string {
    Write(j, "")
  }

  // ---- reading, as RFC 8259 says, of texts without white space, fractions and surrogate pairs ----

  function HexValue(c: char): (r: Option<nat>)
    ensures r.Some? ==> r.value < 16
  {
    if IsDigit(c) then Some(DigitValue(c))
    else if 'a' <= c <= 'f' then Some(c as int - 87)
    else if 'A' <= c <= 'F' then Some(c as int - 55)
    else None
  }

  /** The character that a backslash and `c` stand for. */
  function Unescaped(c: char): Option<char> {
    match c
    case '"' => Some('"')
    case '\\' => Some('\\')
    case '/' => Some('/')
    case 'b' => Some(8 as char)
    case 'f' => Some(12 as char)
    case 'n' => Some('\n')
    case 'r' => Some('\r')
    case 't' => Some('\t')
    case _ => None
  }

  /** The code that four hexadecimal digits stand for. */
  function ReadCode(s: string): (r: Option<nat>)
    requires |s| == 4
    ensures r.Some? ==> r.value < 0x10000
  {
    var a, b, c, d := HexValue(s[0]), HexValue(s[1]), HexValue(s[2]), HexValue(s[3]);
    if a.None? || b.None? || c.None? || d.None? then None
    else Some(16 * (16 * (16 * a.value + b.value) + c.value) + d.value)
  }

  /** The next character of a string and what follows; control characters must be escaped. */
  function ReadChar(s: string): (r: Option<(char, string)>)
    ensures r.Some? ==> |r.value.1| < |s|
  {
    if s == [] || s[0] == '"' || s[0] < ' ' then None
    else if s[0] != '\\' then Some((s[0], s[1..]))
    else if |s| >= 6 && s[1] == 'u' then
      var code := ReadCode(s[2..6]);
      if code.None? || 0xD800 <= code.value < 0xE000 then None else Some((code.value as char, s[6..]))
    else if |s| >= 2 && Unescaped(s[1]).Some? then Some((Unescaped(s[1]).value, s[2..]))
    else None
  }

  /** A string behind its opening quote, and what follows its closing quote. */
  function ReadString(s: string): (r: Option<(string, string)>)
    ensures r.Some? ==> |r.value.1| < |s|
    decreases |s|
  {
    if s != [] && s[0] == '"' then Some(([], s[1..]))
    else
      var c := ReadChar(s);
      if c.None? then None
      else
        var rest := ReadString(c.value.1);
        if rest.None? then None else Some(([c.value.0] + rest.value.0, rest.value.1))
  }

  /** How many digits the text begins with. */
  function DigitRun(s: string): (k: nat)
    ensures k <= |s| && AllDigits(s[..k]) && (k < |s| ==> !IsDigit(s[k]))
  {
    if s == [] || !IsDigit(s[0]) then 0 else
      var k := DigitRun(s[1..]);
      assert s[..k + 1] == [s[0]] + s[1..][..k];
      k + 1
  }

  /** Digits without a leading zero. */
  function ReadNat(s: string): (r: Option<(nat, string)>)
    ensures r.Some? ==> |r.value.1| < |s|
  {
    var k := DigitRun(s);
    if k == 0 || (k > 1 && s[0] == '0') then None else Some((Value(s[..k]), s[k..]))
  }

  function ReadInt(s: string): (r: Option<(Json, string)>)
    ensures r.Some? ==> |r.value.1| < |s|
  {
    var negative := s != [] && s[0] == '-';
    var n := ReadNat(if negative then s[1..] else s);
    if n.None? then None
    else
      var i: int := n.value.0;
      Some((JInt(if negative then -i else i), n.value.1))
  }

  function ReadWord(s: string, word: string, j: Json): (r: Option<(Json, string)>)
    requires word != []
    ensures r.Some? ==> |r.value.1| < |s|
  {
    if word <= s then Some((j, s[|word|..])) else None
  }

  /** The value that a text begins with, and the text behind it. */
  function Read(s: string): (r: Option<(Json, string)>)
    ensures r.Some? ==> |r.value.1| < |s|
    decreases |s|, 1
  {
    if s == [] then None
    else if s[0] == 'n' then ReadWord(s, "null", JNull)
    else if s[0] == 't' then ReadWord(s, "true", JBool(true))
    else if s[0] == 'f' then ReadWord(s, "false", JBool(false))
    else if s[0] == '"' then
      var r := ReadString(s[1..]);
      if r.None? then None else Some((JStr(r.value.0), r.value.1))
    else if s[0] == '[' then
      if |s| > 1 && s[1] == ']' then Some((JArr([]), s[2..])) else
        var r := ReadItems(s[1..]);
        if r.None? then None else Some((JArr(r.value.0), r.value.1))
    else if s[0] == '{' then
      if |s| > 1 && s[1] == '}' then Some((JObj([]), s[2..])) else
        var r := ReadMembers(s[1..]);
        if r.None? then None else Some((JObj(r.value.0), r.value.1))
    else ReadInt(s)
  }

  /** One or more items and the closing bracket. */
  function ReadItems(s: string): (r: Option<(seq<Json>, string)>)
    ensures r.Some? ==> |r.value.1| < |s|
    decreases |s|, 2
  {
    var first := Read(s);
    if first.None? || first.value.1 == [] then None
    else
      var (x, t) := first.value;
      if t[0] == ']' then Some(([x], t[1..]))
      else if t[0] != ',' then None
      else
        var rest := ReadItems(t[1..]);
        if rest.None? then None else Some(([x] + rest.value.0, rest.value.1))
  }

  function ReadMember(s: string): (r: Option<(Member, string)>)
    ensures r.Some? ==> |r.value.1| < |s|
    decreases |s|, 2
  {
    if s == [] || s[0] != '"' then None
    else
      var key := ReadString(s[1..]);
      if key.None? || key.value.1 == [] || key.value.1[0] != ':' then None
      else
        var value := Read(key.value.1[1..]);
        if value.None? then None else Some((Member(key.value.0, value.value.0), value.value.1))
  }

  /** One or more members and the closing brace. */
  function ReadMembers(s: string): (r: Option<(seq<Member>, string)>)
    ensures r.Some? ==> |r.value.1| < |s|
    decreases |s|, 3
  {
    var first := ReadMember(s);
    if first.None? || first.value.1 == [] then None
    else
      var (m, t) := first.value;
      if t[0] == '}' then Some(([m], t[1..]))
      else if t[0] != ',' then None
      else
        var rest := ReadMembers(t[1..]);
        if rest.None? then None else Some(([m] + rest.value.0, rest.value.1))
  }

  // ---- reading back ----

  /** What may follow a complete JSON text without extending it. */
  predicate Stops(r: string) {
    r == [] || r[0] in {',', ']', '}'}
  }

  lemma CharReadsBack(c: char, u: string, s: string)
    requires s == EscapeChar(c) + u
    ensures ReadChar(s) == Some((c, u))
  {
    var x := EscapeChar(c);
    assert s[0] == x[0] && s[|x|..] == u;
    if |x| == 2 {
      assert s[1] == x[1];
    } else if |x| == 6 {
      assert s[1] == x[1] && s[2..6] == x[2..6];
      assert x[2] == '0' && x[3] == '0' && x[4] == HexDigit(c as int / 16) && x[5] == HexDigit(c as int % 16);
    }
  }

  lemma {:induction false} StringReadsBack(a: string, r: string)
    ensures ReadString(WriteString(a, r)) == Some((a, r))
  {
    if a != [] {
      var s := WriteString(a, r);
      CharReadsBack(a[0], WriteString(a[1..], r), s);
      assert s[0] == EscapeChar(a[0])[0];
      StringReadsBack(a[1..], r);
      assert a == [a[0]] + a[1..];
    }
  }

  lemma {:induction false} DigitRunOf(t: string, r: string)
    requires AllDigits(t) && Stops(r)
    ensures DigitRun(t + r) == |t|
  {
    if t != [] {
      assert (t + r)[1..] == t[1..] + r;
      DigitRunOf(t[1..], r);
    }
  }

  lemma NatReadsBack(i: nat, r: string)
    requires Stops(r)
    ensures ReadNat(Text(i) + r) == Some((i, r))
  {
    var t := Text(i);
    DigitRunOf(t, r);
    ValueOfText(i);
    assert (t + r)[..|t|] == t && (t + r)[|t|..] == r && (t + r)[0] == t[0];
  }

  lemma IntReadsBack(i: int, r: string)
    requires Stops(r)
    ensures ReadInt(IntText(i) + r) == Some((JInt(i), r))
    ensures var c := (IntText(i) + r)[0]; c == '-' || IsDigit(c)
  {
    if i < 0 {
      NatReadsBack(-i, r);
      NegativeReadsBack(IntText(i) + r, Text(-i) + r, -i, r);
    } else {
      NatReadsBack(i, r);
      assert (Text(i) + r)[0] == Text(i)[0];
    }
  }

  lemma NegativeReadsBack(s: string, t: string, n: nat, r: string)
    requires s == "-" + t && ReadNat(t) == Some((n, r))
    ensures var i: int := n; ReadInt(s) == Some((JInt(-i), r)) && s[0] == '-'
  {
    assert s[1..] == t;
  }

  lemma WordReadsBack(word: string, r: string, j: Json)
    requires word != []
    ensures ReadWord(word + r, word, j) == Some((j, r)) && (word + r)[0] == word[0]
  {
    assert (word + r)[|word|..] == r;
  }

  /** No value begins with the end of a list or a mapping. */
  lemma FirstCharacter(j: Json, r: string)
    ensures Write(j, r) != [] && Write(j, r)[0] !in {',', ']', '}', ':'}
  {
    if j.JInt? {
      var d := IntText(j.i);
      assert d[0] == '-' || IsDigit(d[0]);
      assert (d + r)[0] == d[0];
    }
  }

  lemma ScalarReadsBack(j: Json, r: string)
    requires Stops(r) && !j.JArr? && !j.JObj?
    ensures Read(Write(j, r)) == Some((j, r))
  {
    match j {
      case JNull => WordReadsBack("null", r, j);
      case JBool(b) => WordReadsBack(if b then "true" else "false", r, j);
      case JInt(i) =>
        IntReadsBack(i, r);
        OnlyANumber(IntText(i) + r);
      case JStr(a) =>
        StringReadsBack(a, r);
        QuotedReadsBack("\"" + WriteString(a, r), WriteString(a, r), a, r);
    }
  }

  lemma OnlyANumber(s: string)
    requires s != [] && (s[0] == '-' || IsDigit(s[0]))
    ensures Read(s) == ReadInt(s)
  {
  }

  lemma QuotedReadsBack(s: string, t: string, a: string, r: string)
    requires s == "\"" + t && ReadString(t) == Some((a, r))
    ensures Read(s) == Some((JStr(a), r))
  {
    assert s[1..] == t;
  }

  lemma ListReadsBack(s: string, t: string, items: seq<Json>, r: string)
    requires s == "[" + t && t != []
    requires if items == [] then t == "]" + r else ReadItems(t) == Some((items, r)) && t[0] != ']'
    ensures Read(s) == Some((JArr(items), r))
  {
    BehindBracket("[", t, r);
    assert items == [] ==> t[1..] == r;
  }

  lemma MappingReadsBack(s: string, t: string, members: seq<Member>, r: string)
    requires s == "{" + t && t != []
    requires if members == [] then t == "}" + r else ReadMembers(t) == Some((members, r)) && t[0] != '}'
    ensures Read(s) == Some((JObj(members), r))
  {
    BehindBracket("{", t, r);
    assert members == [] ==> t[1..] == r;
  }

  /** Every text reads back as its tree, and what follows it is left. */
  lemma {:induction false} ReadsBack(j: Json, r: string)
    requires Stops(r)
    ensures Read(Write(j, r)) == Some((j, r))
    decreases j, 1
  {
    if j.JArr? {
      ItemsReadBack(j.items, r);
      ListReadsBack(Write(j, r), WriteItems(j.items, r), j.items, r);
    } else if j.JObj? {
      MembersReadBack(j.members, r);
      MappingReadsBack(Write(j, r), WriteMembers(j.members, r), j.members, r);
    } else {
      ScalarReadsBack(j, r);
    }
  }

  lemma BehindBracket(bracket: string, t: string, r: string)
    requires |bracket| == 1 && t != []
    ensures var s := bracket + t;
            s[0] == bracket[0] && |s| > 1 && s[1] == t[0] && s[1..] == t && s[2..] == t[1..]
  {
  }

  lemma ItemThenRest(s: string, x: Json, after: string, rest: seq<Json>, u: string, r: string)
    requires Read(s) == Some((x, after)) && after == (if rest == [] then "]" + r else "," + u)
    requires rest != [] ==> ReadItems(u) == Some((rest, r))
    ensures ReadItems(s) == Some(([x] + rest, r))
  {
    assert after[1..] == if rest == [] then r else u;
    assert rest == [] ==> [x] + rest == [x];
  }

  lemma MemberThenRest(s: string, m: Member, after: string, rest: seq<Member>, u: string, r: string)
    requires ReadMember(s) == Some((m, after)) && after == (if rest == [] then "}" + r else "," + u)
    requires rest != [] ==> ReadMembers(u) == Some((rest, r))
    ensures ReadMembers(s) == Some(([m] + rest, r))
  {
    assert after[1..] == if rest == [] then r else u;
    assert rest == [] ==> [m] + rest == [m];
  }

  lemma {:induction false} ItemsReadBack(items: seq<Json>, r: string)
    ensures var s := WriteItems(items, r);
            s != [] && if items == [] then s == "]" + r else ReadItems(s) == Some((items, r)) && s[0] != ']'
    decreases items, 0
  {
    if items != [] {
      var after := if |items| == 1 then "]" + r else "," + WriteItems(items[1..], r);
      ReadsBack(items[0], after);
      FirstCharacter(items[0], after);
      ItemsReadBack(items[1..], r);
      assert items == [items[0]] + items[1..];
      ItemThenRest(WriteItems(items, r), items[0], after, items[1..], WriteItems(items[1..], r), r);
    }
  }

  lemma {:induction false} MemberReadsBack(m: Member, r: string)
    requires Stops(r)
    ensures ReadMember(WriteMember(m, r)) == Some((m, r))
    decreases m, 1
  {
    var s, t := WriteMember(m, r), ":" + Write(m.value, r);
    assert s[1..] == WriteString(m.key, t) && t[1..] == Write(m.value, r);
    StringReadsBack(m.key, t);
    ReadsBack(m.value, r);
  }

  lemma {:induction false} MembersReadBack(members: seq<Member>, r: string)
    ensures var s := WriteMembers(members, r);
            s != [] && if members == [] then s == "}" + r else ReadMembers(s) == Some((members, r)) && s[0] != '}'
    decreases members, 0
  {
    if members != [] {
      var after := if |members| == 1 then "}" + r else "," + WriteMembers(members[1..], r);
      MemberReadsBack(members[0], after);
      MembersReadBack(members[1..], r);
      assert members == [members[0]] + members[1..];
      MemberThenRest(WriteMembers(members, r), members[0], after, members[1..], WriteMembers(members[1..], r), r);
    }
  }

  /** The text of a tree is JSON and reads back as that tree. */
  lemma {:induction false} DumpsReadsBack(j: Json)
    ensures Read(Dumps(j)) == Some((j, ""))
  {
    ReadsBack(j, "");
  }

  /** A JSON text determines its value and where it ends. */
  lemma {:induction false} Unique(a: Json, r: string, b: Json, s: string)
    requires Stops(r) && Stops(s) && Write(a, r) == Write(b, s)
    ensures a == b && r == s
  {
    ReadsBack(a, r);
    ReadsBack(b, s);
  }

  /** Equal texts come from equal trees. */
  lemma DumpsInjective(a: Json, b: Json)
    requires Dumps(a) == Dumps(b)
    ensures a == b
  {
    Unique(a, "", b, "");
  }
}
