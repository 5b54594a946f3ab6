/**
 The exact text the request fingerprint uses for decimals: plain positional notation
 without an exponent, without trailing fractional zeros and without a negative zero.
 The theorems say that this text is a complete invariant of the denoted number.
 */
module DecimalText {
  import opened Digits

  /** Python's decimal triple, of any length; infinities and NaNs are `NotFinite`. */
  datatype Decimal = Finite(negative: bool, coefficient: nat, exponent: int) | NotFinite

  /** `c` moved by `e` decimal places, to the left when `e` is positive. */
  function Scaled(c: nat, e: int): (r: real)
    ensures c > 0 ==> r > 0.0
    ensures c == 0 ==> r == 0.0
    decreases if e < 0 then -e else e
  {
    if e == 0 then c as real else if e > 0 then 10.0 * Scaled(c, e - 1) else Scaled(c, e + 1) / 10.0
  }

  /** The number a finite decimal denotes. */
  function Numeric(d: Decimal): real
    requires d.Finite?
  {
    if d.negative then -Scaled(d.coefficient, d.exponent) else Scaled(d.coefficient, d.exponent)
  }

  function RStrip(s: string, c: char): (t: string)
    ensures |t| <= |s| && t == s[..|t|]
    ensures t == [] || t[|t| - 1] != c
  {
    if s != [] && s[|s| - 1] == c then RStrip(s[..|s| - 1], c) else s
  }

  function PadLeft(s: string, width: nat): string {
    if |s| >= width then s else Zeros(width - |s|) + s
  }

  /** `format(value, "f")` for a non-negative decimal. */
  function Positional(coefficient: nat, exponent: int): string {
    if exponent >= 0 then
      Text(coefficient) + Zeros(exponent)
    else
      Pointed(PadLeft(Text(coefficient), 1 - exponent), -exponent)
  }

  /** Digits with a point before the last `places`. */
  function Pointed(digits: string, places: int): string
    requires 0 <= places <= |digits|
  {
    digits[..|digits| - places] + "." + digits[|digits| - places..]
  }

  function StripFraction(s: string): string {
    if '.' in s then RStrip(RStrip(s, '0'), '.') else s
  }

  function CanonicalText(d: Decimal): string
    requires d.Finite?
  {
    if d.coefficient == 0 then "0"
    else StripFraction((if d.negative then "-" else "") + Positional(d.coefficient, d.exponent))
  }

  function DotIndex(s: string): (i: nat)
    ensures i <= |s| && (i < |s| ==> s[i] == '.')
    ensures forall j :: 0 <= j < i ==> s[j] != '.'
  {
    if s == [] || s[0] == '.' then 0 else 1 + DotIndex(s[1..])
  }

  /** Reads `digits` or `digits.digits`. */
  function ReadUnsigned(s: string): Decimal {
    var dot := DotIndex(s);
    if dot == |s| then
      if AllDigits(s) then Finite(false, Value(s), 0) else NotFinite
    else
      var digits := s[..dot] + s[dot + 1..];
      if AllDigits(digits) then Finite(false, Value(digits), -(|s| - dot - 1)) else NotFinite
  }

  function ReadNumber(s: string): Decimal {
    if s != [] && s[0] == '-' then
      var d := ReadUnsigned(s[1..]);
      if d.Finite? then d.(negative := true) else d
    else
      ReadUnsigned(s)
  }

  // ---- powers of ten ----

  lemma ScaledNext(c: nat, e: int)
    ensures Scaled(c, e + 1) == 10.0 * Scaled(c, e)
  {
  }

  lemma {:induction false} ScaledTen(c: nat, e: int)
    ensures Scaled(10 * c, e) == Scaled(c, e + 1)
    decreases if e < 0 then -e else e
  {
    ScaledNext(c, e);
    if e > 0 {
      ScaledTen(c, e - 1);
    } else if e < 0 {
      ScaledTen(c, e + 1);
      ScaledNext(c, e + 1);
    }
  }

  lemma {:induction false} ScaledShift(c: nat, n: nat, e: int)
    ensures Scaled(Shift(c, n), e) == Scaled(c, e + n)
  {
    if n > 0 {
      ScaledShift(c, n - 1, e + 1);
      ScaledTen(Shift(c, n - 1), e);
    }
  }

  lemma {:induction false} ScaledInjective(x: nat, y: nat, e: int)
    requires Scaled(x, e) == Scaled(y, e)
    ensures x == y
    decreases if e < 0 then -e else e
  {
    if e > 0 {
      ScaledInjective(x, y, e - 1);
    } else if e < 0 {
      ScaledInjective(x, y, e + 1);
    }
  }

  // ---- the shape of the text ----

  lemma DotOf(whole: string, fraction: string)
    requires AllDigits(whole)
    ensures DotIndex(whole + "." + fraction) == |whole|
  {
    var s := whole + "." + fraction;
    assert s[|whole|] == '.';
    assert forall i :: 0 <= i < |whole| ==> s[i] == whole[i];
  }

  lemma NoDot(s: string)
    requires AllDigits(s)
    ensures '.' !in s && DotIndex(s) == |s|
  {
  }

  lemma RStripKeeps(s: string, x: char, c: char)
    requires x != c
    ensures RStrip(s + [x], c) == s + [x]
  {
  }

  lemma RStripDrops(s: string, c: char)
    ensures RStrip(s + [c], c) == RStrip(s, c)
  {
    assert (s + [c])[..|s + [c]| - 1] == s;
  }

  /** Stripping a positional text touches the fraction only, and drops the point with it. */
  lemma {:induction false} StripShape(whole: string, fraction: string)
    requires whole != [] && IsDigit(whole[|whole| - 1]) && AllDigits(fraction)
    ensures StripFraction(whole + "." + fraction) ==
            if RStrip(fraction, '0') == [] then whole else whole + "." + RStrip(fraction, '0')
  {
    var s := whole + "." + fraction;
    assert s[|whole|] == '.';
    if fraction == [] {
      assert s == whole + ['.'];
      RStripKeeps(whole, '.', '0');
      RStripDrops(whole, '.');
    } else {
      var init, last := fraction[..|fraction| - 1], fraction[|fraction| - 1];
      assert fraction == init + [last];
      assert s == (whole + "." + init) + [last];
      if last == '0' {
        StripShape(whole, init);
        RStripDrops(whole + "." + init, '0');
        RStripDrops(init, '0');
        assert (whole + "." + init)[|whole|] == '.';
      } else {
        RStripKeeps(whole + "." + init, last, '0');
        RStripKeeps(whole + "." + init, last, '.');
        RStripKeeps(init, last, '0');
      }
    }
  }

  /** A positional text with places, cut at its point. */
  lemma PositionalParts(c: nat, places: int) returns (whole: string, fraction: string)
    requires places > 0
    ensures Positional(c, -places) == whole + "." + fraction
    ensures whole != [] && AllDigits(whole) && AllDigits(fraction) && |fraction| == places
    ensures whole + fraction == PadLeft(Text(c), places + 1)
    ensures AllDigits(whole + fraction) && Value(whole + fraction) == c
  {
    var digits := PadLeft(Text(c), places + 1);
    whole, fraction := digits[..|digits| - places], digits[|digits| - places..];
    assert whole + fraction == digits;
    ValueOfText(c);
    PadLeftKeepsValue(Text(c), places + 1);
  }

  lemma PadLeftKeepsValue(t: string, width: nat)
    requires AllDigits(t)
    ensures |PadLeft(t, width)| >= width && AllDigits(PadLeft(t, width)) && Value(PadLeft(t, width)) == Value(t)
  {
    if |t| < width {
      LeadingZeros(width - |t|, t);
    }
  }

  // ---- reading back ----

  lemma ReadParts(whole: string, fraction: string)
    requires AllDigits(whole) && AllDigits(fraction)
    ensures AllDigits(whole + fraction)
    ensures ReadUnsigned(whole + "." + fraction) == Finite(false, Value(whole + fraction), -|fraction|)
  {
    DotOf(whole, fraction);
    var s := whole + "." + fraction;
    assert s[..|whole|] == whole && s[|whole| + 1..] == fraction;
  }

  /** Dropping trailing fractional zeros keeps the number. */
  lemma {:induction false} StrippedValue(whole: string, fraction: string)
    requires AllDigits(whole) && AllDigits(fraction)
    ensures AllDigits(whole + fraction) && AllDigits(whole + RStrip(fraction, '0'))
    ensures Scaled(Value(whole + fraction), -|fraction|) ==
            Scaled(Value(whole + RStrip(fraction, '0')), -|RStrip(fraction, '0')|)
  {
    if fraction != [] && fraction[|fraction| - 1] == '0' {
      var init := fraction[..|fraction| - 1];
      StrippedValue(whole, init);
      assert (whole + fraction)[..|whole + fraction| - 1] == whole + init;
      assert Value(whole + fraction) == 10 * Value(whole + init);
      ScaledTen(Value(whole + init), -|fraction|);
    }
  }

  lemma ReadPositional(c: nat, e: int)
    requires c > 0
    ensures var t := StripFraction(Positional(c, e));
            t != [] && IsDigit(t[0]) &&
            var d := ReadUnsigned(t); d.Finite? && !d.negative && Numeric(d) == Scaled(c, e)
  {
    if e >= 0 {
      ReadWhole(c, e);
    } else {
      ReadFraction(c, e);
    }
  }

  lemma ReadWhole(c: nat, e: nat)
    requires c > 0
    ensures var t := StripFraction(Positional(c, e));
            t != [] && IsDigit(t[0]) && ReadUnsigned(t) == Finite(false, Shift(c, e), 0)
    ensures Scaled(Shift(c, e), 0) == Scaled(c, e)
  {
    ValueOfText(c);
    TrailingZeros(Text(c), e);
    NoDot(Text(c) + Zeros(e));
    ScaledShift(c, e, 0);
  }

  lemma ReadStripped(whole: string, fraction: string, t: string)
    requires whole != [] && AllDigits(whole) && AllDigits(fraction) && t == StripFraction(whole + "." + fraction)
    ensures AllDigits(whole + fraction)
    ensures t != [] && IsDigit(t[0]) &&
            var d := ReadUnsigned(t); d.Finite? && !d.negative && Numeric(d) == Scaled(Value(whole + fraction), -|fraction|)
  {
    StripShape(whole, fraction);
    var kept := RStrip(fraction, '0');
    StrippedValue(whole, fraction);
    if kept == [] {
      assert whole + kept == whole;
      NoDot(whole);
    } else {
      ReadParts(whole, kept);
      assert (whole + "." + kept)[0] == whole[0];
    }
  }

  lemma ReadFraction(c: nat, e: int)
    requires c > 0 && e < 0
    ensures var t := StripFraction(Positional(c, e));
            t != [] && IsDigit(t[0]) &&
            var d := ReadUnsigned(t); d.Finite? && !d.negative && Numeric(d) == Scaled(c, e)
  {
    var whole, fraction := PositionalParts(c, -e);
    ReadStripped(whole, fraction, StripFraction(whole + "." + fraction));
  }

  lemma SignedStrip(body: string)
    requires StripFraction(body) != [] && RStrip(body, '0') != []
    ensures StripFraction("-" + body) == "-" + StripFraction(body)
  {
    RStripPrefix(body, '0');
    if '.' in body {
      RStripPrefix(RStrip(body, '0'), '.');
    }
  }

  lemma {:induction false} RStripPrefix(s: string, c: char)
    requires RStrip(s, c) != []
    ensures RStrip("-" + s, c) == "-" + RStrip(s, c)
  {
    if s[|s| - 1] == c {
      RStripPrefix(s[..|s| - 1], c);
      assert ("-" + s)[..|"-" + s| - 1] == "-" + s[..|s| - 1];
    }
  }

  lemma PositionalNotBlank(c: nat, e: int)
    requires c > 0
    ensures RStrip(Positional(c, e), '0') != []
  {
    if e >= 0 {
      FirstStays(Positional(c, e));
    } else {
      var whole, fraction := PositionalParts(c, -e);
      PointStays(whole, fraction);
    }
  }

  lemma {:induction false} FirstStays(s: string)
    requires s != [] && s[0] != '0'
    ensures RStrip(s, '0') != []
  {
    if s[|s| - 1] == '0' {
      FirstStays(s[..|s| - 1]);
    }
  }

  lemma {:induction false} PointStays(whole: string, fraction: string)
    ensures RStrip(whole + "." + fraction, '0') != []
  {
    if fraction == [] {
      assert whole + "." + fraction == whole + ['.'];
      RStripKeeps(whole, '.', '0');
    } else {
      var init, last := fraction[..|fraction| - 1], fraction[|fraction| - 1];
      assert whole + "." + fraction == (whole + "." + init) + [last];
      PointStays(whole, init);
      if last == '0' {
        RStripDrops(whole + "." + init, '0');
      } else {
        RStripKeeps(whole + "." + init, last, '0');
      }
    }
  }

  lemma SignSplits(d: Decimal)
    requires d.Finite? && d.coefficient > 0
    ensures var body := StripFraction(Positional(d.coefficient, d.exponent));
            body != [] && IsDigit(body[0]) &&
            CanonicalText(d) == (if d.negative then "-" + body else body)
  {
    ReadPositional(d.coefficient, d.exponent);
    var p := Positional(d.coefficient, d.exponent);
    PositionalNotBlank(d.coefficient, d.exponent);
    if d.negative {
      SignedStrip(p);
    } else {
      assert "" + p == p;
    }
  }

  /** Reading the canonical text back gives the original number, for every digit count and exponent. */
  lemma TextReadsBack(d: Decimal)
    requires d.Finite?
    ensures ReadNumber(CanonicalText(d)).Finite?
    ensures Numeric(ReadNumber(CanonicalText(d))) == Numeric(d)
  {
    if d.coefficient == 0 {
      ValueOfText(0);
      assert Text(0) == "0";
      NoDot("0");
    } else {
      SignSplits(d);
      ReadPositional(d.coefficient, d.exponent);
      var body := StripFraction(Positional(d.coefficient, d.exponent));
      assert ("-" + body)[1..] == body;
    }
  }

  // ---- completeness ----

  lemma StepDownWhole(t: string, e: nat)
    ensures t + "0" + Zeros(e) == t + Zeros(e + 1)
  {
  }

  lemma StepDownToPoint(t: string)
    requires t != [] && AllDigits(t)
    ensures StripFraction(t + "." + "0") == StripFraction(t + Zeros(0))
  {
    StripShape(t, "0");
    assert RStrip("0", '0') == RStrip("0"[..0], '0') == [];
    NoDot(t);
    assert t + Zeros(0) == t;
  }

  lemma StepDownFraction(digits: string, more: string, places: nat)
    requires places <= |digits| && more == digits + "0"
    ensures StripFraction(Pointed(more, places + 1)) == StripFraction(Pointed(digits, places))
  {
    var p := Pointed(digits, places);
    assert Pointed(more, places + 1) == p + ['0'];
    RStripDrops(p, '0');
    assert p[|digits| - places] == '.';
    assert (p + ['0'])[|digits| - places] == '.';
  }

  lemma PadLeftTimesTen(t: string, width: nat)
    ensures PadLeft(t + "0", width + 1) == PadLeft(t, width) + "0"
  {
  }

  lemma StepDownPlaces(ten: nat, c: nat, t: string, places: int)
    requires places > 1 && Text(ten) == t + "0" && Text(c) == t
    ensures StripFraction(Positional(ten, -places)) == StripFraction(Positional(c, 1 - places))
  {
    PadLeftTimesTen(t, places);
    PadLeftLength(t, places);
    StepDownFraction(PadLeft(t, places), PadLeft(t + "0", places + 1), places - 1);
  }

  lemma PadLeftLength(t: string, width: nat)
    ensures |PadLeft(t, width)| >= width
  {
  }

  lemma StepDownToWhole(ten: nat, c: nat, t: string)
    requires t != [] && AllDigits(t) && Text(ten) == t + "0" && Text(c) == t
    ensures StripFraction(Positional(ten, -1)) == StripFraction(Positional(c, 0))
  {
    assert Pointed(t + "0", 1) == t + "." + "0";
    StepDownToPoint(t);
  }

  /** Moving a power of ten from the exponent into the coefficient keeps the text. */
  lemma StepDown(c: nat, ten: nat, e: int)
    requires c > 0 && ten == 10 * c
    ensures StripFraction(Positional(ten, e)) == StripFraction(Positional(c, e + 1))
  {
    TextTimesTen(c);
    if e >= 0 {
      StepDownWhole(Text(c), e);
    } else if e == -1 {
      StepDownToWhole(ten, c, Text(c));
    } else {
      StepDownPlaces(ten, c, Text(c), -e);
    }
  }

  /** The same text results however much of the exponent is written out in the coefficient. */
  lemma {:induction false} Rescale(c: nat, n: nat, e: int, top: int, text: (nat, int) -> string)
    requires c > 0 && top == e + n
    requires forall m, k, ten, up :: m > 0 && ten == 10 * m && up == k + 1 ==> text(ten, k) == text(m, up)
    ensures text(Shift(c, n), e) == text(c, top)
  {
    if n > 0 {
      Rescale(c, n - 1, e + 1, top, text);
      assert text(10 * Shift(c, n - 1), e) == text(Shift(c, n - 1), e + 1);
    }
  }

  lemma RescaledText(c: nat, n: nat, e: int, top: int)
    requires c > 0 && top == e + n
    ensures StripFraction(Positional(Shift(c, n), e)) == StripFraction(Positional(c, top))
  {
    var text := (m: nat, k: int) => StripFraction(Positional(m, k));
    forall m: nat, k, ten: nat, up | m > 0 && ten == 10 * m && up == k + 1 ensures text(ten, k) == text(m, up) {
      StepDown(m, ten, k);
    }
    Rescale(c, n, e, top, text);
  }

  lemma SameMagnitude(a: Decimal, b: Decimal)
    requires a.Finite? && b.Finite? && a.coefficient > 0 && b.coefficient > 0
    requires a.exponent <= b.exponent
    requires Scaled(a.coefficient, a.exponent) == Scaled(b.coefficient, b.exponent)
    ensures StripFraction(Positional(a.coefficient, a.exponent)) ==
            StripFraction(Positional(b.coefficient, b.exponent))
  {
    var n := b.exponent - a.exponent;
    ScaledShift(b.coefficient, n, a.exponent);
    ScaledInjective(a.coefficient, Shift(b.coefficient, n), a.exponent);
    RescaledText(b.coefficient, n, a.exponent, b.exponent);
  }

  lemma EqualNumbersEqualTexts(a: Decimal, b: Decimal)
    requires a.Finite? && b.Finite? && Numeric(a) == Numeric(b)
    ensures CanonicalText(a) == CanonicalText(b)
  {
    if a.coefficient > 0 && b.coefficient > 0 {
      SignSplits(a);
      SignSplits(b);
      if a.exponent <= b.exponent { SameMagnitude(a, b); } else { SameMagnitude(b, a); }
    }
  }

  /** Two finite decimals share their canonical text exactly when they are the same number. */
  lemma CanonicalTextIsExact(a: Decimal, b: Decimal)
    requires a.Finite? && b.Finite?
    ensures CanonicalText(a) == CanonicalText(b) <==> Numeric(a) == Numeric(b)
  {
    TextReadsBack(a);
    TextReadsBack(b);
    if Numeric(a) == Numeric(b) {
      EqualNumbersEqualTexts(a, b);
    }
  }
}
