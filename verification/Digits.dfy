/** Decimal digit text of natural numbers, as Python's `str(int)` and `int(str)` produce and read it. */
module Digits {

  predicate IsDigit(c: char) {
    '0' <= c <= '9'
  }

  predicate AllDigits(s: string) {
    forall i :: 0 <= i < |s| ==> IsDigit(s[i])
  }

  function DigitChar(d: nat): (c: char)
    requires d < 10
    ensures IsDigit(c) && DigitValue(c) == d
  {
    (d + 48) as char
  }

  function DigitValue(c: char): (d: nat)
    requires IsDigit(c)
    ensures d < 10
  {
    c as int - 48
  }

  /** The shortest decimal text of `n`. */
  function Text(n: nat): (s: string)
    ensures |s| > 0 && AllDigits(s)
    ensures s[0] == '0' <==> n == 0
  {
    if n < 10 then [DigitChar(n)] else Text(n / 10) + [DigitChar(n % 10)]
  }

  /** The number a digit text denotes; leading zeros are allowed. */
  function Value(s: string): nat
    requires AllDigits(s)
  {
    if s == [] then 0 else 10 * Value(s[..|s| - 1]) + DigitValue(s[|s| - 1])
  }

  function Pow10(k: nat): (p: nat)
    ensures p >= 1
  {
    if k == 0 then 1 else 10 * Pow10(k - 1)
  }

  function Zeros(k: nat): (s: string)
    ensures |s| == k && AllDigits(s)
    ensures forall i :: 0 <= i < k ==> s[i] == '0'
  {
    seq(k, _ => '0')
  }

  /** Reading a printed number gives the number back. */
  lemma {:induction false} ValueOfText(n: nat)
    ensures Value(Text(n)) == n
  {
    if n < 10 {
      assert Text(n)[..0] == [];
    } else {
      ValueOfText(n / 10);
      assert Text(n)[..|Text(n)| - 1] == Text(n / 10);
    }
  }

  /** Printing a number read from digits without a leading zero gives the digits back. */
  lemma {:induction false} TextOfValue(s: string)
    requires |s| > 0 && AllDigits(s)
    requires |s| == 1 || s[0] != '0'
    ensures Text(Value(s)) == s
    ensures s[0] != '0' ==> Value(s) > 0
  {
    var init, last := s[..|s| - 1], s[|s| - 1];
    if |s| == 1 {
      assert init == [];
      assert s == [last];
    } else {
      TextOfValue(init);
      assert s == init + [last];
      assert Value(s) / 10 == Value(init) && Value(s) % 10 == DigitValue(last);
    }
  }

  /** `c` times the `n`-th power of ten. */
  function Shift(c: nat, n: nat): (r: nat)
    ensures c > 0 ==> r > 0
  {
    if n == 0 then c else 10 * Shift(c, n - 1)
  }

  lemma {:induction false} TrailingZeros(s: string, k: nat)
    requires AllDigits(s)
    ensures AllDigits(s + Zeros(k)) && Value(s + Zeros(k)) == Shift(Value(s), k)
  {
    if k == 0 {
      assert s + Zeros(0) == s;
    } else {
      TrailingZeros(s, k - 1);
      assert (s + Zeros(k))[..|s| + k - 1] == s + Zeros(k - 1);
    }
  }

  lemma {:induction false} LeadingZeros(k: nat, s: string)
    requires AllDigits(s)
    ensures AllDigits(Zeros(k) + s) && Value(Zeros(k) + s) == Value(s)
  {
    if s != [] {
      var init := s[..|s| - 1];
      LeadingZeros(k, init);
      assert (Zeros(k) + s)[..k + |s| - 1] == Zeros(k) + init;
    } else if k > 0 {
      LeadingZeros(k - 1, s);
      assert (Zeros(k) + s)[..k - 1] == Zeros(k - 1) + s;
    } else {
      assert Zeros(0) + s == [];
    }
  }

  /** Multiplying by ten appends a zero. */
  lemma TextTimesTen(n: nat)
    requires n > 0
    ensures Text(10 * n) == Text(n) + "0"
  {
    assert 10 * n / 10 == n && 10 * n % 10 == 0;
    assert DigitChar(0) == '0';
  }

  /** A number has at most `k` digits exactly when it is below the k-th power of ten. */
  lemma {:induction false} TextLength(n: nat, k: nat)
    requires k >= 1
    ensures |Text(n)| <= k <==> n < Pow10(k)
  {
    if k == 1 {
      assert Pow10(1) == 10 * Pow10(0);
    } else if n >= 10 {
      TextLength(n / 10, k - 1);
    } else {
      assert Pow10(k) == 10 * Pow10(k - 1);
    }
  }
}
