/** Decimal text of integers: what Rust's `format!("{n}")` prints for an
  * `i64`, and what `str::parse::<i64>` makes of a run of ASCII digits. */
module Decimal {

  datatype Option<+T> = None | Some(value: T)

  const I64_MIN: int := -0x8000_0000_0000_0000
  const I64_MAX: int := 0x7FFF_FFFF_FFFF_FFFF
  const I32_MIN: int := -0x8000_0000
  const I32_MAX: int := 0x7FFF_FFFF

  predicate InInt64(x: int) { I64_MIN <= x <= I64_MAX }

  /** Rust's `i64` and `i32`, as ranges of the unbounded integers. */
  type Int64 = x: int | InInt64(x)
  type Int32 = x: int | I32_MIN <= x <= I32_MAX

  /** Only ASCII '0'..'9' count as digits (the source's `'0'..='9'`). */
  predicate IsDigit(c: char) { '0' <= c <= '9' }

  predicate AllDigits(s: string) { forall i :: 0 <= i < |s| ==> IsDigit(s[i]) }

  function Abs(x: int): nat { if x < 0 then -x else x }

  function Pow10(k: nat): (p: nat)
    ensures 1 <= p
  {
    if k == 0 then 1 else 10 * Pow10(k - 1)
  }

  lemma {:induction false} Pow10Monotone(j: nat, k: nat)
    requires j <= k
    ensures Pow10(j) <= Pow10(k)
    decreases k - j
  {
    if j < k {
      Pow10Monotone(j, k - 1);
    }
  }

  function DigitValue(c: char): (d: nat)
    requires IsDigit(c)
    ensures d < 10
  {
    c as int - '0' as int
  }

  function DigitChar(d: nat): (c: char)
    requires d < 10
    ensures IsDigit(c) && DigitValue(c) == d
  {
    ('0' as int + d) as char
  }

  /** The value of a string of digits, most significant digit first; leading
    * zeros add nothing. */
  function DigitsValue(s: string): (v: nat)
    requires AllDigits(s)
    ensures v < Pow10(|s|)
  {
    if s == [] then 0 else 10 * DigitsValue(s[..|s| - 1]) + DigitValue(s[|s| - 1])
  }

  /** The decimal text of a natural number, as `format!` prints it. */
  function NatToDecimal(n: nat): (s: string)
    ensures 1 <= |s| && AllDigits(s)
    ensures s[0] == '0' ==> n == 0 && |s| == 1
    ensures DigitsValue(s) == n
    ensures n < Pow10(|s|)
    ensures 1 < |s| ==> Pow10(|s| - 1) <= n
  {
    if n < 10 then [DigitChar(n)] else NatToDecimal(n / 10) + [DigitChar(n % 10)]
  }

  /** The decimal text of an integer: a leading '-' for a negative value,
    * then the digits of its magnitude. The '-' is part of the text, so it
    * counts toward the text's length. */
  function ToDecimal(n: int): (s: string)
    ensures 1 <= |s|
    ensures n < 0 <==> s[0] == '-'
    ensures var digits := if n < 0 then s[1..] else s;
      && 1 <= |digits| && AllDigits(digits) && DigitsValue(digits) == Abs(n)
      && (digits[0] == '0' ==> n == 0 && |digits| == 1)
      && digits == NatToDecimal(Abs(n))
  {
    if n < 0 then "-" + NatToDecimal(-n) else NatToDecimal(n)
  }

  /** A natural number between 10^(k-1) and 10^k is printed with k digits. */
  lemma DecimalLength(n: nat, k: nat)
    requires 1 <= k && Pow10(k - 1) <= n < Pow10(k)
    ensures |NatToDecimal(n)| == k
  {
    var m := |NatToDecimal(n)|;
    if m < k {
      Pow10Monotone(m, k - 1);
    } else if m > k {
      Pow10Monotone(k, m - 1);
    }
  }

  /** The value of a concatenation: the first part shifted by the length of
    * the second. */
  lemma {:induction false} DigitsAppend(a: string, b: string)
    requires AllDigits(a) && AllDigits(b)
    ensures AllDigits(a + b) && DigitsValue(a + b) == DigitsValue(a) * Pow10(|b|) + DigitsValue(b)
    decreases |b|
  {
    if b == [] {
      assert a + b == a;
    } else {
      var t := a + b;
      var front, last := b[..|b| - 1], b[|b| - 1];
      assert t[..|t| - 1] == a + front;
      assert t[|t| - 1] == last;
      DigitsAppend(a, front);
      var x: int, p: int, y: int, d: int := DigitsValue(a), Pow10(|front|), DigitsValue(front), DigitValue(last);
      assert DigitsValue(t) == 10 * DigitsValue(a + front) + d;
      assert DigitsValue(b) == 10 * y + d;
      assert Pow10(|b|) == 10 * p;
      ShiftDigit(x, p, y, d);
    }
  }

  lemma ShiftDigit(x: int, p: int, y: int, d: int)
    ensures 10 * (x * p + y) + d == x * (10 * p) + (10 * y + d)
  {
  }

  /** The value of three digits. */
  lemma DigitsValue3(s: string)
    requires |s| == 3 && AllDigits(s)
    ensures DigitsValue(s) == 100 * DigitValue(s[0]) + 10 * DigitValue(s[1]) + DigitValue(s[2])
  {
    var two, one := s[..2], s[..1];
    assert two[..1] == one && two[1] == s[1];
    assert one[..0] == [] && one[0] == s[0];
    assert DigitsValue(one) == DigitValue(s[0]);
    assert DigitsValue(two) == 10 * DigitValue(s[0]) + DigitValue(s[1]);
  }

  /** `str::parse::<i64>` on a string of digits: the empty string and values
    * above `i64::MAX` are errors. */
  function ParseInt64(s: string): (r: Option<Int64>)
    requires AllDigits(s)
  {
    if s == [] then None
    else
      var v := DigitsValue(s);
      if v <= I64_MAX then Some(v) else None
  }

  /** Parsing the printed text of a non-negative `i64` gives it back, and the
    * text of anything larger does not parse. */
  lemma ParseOfDecimal(n: nat)
    ensures ParseInt64(NatToDecimal(n)) == if n <= I64_MAX then Some(n) else None
  {
  }

  lemma {:induction false} ZerosValue(z: string)
    requires forall i :: 0 <= i < |z| ==> z[i] == '0'
    ensures AllDigits(z) && DigitsValue(z) == 0
  {
    if z != [] {
      ZerosValue(z[..|z| - 1]);
    }
  }

  lemma {:induction false} LeadingZerosValue(z: string, s: string)
    requires forall i :: 0 <= i < |z| ==> z[i] == '0'
    requires AllDigits(s)
    ensures AllDigits(z + s) && DigitsValue(z + s) == DigitsValue(s)
  {
    if s == [] {
      assert z + s == z;
      ZerosValue(z);
    } else {
      var t := z + s;
      assert t[..|t| - 1] == z + s[..|s| - 1];
      LeadingZerosValue(z, s[..|s| - 1]);
    }
  }

  /** Leading zeros do not change what a digit run parses to. */
  lemma ParseIgnoresLeadingZeros(z: string, s: string)
    requires forall i :: 0 <= i < |z| ==> z[i] == '0'
    requires AllDigits(s) && s != []
    ensures AllDigits(z + s) && ParseInt64(z + s) == ParseInt64(s)
  {
    LeadingZerosValue(z, s);
  }
}
