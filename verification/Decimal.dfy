/** ASCII decimal numerals: `str(n)`, `lstrip("0")`, and comparing numerals without converting them. */
module Decimal {
  import opened Ordering

  predicate IsDigit(c: char) { '0' <= c <= '9' }

  predicate AllDigits(s: string) { forall i :: 0 <= i < |s| ==> IsDigit(s[i]) }

  function Digit(c: char): (d: nat)
    requires IsDigit(c)
    ensures d < 10
  {
    c as int - '0' as int
  }

  function DigitChar(d: nat): (c: char)
    requires d < 10
    ensures IsDigit(c) && Digit(c) == d
  {
    ('0' as int + d) as char
  }

  /** The number a digit string denotes, leading zeros included. */
  function Value(s: string): nat
    requires AllDigits(s)
  {
    if s == "" then 0 else Value(s[..|s| - 1]) * 10 + Digit(s[|s| - 1])
  }

  /** `str(n)` for a natural number. */
  function Text(n: nat): (s: string)
    ensures AllDigits(s) && |s| > 0
    ensures Value(s) == n
    ensures n > 0 ==> s[0] != '0'
  {
    if n < 10 then
      assert Value([DigitChar(n)]) == n by { assert [DigitChar(n)][..0] == ""; }
      [DigitChar(n)]
    else
      var head := Text(n / 10);
      var s := head + [DigitChar(n % 10)];
      assert s[..|s| - 1] == head;
      s
  }

  /** `s.lstrip("0")`. */
  function StripZeros(s: string): (r: string)
    ensures AllDigits(s) ==> AllDigits(r)
    ensures r == "" || r[0] != '0'
  {
    if s != "" && s[0] == '0' then StripZeros(s[1..]) else s
  }

  function Pow10(n: nat): (p: nat)
    ensures p > 0
  {
    if n == 0 then 1 else 10 * Pow10(n - 1)
  }

  lemma ShiftDigit(d: nat, power: nat, v: nat, last: nat)
    ensures (d * power + v) * 10 + last == d * (10 * power) + (v * 10 + last)
  {
  }

  /** The leading digit carries the highest power. */
  lemma {:induction false} LeadingDigit(s: string)
    requires AllDigits(s) && s != ""
    ensures Value(s) == Digit(s[0]) * Pow10(|s| - 1) + Value(s[1..])
  {
    if |s| == 1 {
      assert s[..0] == "" && s[1..] == "";
    } else {
      var init, last := s[..|s| - 1], Digit(s[|s| - 1]);
      LeadingDigit(init);
      ShiftDigit(Digit(s[0]), Pow10(|init| - 1), Value(init[1..]), last);
      TailValue(s);
    }
  }

  lemma TailValue(s: string)
    requires AllDigits(s) && |s| > 1
    ensures Value(s[1..]) == Value(s[..|s| - 1][1..]) * 10 + Digit(s[|s| - 1])
  {
    assert s[..|s| - 1][1..] == s[1..][..|s| - 2];
  }

  lemma {:induction false} ValueStripZeros(s: string)
    requires AllDigits(s)
    ensures Value(StripZeros(s)) == Value(s)
  {
    if s != "" && s[0] == '0' {
      ValueStripZeros(s[1..]);
      LeadingDigit(s);
    }
  }

  lemma {:induction false} ValueBound(s: string)
    requires AllDigits(s)
    ensures Value(s) < Pow10(|s|)
  {
    if s != "" {
      ValueBound(s[..|s| - 1]);
    }
  }

  lemma {:induction false} Pow10Monotone(m: nat, n: nat)
    requires m <= n
    ensures Pow10(m) <= Pow10(n)
  {
    if m < n { Pow10Monotone(m, n - 1); }
  }

  /** Comparing `x * p + u` with `y * p + v` when the remainders stay below `p`. */
  lemma LeadingOrder(x: nat, y: nat, p: nat, u: nat, v: nat)
    requires u < p && v < p
    ensures x * p + u < y * p + v <==> x < y || (x == y && u < v)
  {
    if x < y {
      assert (x + 1) * p <= y * p;
    } else if y < x {
      assert (y + 1) * p <= x * p;
    }
  }

  /** Among numerals of one length, byte order is numeric order. */
  lemma {:induction false} EqualLengthOrder(a: string, b: string)
    requires AllDigits(a) && AllDigits(b) && |a| == |b|
    ensures StringLess(a, b) <==> Value(a) < Value(b)
  {
    if a != "" {
      LeadingDigit(a);
      LeadingDigit(b);
      ValueBound(a[1..]);
      ValueBound(b[1..]);
      EqualLengthOrder(a[1..], b[1..]);
      assert CodePoints(a)[1..] == CodePoints(a[1..]) && CodePoints(b)[1..] == CodePoints(b[1..]);
      LeadingOrder(Digit(a[0]), Digit(b[0]), Pow10(|a| - 1), Value(a[1..]), Value(b[1..]));
    }
  }

  /** A numeral without leading zeros that is longer than another denotes a larger number. */
  lemma LongerIsGreater(a: string, b: string)
    requires AllDigits(a) && AllDigits(b) && |a| > |b| && a[0] != '0'
    ensures Value(a) > Value(b)
  {
    LeadingDigit(a);
    ValueBound(b);
    ValueBound(a[1..]);
    Pow10Monotone(|b|, |a| - 1);
    LeadingOrder(0, Digit(a[0]), Pow10(|a| - 1), Value(b), Value(a[1..]));
  }

  /** The test of the middleware: longer, or equally long and later in byte order. */
  predicate ExceedsText(numeral: string, cap: string) {
    |numeral| > |cap| || (|numeral| == |cap| && StringLess(cap, numeral))
  }

  function Normalized(digits: string): string {
    var stripped := StripZeros(digits);
    if stripped == "" then "0" else stripped
  }

  /** Comparing texts decides the numeric comparison, for digit strings of any length. */
  lemma ExceedsTextIsNumeric(digits: string, cap: nat)
    requires AllDigits(digits)
    ensures ExceedsText(Normalized(digits), Text(cap)) <==> Value(digits) > cap
  {
    ValueStripZeros(digits);
    var n, c := Normalized(digits), Text(cap);
    assert Value("0") == 0 by { assert "0"[..0] == ""; }
    assert AllDigits(n) && Value(n) == Value(digits);
    if |n| == |c| {
      EqualLengthOrder(c, n);
    } else if |n| > |c| {
      LongerIsGreater(n, c);
    } else {
      LongerIsGreater(c, n);
    }
  }

  /** How many leading characters of `s` are digits. */
  function DigitRun(s: string): nat {
    if s != "" && IsDigit(s[0]) then 1 + DigitRun(s[1..]) else 0
  }

  lemma {:induction false} DigitRunStops(a: string, x: string)
    requires AllDigits(a) && (x == "" || !IsDigit(x[0]))
    ensures DigitRun(a + x) == |a|
  {
    if a == "" {
      assert a + x == x;
    } else {
      assert (a + x)[1..] == a[1..] + x;
      DigitRunStops(a[1..], x);
    }
  }

  /** A numeral is recovered from any text in which a non-digit, or nothing, follows it. */
  lemma NumeralPrefix(a: string, b: string, x: string, y: string)
    requires AllDigits(a) && AllDigits(b) && a + x == b + y
    requires (x == "" || !IsDigit(x[0])) && (y == "" || !IsDigit(y[0]))
    ensures a == b && x == y
  {
    DigitRunStops(a, x);
    DigitRunStops(b, y);
    assert a == (a + x)[..|a|] && b == (b + y)[..|b|];
    assert x == (a + x)[|a|..] && y == (b + y)[|b|..];
  }
}
