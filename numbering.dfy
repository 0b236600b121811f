/**
 * The human-readable document numbers `PREFIX-YEAR-NNNNN`: `String(n)` for a natural number,
 * `padStart(5, '0')`, and the decimal value a digit string reads back as.
 */
module Numbering {

  predicate IsDigit(c: char) { '0' <= c <= '9' }

  predicate AllDigits(s: string) {
    forall i :: 0 <= i < |s| ==> IsDigit(s[i])
  }

  function DigitChar(d: nat): (c: char)
    requires d < 10
    ensures IsDigit(c)
  {
    ['0', '1', '2', '3', '4', '5', '6', '7', '8', '9'][d]
  }

  function DigitValue(c: char): (d: nat)
    requires IsDigit(c)
    ensures d < 10
  {
    (c as int - '0' as int) as nat
  }

  lemma DigitRoundTrip(d: nat)
    requires d < 10
    ensures DigitValue(DigitChar(d)) == d
  {
  }

  /** `String(n)` for a natural number: its decimal digits, without leading zeros. */
  function Digits(n: nat): (s: string)
    ensures |s| >= 1 && AllDigits(s)
    ensures |s| > 1 ==> s[0] != '0'
  {
    if n < 10 then [DigitChar(n)] else Digits(n / 10) + [DigitChar(n % 10)]
  }

  /** The number a digit string denotes; leading zeros add nothing. */
  function Value(s: string): nat
    requires AllDigits(s)
  {
    if s == [] then 0 else Value(s[..|s| - 1]) * 10 + DigitValue(s[|s| - 1])
  }

  lemma {:induction false} DigitsValue(n: nat)
    ensures Value(Digits(n)) == n
  {
    if n >= 10 {
      var s := Digits(n);
      assert s[..|s| - 1] == Digits(n / 10);
      DigitsValue(n / 10);
      DigitRoundTrip(n % 10);
    } else {
      DigitRoundTrip(n);
    }
  }

  lemma {:induction false} LeadingZeroValue(s: string)
    requires AllDigits(s)
    ensures AllDigits(['0'] + s) && Value(['0'] + s) == Value(s)
    decreases |s|
  {
    if s != [] {
      var z := ['0'] + s;
      assert z[..|z| - 1] == ['0'] + s[..|s| - 1];
      LeadingZeroValue(s[..|s| - 1]);
    }
  }

  function Repeat(c: char, n: nat): (r: string)
    ensures |r| == n && forall i :: 0 <= i < n ==> r[i] == c
  {
    if n == 0 then [] else [c] + Repeat(c, n - 1)
  }

  /** `s.padStart(width, c)` */
  function PadStart(s: string, width: nat, c: char): (r: string)
    ensures |r| == if |s| >= width then |s| else width
    ensures r[|r| - |s|..] == s
  {
    if |s| >= width then s else Repeat(c, width - |s|) + s
  }

  lemma {:induction false} ZerosValue(n: nat, s: string)
    requires AllDigits(s)
    ensures AllDigits(Repeat('0', n) + s) && Value(Repeat('0', n) + s) == Value(s)
  {
    if n > 0 {
      ZerosValue(n - 1, s);
      assert Repeat('0', n) + s == ['0'] + (Repeat('0', n - 1) + s);
      LeadingZeroValue(Repeat('0', n - 1) + s);
    } else {
      assert Repeat('0', n) + s == s;
    }
  }

  /** `String(n).padStart(5, '0')` */
  function Pad5(n: nat): string {
    PadStart(Digits(n), 5, '0')
  }

  /** The padded suffix is `max(5, digits(n))` long, all digits, and reads back as `n`. */
  lemma Pad5ReadsBack(n: nat)
    ensures |Pad5(n)| == if |Digits(n)| >= 5 then |Digits(n)| else 5
    ensures AllDigits(Pad5(n)) && Value(Pad5(n)) == n
  {
    DigitsValue(n);
    var d := Digits(n);
    if |d| < 5 {
      ZerosValue(5 - |d|, d);
    }
  }

  /** `${prefix}-${year}-${String(count + 1).padStart(5, '0')}` */
  function DocNumber(prefix: string, year: nat, count: nat): string {
    prefix + "-" + Digits(year) + "-" + Pad5(count + 1)
  }

  /** Two numbers with the same prefix and year differ whenever their counts differ. */
  lemma DocNumberInjective(prefix: string, year: nat, c1: nat, c2: nat)
    requires DocNumber(prefix, year, c1) == DocNumber(prefix, year, c2)
    ensures c1 == c2
  {
    DocNumberCount(prefix, year, c1);
    DocNumberCount(prefix, year, c2);
  }

  /** After the prefix, the year and two dashes comes the padded count. */
  lemma DocNumberSuffix(prefix: string, year: nat, count: nat)
    ensures DocNumber(prefix, year, count)[|prefix| + |Digits(year)| + 2..] == Pad5(count + 1)
  {
    var head, tail := prefix + "-" + Digits(year) + "-", Pad5(count + 1);
    assert DocNumber(prefix, year, count) == head + tail;
    assert (head + tail)[|head|..] == tail;
  }

  /** The digits after the year read back as the count plus one. */
  lemma DocNumberCount(prefix: string, year: nat, count: nat)
    ensures var tail := DocNumber(prefix, year, count)[|prefix| + |Digits(year)| + 2..];
      AllDigits(tail) && Value(tail) == count + 1
  {
    DocNumberSuffix(prefix, year, count);
    Pad5ReadsBack(count + 1);
  }

  /** `${n}` for any integer, as a template literal prints it. */
  function IntText(n: int): string {
    if n >= 0 then Digits(n) else "-" + Digits(-n)
  }
}
