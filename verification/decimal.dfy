/**
 Decimal digits: Python's `int(s)` on a digit string, `str(n)` and the
 zero-padded `%0Nd` conversion used to print timecodes.
 */
module Decimal {

  predicate IsDigit(c: char) {
    '0' <= c <= '9'
  }

  predicate AllDigits(s: string) {
    forall i :: 0 <= i < |s| ==> IsDigit(s[i])
  }

  function DigitValue(c: char): nat
    requires IsDigit(c)
  {
    (c as int) - ('0' as int)
  }

  function DigitChar(d: nat): (c: char)
    requires d < 10
    ensures IsDigit(c) && DigitValue(c) == d
  {
    (('0' as int) + d) as char
  }

  function Pow10(n: nat): (p: nat)
    ensures p >= 1
  {
    if n == 0 then 1 else 10 * Pow10(n - 1)
  }

  /** `int(s)` for a string of ASCII digits (empty string: 0). */
  function Value(s: string): nat
    requires AllDigits(s)
  {
    if |s| == 0 then 0 else Value(s[..|s| - 1]) * 10 + DigitValue(s[|s| - 1])
  }

  /** A string of `k` digits denotes a number below `10^k`. */
  lemma {:induction false} ValueBound(s: string)
    requires AllDigits(s)
    ensures Value(s) < Pow10(|s|)
  {
    if |s| > 0 {
      ValueBound(s[..|s| - 1]);
    }
  }

  /** `str(n)` for a natural number. */
  function Digits(n: nat): (r: string)
    ensures |r| >= 1
    ensures n >= 10 ==> |r| >= 2
  {
    if n < 10 then [DigitChar(n)] else Digits(n / 10) + [DigitChar(n % 10)]
  }

  /** `str(n)` has no leading zero and reads back as `n`. */
  lemma {:induction false} DigitsValue(n: nat)
    ensures AllDigits(Digits(n)) && Value(Digits(n)) == n
    ensures n > 0 ==> Digits(n)[0] != '0'
  {
    var r := Digits(n);
    if n >= 10 {
      var p := Digits(n / 10);
      DigitsValue(n / 10);
      assert r == p + [DigitChar(n % 10)];
      assert r[..|r| - 1] == p;
    }
  }

  lemma DigitsAtLeastThree(n: nat)
    requires n >= 100
    ensures |Digits(n)| >= 3
  {
    assert Digits(n) == Digits(n / 10) + [DigitChar(n % 10)];
  }

  /** The last `w` decimal digits of `n`, zero-padded on the left. */
  function Fixed(n: nat, w: nat): (r: string)
    ensures |r| == w
  {
    if w == 0 then "" else Fixed(n / 10, w - 1) + [DigitChar(n % 10)]
  }

  /** `Fixed(n, w)` is made of digits and, when `n` fits, reads back as `n`. */
  lemma {:induction false} FixedValue(n: nat, w: nat)
    ensures AllDigits(Fixed(n, w))
    ensures n < Pow10(w) ==> Value(Fixed(n, w)) == n
  {
    if w > 0 {
      var p := Fixed(n / 10, w - 1);
      FixedValue(n / 10, w - 1);
      var r := Fixed(n, w);
      assert r[..|r| - 1] == p;
    }
  }

  /** Reading a digit string and printing it back at the same width is the identity. */
  lemma {:induction false} FixedOfValue(s: string)
    requires AllDigits(s)
    ensures Fixed(Value(s), |s|) == s
  {
    if |s| > 0 {
      var p := s[..|s| - 1];
      FixedOfValue(p);
      var v := Value(s);
      assert v / 10 == Value(p) && v % 10 == DigitValue(s[|s| - 1]);
      assert s == p + [s[|s| - 1]];
    }
  }

  /** Python's `"%0{w}d" % n` for `n >= 0`: at least `w` characters, exactly `w` when `n` fits. */
  function Padded(n: nat, w: nat): (r: string)
    ensures w >= 1 && n < Pow10(w) ==> |r| == w
    ensures n >= Pow10(w) ==> |r| > w
  {
    if w >= 1 && n < Pow10(w) then Fixed(n, w)
    else
      assert n >= Pow10(w) ==> |Digits(n)| > w by {
        if n >= Pow10(w) { DigitsLonger(n, w); }
      }
      Digits(n)
  }

  /** `"%0{w}d" % n` is a digit string that reads back as `n`. */
  lemma PaddedValue(n: nat, w: nat)
    ensures AllDigits(Padded(n, w)) && Value(Padded(n, w)) == n
  {
    if w >= 1 && n < Pow10(w) {
      FixedValue(n, w);
    } else {
      DigitsValue(n);
    }
  }

  lemma {:induction false} DigitsLonger(n: nat, w: nat)
    requires n >= Pow10(w)
    ensures |Digits(n)| > w
  {
    if w > 0 {
      DigitsLonger(n / 10, w - 1);
    }
  }

  /** Python's `"%0{w}d" % n` for any integer: the sign counts towards the width. */
  function PaddedInt(n: int, w: nat): (r: string)
    ensures n >= 0 ==> r == Padded(n, w)
    ensures n < 0 ==> |r| >= 2 && r[0] == '-'
  {
    if n >= 0 then Padded(n, w)
    else "-" + Padded(-n, if w >= 1 then w - 1 else 0)
  }
}
