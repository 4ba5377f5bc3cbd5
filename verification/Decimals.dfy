// Decimal digits: printing a number and reading it back.
module Decimals {

  predicate IsDigit(c: char) {
    '0' <= c <= '9'
  }

  predicate AllDigits(s: string) {
    forall i :: 0 <= i < |s| ==> IsDigit(s[i])
  }

  function DigitValue(c: char): nat
    requires IsDigit(c)
  {
    (c as int) - ('0' as int)
  }

  function DigitChar(d: nat): (c: char)
    requires d < 10
    ensures IsDigit(c) && DigitValue(c) == d
  {
    (('0' as int) + d) as char
  }

  function Value(s: string): nat
    requires AllDigits(s)
  {
    if s == "" then 0 else 10 * Value(s[..|s| - 1]) + DigitValue(s[|s| - 1])
  }

  function Text(n: nat): (s: string)
    ensures s != "" && AllDigits(s) && Value(s) == n
  {
    if n < 10 then [DigitChar(n)] else
    var s := Text(n / 10) + [DigitChar(n % 10)];
    assert s[..|s| - 1] == Text(n / 10);
    s
  }

  // Exactly width digits, leading zeros kept.
  function Padded(n: nat, width: nat): (s: string)
    ensures |s| == width && AllDigits(s)
  {
    if width == 0 then "" else Padded(n / 10, width - 1) + [DigitChar(n % 10)]
  }

  function Pow10(k: nat): (p: nat)
    ensures p >= 1
  {
    if k == 0 then 1 else 10 * Pow10(k - 1)
  }

  lemma {:induction false} PaddedValue(n: nat, width: nat)
    requires n < Pow10(width)
    ensures Value(Padded(n, width)) == n
  {
    hide Pow10, Value, Padded;
    PaddedStep(n, width);
    if width > 0 {
      FewerDigits(n, width);
      PaddedValue(n / 10, width - 1);
      ValueSnoc(Padded(n / 10, width - 1), n % 10);
    }
  }

  lemma PaddedStep(n: nat, width: nat)
    ensures width > 0 ==> Padded(n, width) == Padded(n / 10, width - 1) + [DigitChar(n % 10)]
    ensures width == 0 ==> Padded(n, width) == "" && Value("") == 0 && Pow10(width) == 1
  {
  }

  lemma ValueSnoc(front: string, d: nat)
    requires AllDigits(front) && d < 10
    ensures AllDigits(front + [DigitChar(d)]) && Value(front + [DigitChar(d)]) == 10 * Value(front) + d
  {
    var s := front + [DigitChar(d)];
    assert s[..|s| - 1] == front && s[|s| - 1] == DigitChar(d);
  }

  lemma FewerDigits(n: nat, width: nat)
    requires width > 0 && n < Pow10(width)
    ensures n / 10 < Pow10(width - 1)
  {
    var p := Pow10(width - 1);
    assert Pow10(width) == 10 * p;
    hide Pow10;
  }

  lemma {:induction false} ValueSplit(a: string, b: string)
    requires AllDigits(a) && AllDigits(b)
    ensures AllDigits(a + b) && Value(a + b) == Value(a) * Pow10(|b|) + Value(b)
  {
    if b == "" {
      assert a + b == a;
    } else {
      var front := b[..|b| - 1];
      ValueSplit(a, front);
      assert (a + b)[..|a + b| - 1] == a + front && (a + b)[|a + b| - 1] == b[|b| - 1];
      assert Value(a + b) == 10 * Value(a + front) + DigitValue(b[|b| - 1]);
      MulTen(Value(a), Pow10(|front|));
    }
  }

  lemma MulTen(x: nat, y: nat)
    ensures 10 * (x * y) == x * (10 * y)
  {
  }

  lemma {:induction false} ValueBelow(s: string)
    requires AllDigits(s)
    ensures Value(s) < Pow10(|s|)
  {
    if s != "" { ValueBelow(s[..|s| - 1]); }
  }

  lemma {:induction false} ValueAtLeast(s: string)
    requires AllDigits(s) && s != "" && s[0] != '0'
    ensures Value(s) >= Pow10(|s| - 1)
  {
    if |s| > 1 { ValueAtLeast(s[..|s| - 1]); }
  }

  lemma {:induction false} Pow10Grows(a: nat, b: nat)
    requires a <= b
    ensures Pow10(a) <= Pow10(b)
  {
    if a < b { Pow10Grows(a, b - 1); }
  }

  // A digit's value is its place in this row of digits.
  lemma DigitsAre(d: nat)
    requires d < 10
    ensures DigitChar(d) == "0123456789"[d] && DigitValue("0123456789"[d]) == d
  {
  }
}
