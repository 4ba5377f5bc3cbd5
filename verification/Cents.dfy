// Money: decimal text from the sender to whole cents and back.
module Cents {
  import opened Texts
  import opened Decimals

  const MAX_WHOLE_DIGITS := 12
  const MAX_FRACTION_DIGITS := 4

  // The place of the first point, or the length when there is none.
  function PointAt(s: string): (k: nat)
    ensures k <= |s| && (k < |s| ==> s[k] == '.') && forall i :: 0 <= i < k ==> s[i] != '.'
  {
    if s == "" || s[0] == '.' then 0 else 1 + PointAt(s[1..])
  }

  function Unsigned(s: string): string {
    if s != "" && s[0] == '-' then s[1..] else s
  }

  // An optional minus, digits, and optionally a point and 1 to 4 more.
  predicate IsDecimal(s: string) {
    var body := Unsigned(s);
    var k := PointAt(body);
    && 1 <= k && AllDigits(body[..k])
    && (k < |body| ==> 2 <= |body| - k <= MAX_FRACTION_DIGITS + 1 && AllDigits(body[k + 1..]))
  }

  // What a delivery may send: at most 12 digits before the point.
  predicate IsAmount(s: string) {
    IsDecimal(s) && PointAt(Unsigned(s)) <= MAX_WHOLE_DIGITS
  }

  function Magnitude(body: string): nat
    requires var k := PointAt(body); AllDigits(body[..k]) && (k < |body| ==> AllDigits(body[k + 1..]))
    requires |body| - PointAt(body) <= MAX_FRACTION_DIGITS + 1
  {
    var k := PointAt(body);
    var fraction := if k < |body| then body[k + 1..] else "";
    Value(body[..k]) * 10000 + Value(fraction) * Pow10(MAX_FRACTION_DIGITS - |fraction|)
  }

  // The exact amount, in ten-thousandths of a unit.
  function TenThousandths(s: string): int
    requires IsDecimal(s)
  {
    if s[0] == '-' then 0 - Magnitude(s[1..]) else Magnitude(s)
  }

  // Whole cents from ten-thousandths, a tie going to the even cent; the sign is
  // put back afterwards, as decimal arithmetic does.
  function RoundHalfEven(x: nat): nat {
    var q, r := x / 100, x % 100;
    if r < 50 || (r == 50 && q % 2 == 0) then q else q + 1
  }

  function RoundCents(x: int): int {
    if x < 0 then 0 - RoundHalfEven(-x) else RoundHalfEven(x)
  }

  function ToCents(s: string): int
    requires IsDecimal(s)
  {
    RoundCents(TenThousandths(s))
  }

  function Abs(x: int): nat { if x < 0 then -x else x }

  // Off by at most half a cent, and by exactly half only onto an even cent;
  // no other whole number of cents has this property.
  lemma RoundsHalfToEven(x: int, c: int)
    ensures RoundCents(x) == c <==>
      Abs(100 * c - x) < 50 || (Abs(100 * c - x) == 50 && c % 2 == 0)
  {
    var q := RoundHalfEven(Abs(x));
    assert Abs(100 * q - Abs(x)) <= 50;
  }

  lemma RoundIsMonotone(x: int, y: int)
    requires x <= y
    ensures RoundCents(x) <= RoundCents(y)
  {
    RoundsHalfToEven(x, RoundCents(x));
    RoundsHalfToEven(y, RoundCents(y));
  }

  lemma RoundIsOdd(x: int)
    ensures RoundCents(-x) == -RoundCents(x)
  {
  }

  lemma WholeBound(whole: string)
    requires AllDigits(whole) && |whole| <= MAX_WHOLE_DIGITS
    ensures Value(whole) < 1_000_000_000_000
  {
    ValueBelow(whole);
    Pow10Grows(|whole|, MAX_WHOLE_DIGITS);
    assert Pow10(12) == 1_000_000_000_000;
  }

  lemma RoundBound(x: int)
    requires Abs(x) < 10_000_000_000_000_000
    ensures Abs(RoundCents(x)) <= 100_000_000_000_000
  {
    RoundsHalfToEven(x, RoundCents(x));
  }

  // Every accepted amount stays within 10^14 cents (a trillion units).
  lemma CentsBound(s: string)
    requires IsAmount(s)
    ensures Abs(ToCents(s)) <= 100_000_000_000_000
  {
    var body := Unsigned(s);
    var k := PointAt(body);
    WholeBound(body[..k]);
    FractionBound(if k < |body| then body[k + 1..] else "");
    hide Value, Pow10, PointAt, RoundCents;
    RoundBound(TenThousandths(s));
  }

  lemma FractionBound(fraction: string)
    requires AllDigits(fraction) && |fraction| <= 4
    ensures Value(fraction) * Pow10(4 - |fraction|) <= 9999
  {
    ValueBelow(fraction);
    assert Pow10(0) == 1 && Pow10(1) == 10 && Pow10(2) == 100 && Pow10(3) == 1000 && Pow10(4) == 10000;
  }

  // Cents as decimal text with exactly two places.
  function FromCents(c: int): string {
    (if c < 0 then "-" else "") + Text(Abs(c) / 100) + "." + Padded(Abs(c) % 100, 2)
  }

  lemma {:induction false} TextLength(n: nat, k: nat)
    requires n < Pow10(k) && k >= 1
    ensures |Text(n)| <= k
  {
    if n >= 10 { TextLength(n / 10, k - 1); }
  }

  lemma PointAfterDigits(a: string, b: string)
    requires AllDigits(a)
    ensures PointAt(a + "." + b) == |a|
  {
    var s := a + "." + b;
    assert s[|a|] == '.';
    assert forall i :: 0 <= i < |a| ==> s[i] == a[i] && IsDigit(s[i]);
  }

  lemma {:induction false} TextIsLong(n: nat, k: nat)
    requires n >= Pow10(k)
    ensures |Text(n)| > k
  {
    if k > 0 { TextIsLong(n / 10, k - 1); }
  }

  lemma PlainMagnitude(n: nat)
    ensures var body := Text(n / 100) + "." + Padded(n % 100, 2);
      && IsDigit(body[0]) && IsDecimal(body) && Magnitude(body) == 100 * n
      && PointAt(body) == |Text(n / 100)|
  {
    var whole, fraction := Text(n / 100), Padded(n % 100, 2);
    var body := whole + "." + fraction;
    PointAfterDigits(whole, fraction);
    assert body[0] == whole[0] && Unsigned(body) == body;
    assert body[..|whole|] == whole && body[|whole| + 1..] == fraction;
    assert Pow10(2) == 100 && Pow10(1) == 10;
    PaddedValue(n % 100, 2);
  }

  lemma SignedAmount(body: string)
    requires body != "" && IsDigit(body[0]) && IsDecimal(body)
    ensures TenThousandths(body) == Magnitude(body) && Unsigned(body) == body && Unsigned("-" + body) == body
    ensures IsDecimal("-" + body) && TenThousandths("-" + body) == 0 - Magnitude(body)
  {
    assert ("-" + body)[1..] == body;
  }

  // A minus sign in front of a text negates its cents.
  lemma NegatedText(s: string)
    requires IsDecimal(s) && s[0] != '-'
    ensures IsDecimal("-" + s) && ToCents("-" + s) == -ToCents(s)
  {
    assert Unsigned(s) == s && s[..PointAt(s)][0] == s[0];
    SignedAmount(s);
    RoundIsOdd(TenThousandths(s));
  }

  lemma ShortIff(n: nat)
    ensures |Text(n)| <= MAX_WHOLE_DIGITS <==> n < 1_000_000_000_000
  {
    assert Pow10(12) == 1_000_000_000_000;
    hide Pow10, Text;
    if n < Pow10(12) { TextLength(n, 12); } else { TextIsLong(n, 12); }
  }

  // Printing any number of cents and converting the text again gives the same
  // cents; the text is one a delivery may send exactly below 10^14 cents.
  lemma CentsRoundTrip(c: int)
    ensures IsDecimal(FromCents(c)) && ToCents(FromCents(c)) == c
    ensures IsAmount(FromCents(c)) <==> Abs(c) < 100_000_000_000_000
  {
    var body := Text(Abs(c) / 100) + "." + Padded(Abs(c) % 100, 2);
    assert FromCents(c) == if c < 0 then "-" + body else body;
    ShortIff(Abs(c) / 100);
    RoundsHalfToEven(100 * c, c);
    PlainMagnitude(Abs(c));
    hide Magnitude, PointAt, Text, Padded, IsDecimal, FromCents, TenThousandths, RoundCents;
    SignedAmount(body);
  }

  // ------------------------------------------------------------------
  // What a text means
  // ------------------------------------------------------------------

  // As many zeros as bring n places to four.
  function Zeros(n: nat): (z: string)
    ensures |z| == n && AllDigits(z)
  {
    seq(n, i => '0')
  }

  lemma {:induction false} ZerosAreNothing(n: nat)
    ensures Value(Zeros(n)) == 0
  {
    if n > 0 {
      ZerosAreNothing(n - 1);
      assert Zeros(n)[..n - 1] == Zeros(n - 1);
    }
  }

  lemma Shifted(s: string, n: nat)
    requires AllDigits(s)
    ensures Value(s + Zeros(n)) == Value(s) * Pow10(n)
  {
    ValueSplit(s, Zeros(n));
    ZerosAreNothing(n);
  }

  // A text without a point is so many units: its digits and four zeros, read
  // as one number of ten-thousandths.
  lemma WholeMeans(w: string)
    requires AllDigits(w) && w != ""
    ensures IsDecimal(w) && TenThousandths(w) == Value(w + Zeros(4))
    ensures IsDecimal("-" + w) && TenThousandths("-" + w) == 0 - Value(w + Zeros(4))
  {
    NoPoint(w);
    Shifted(w, 4);
    Shifted("", 4);
    assert Unsigned(w) == w && w[..|w|] == w && IsDigit(w[0]);
    assert Pow10(4) == 10000 by { assert Pow10(2) == 100 && Pow10(1) == 10; }
    assert Magnitude(w) == Value(w) * 10000;
    hide Magnitude, Value, Pow10, PointAt, Zeros;
    SignedAmount(w);
  }

  lemma {:induction false} NoPoint(s: string)
    requires AllDigits(s)
    ensures PointAt(s) == |s|
  {
    if s != "" { NoPoint(s[1..]); }
  }

  // With a point, the digits on both sides and zeros up to the fourth place
  // are that number.
  lemma TextMeans(w: string, f: string)
    requires AllDigits(w) && w != "" && AllDigits(f) && 1 <= |f| <= MAX_FRACTION_DIGITS
    ensures IsDecimal(w + "." + f) && TenThousandths(w + "." + f) == Value(w + f + Zeros(4 - |f|))
    ensures IsDecimal("-" + (w + "." + f)) && TenThousandths("-" + (w + "." + f)) == 0 - Value(w + f + Zeros(4 - |f|))
  {
    var body := w + "." + f;
    PointedMagnitude(w, f);
    PointedValue(w, f);
    hide Magnitude, Value, Pow10, PointAt, Zeros, AllDigits;
    SignedAmount(body);
  }

  lemma PointedMagnitude(w: string, f: string)
    requires AllDigits(w) && w != "" && AllDigits(f) && 1 <= |f| <= MAX_FRACTION_DIGITS
    ensures var body := w + "." + f;
      IsDigit(body[0]) && IsDecimal(body) && Magnitude(body) == Value(w) * 10000 + Value(f) * Pow10(4 - |f|)
  {
    var body := w + "." + f;
    PointAfterDigits(w, f);
    assert body[0] == w[0] && Unsigned(body) == body && body[..|w|] == w && body[|w| + 1..] == f && IsDigit(w[0]);
    hide Value, Pow10, PointAt;
  }

  lemma PointedValue(w: string, f: string)
    requires AllDigits(w) && AllDigits(f) && |f| <= MAX_FRACTION_DIGITS
    ensures Value(w + f + Zeros(4 - |f|)) == Value(w) * 10000 + Value(f) * Pow10(4 - |f|)
  {
    ValueSplit(w, f);
    Shifted(w + f, 4 - |f|);
    PlacesAddUp(|f|);
    hide Value, Pow10, Zeros, AllDigits;
    Distribute(Value(w), Pow10(|f|), Value(f), Pow10(4 - |f|));
  }

  lemma PlacesAddUp(k: nat)
    requires k <= 4
    ensures Pow10(k) * Pow10(4 - k) == 10000
  {
    assert Pow10(0) == 1 && Pow10(1) == 10 && Pow10(2) == 100 && Pow10(3) == 1000 && Pow10(4) == 10000;
  }

  lemma Distribute(a: int, b: int, c: int, d: int)
    ensures (a * b + c) * d == a * (b * d) + c * d
  {
  }

  // No other whole number of cents is as near to so many ten-thousandths, or
  // as near and even.
  predicate NearestCent(c: int, exact: int) {
    Abs(100 * c - exact) < 50 || (Abs(100 * c - exact) == 50 && c % 2 == 0)
  }

  // The cents of a text are the nearest to the number its digits spell, and
  // the even ones of two equally near.
  lemma CentsMean(w: string, f: string, c: int)
    requires AllDigits(w) && w != "" && AllDigits(f) && 1 <= |f| <= MAX_FRACTION_DIGITS
    ensures IsDecimal(w + "." + f) && (ToCents(w + "." + f) == c <==> NearestCent(c, Value(w + f + Zeros(4 - |f|))))
    ensures IsDecimal("-" + (w + "." + f))
    ensures ToCents("-" + (w + "." + f)) == c <==> NearestCent(c, 0 - Value(w + f + Zeros(4 - |f|)))
  {
    TextMeans(w, f);
    RoundsHalfToEven(Value(w + f + Zeros(4 - |f|)), c);
    RoundsHalfToEven(0 - Value(w + f + Zeros(4 - |f|)), c);
    hide TenThousandths, RoundCents, Value, Zeros, IsDecimal;
  }

  lemma WholeCentsMean(w: string)
    requires AllDigits(w) && w != ""
    ensures IsDecimal(w) && ToCents(w) == 100 * Value(w)
    ensures IsDecimal("-" + w) && ToCents("-" + w) == 0 - 100 * Value(w)
  {
    assert Pow10(4) == 10000 by { assert Pow10(2) == 100 && Pow10(1) == 10; }
    hide TenThousandths, RoundCents, Value, Zeros, IsDecimal, Pow10;
    WholeMeans(w);
    Shifted(w, 4);
    WholeIsExact(Value(w));
  }

  lemma WholeIsExact(n: nat)
    ensures RoundCents(n * 10000) == 100 * n && RoundCents(0 - n * 10000) == 0 - 100 * n
  {
    RoundsHalfToEven(n * 10000, 100 * n);
    RoundsHalfToEven(0 - n * 10000, 0 - 100 * n);
  }

  // Every text a delivery may send is of one of these forms.
  lemma DecimalForms(s: string) returns (minus: bool, w: string, f: string)
    requires IsDecimal(s)
    ensures AllDigits(w) && w != "" && AllDigits(f) && |f| <= MAX_FRACTION_DIGITS
    ensures s == (if minus then "-" else "") + (if f == "" then w else w + "." + f)
    ensures IsAmount(s) <==> |w| <= MAX_WHOLE_DIGITS
  {
    var body := Unsigned(s);
    var k := PointAt(body);
    minus, w, f := s != "" && s[0] == '-', body[..k], if k < |body| then body[k + 1..] else "";
    assert body == if f == "" then w else w + "." + f;
  }
}
