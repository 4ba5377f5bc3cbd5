// Stored fetch times: ISO 8601 text of a UTC instant. Python's isoformat leaves
// the fraction out when the microseconds are zero, so the texts do not all have
// the same length; comparing them as text still compares the instants.
module Timestamps {
  import opened Decimals

  datatype Stamp = Stamp(year: nat, month: nat, day: nat, hour: nat, minute: nat, second: nat, micro: nat) {
    predicate Valid() {
      && 1 <= year <= 9999 && 1 <= month <= 12 && 1 <= day <= 31
      && hour < 24 && minute < 60 && second < 60 && micro < 1_000_000
    }

    predicate Before(other: Stamp) {
      || year < other.year
      || (year == other.year && (month < other.month
      || (month == other.month && (day < other.day
      || (day == other.day && (hour < other.hour
      || (hour == other.hour && (minute < other.minute
      || (minute == other.minute && (second < other.second
      || (second == other.second && micro < other.micro))))))))))) 
    }
  }

  function Fraction(micro: nat): string {
    (if micro == 0 then "" else "." + Padded(micro, 6)) + "+00:00"
  }

  function Clock(t: Stamp): string {
    Padded(t.hour, 2) + (":" + (Padded(t.minute, 2) + (":" + (Padded(t.second, 2) + Fraction(t.micro)))))
  }

  function Iso(t: Stamp): string {
    Padded(t.year, 4) + ("-" + (Padded(t.month, 2) + ("-" + (Padded(t.day, 2) + ("T" + Clock(t))))))
  }

  // Text order, character by character.
  predicate TextLess(a: string, b: string) {
    b != "" && (a == "" || a[0] < b[0] || (a[0] == b[0] && TextLess(a[1..], b[1..])))
  }

  lemma SameHead(c: char, x: string, y: string)
    ensures TextLess([c] + x, [c] + y) <==> TextLess(x, y)
  {
    assert ([c] + x)[1..] == x && ([c] + y)[1..] == y;
  }

  // Fixed-width numbers in front decide the order, unless they are equal.
  lemma {:induction false} WidthDecides(n: nat, m: nat, width: nat, x: string, y: string)
    requires n < Pow10(width) && m < Pow10(width)
    ensures TextLess(Padded(n, width) + x, Padded(m, width) + y) <==> n < m || (n == m && TextLess(x, y))
  {
    if width == 0 {
      assert Padded(n, width) + x == x && Padded(m, width) + y == y;
    } else {
      var c, d := DigitChar(n % 10), DigitChar(m % 10);
      assert Padded(n, width) + x == Padded(n / 10, width - 1) + ([c] + x);
      assert Padded(m, width) + y == Padded(m / 10, width - 1) + ([d] + y);
      WidthDecides(n / 10, m / 10, width - 1, [c] + x, [d] + y);
      assert ([c] + x)[1..] == x && ([d] + y)[1..] == y;
      assert c < d <==> n % 10 < m % 10;
    }
  }

  lemma FractionOrder(a: nat, b: nat)
    requires a < 1_000_000 && b < 1_000_000
    ensures TextLess(Fraction(a), Fraction(b)) <==> a < b
  {
    assert Pow10(6) == 1_000_000;
    if a != 0 && b != 0 {
      assert Fraction(a) == "." + (Padded(a, 6) + "+00:00") && Fraction(b) == "." + (Padded(b, 6) + "+00:00");
      SameHead('.', Padded(a, 6) + "+00:00", Padded(b, 6) + "+00:00");
      WidthDecides(a, b, 6, "+00:00", "+00:00");
      NotBeforeItself("+00:00");
    } else if a == 0 && b == 0 {
      assert Fraction(a) == Fraction(b) == "+00:00";
      NotBeforeItself("+00:00");
    } else {
      // A plus sign sorts before the point of a fraction.
      assert Fraction(0)[0] == '+' && (a != 0 ==> Fraction(a)[0] == '.') && (b != 0 ==> Fraction(b)[0] == '.');
    }
  }

  lemma {:induction false} NotBeforeItself(s: string)
    ensures !TextLess(s, s)
  {
    if s != "" { NotBeforeItself(s[1..]); }
  }

  lemma ClockOrder(a: Stamp, b: Stamp)
    requires a.Valid() && b.Valid()
    ensures TextLess(Clock(a), Clock(b)) <==>
      || a.hour < b.hour
      || (a.hour == b.hour && (a.minute < b.minute
      || (a.minute == b.minute && (a.second < b.second || (a.second == b.second && a.micro < b.micro)))))
  {
    assert Pow10(2) == 100;
    FractionOrder(a.micro, b.micro);
    var x2, y2 := Padded(a.second, 2) + Fraction(a.micro), Padded(b.second, 2) + Fraction(b.micro);
    WidthDecides(a.second, b.second, 2, Fraction(a.micro), Fraction(b.micro));
    SameHead(':', x2, y2);
    var x1, y1 := Padded(a.minute, 2) + (":" + x2), Padded(b.minute, 2) + (":" + y2);
    WidthDecides(a.minute, b.minute, 2, ":" + x2, ":" + y2);
    SameHead(':', x1, y1);
    WidthDecides(a.hour, b.hour, 2, ":" + x1, ":" + y1);
  }

  // Text order of stored times is the order of the instants.
  lemma IsoOrder(a: Stamp, b: Stamp)
    requires a.Valid() && b.Valid()
    ensures TextLess(Iso(a), Iso(b)) <==> a.Before(b)
  {
    assert Pow10(2) == 100 && Pow10(4) == 10000;
    ClockOrder(a, b);
    SameHead('T', Clock(a), Clock(b));
    var x2, y2 := Padded(a.day, 2) + ("T" + Clock(a)), Padded(b.day, 2) + ("T" + Clock(b));
    WidthDecides(a.day, b.day, 2, "T" + Clock(a), "T" + Clock(b));
    SameHead('-', x2, y2);
    var x1, y1 := Padded(a.month, 2) + ("-" + x2), Padded(b.month, 2) + ("-" + y2);
    WidthDecides(a.month, b.month, 2, "-" + x2, "-" + y2);
    SameHead('-', x1, y1);
    WidthDecides(a.year, b.year, 4, "-" + x1, "-" + y1);
  }

  lemma IsoInjective(a: Stamp, b: Stamp)
    requires a.Valid() && b.Valid() && Iso(a) == Iso(b)
    ensures a == b
  {
    IsoOrder(a, b);
    IsoOrder(b, a);
    NotBeforeItself(Iso(a));
  }

  // This number stands at this place, in so many digits.
  ghost predicate Shows(s: string, place: nat, width: nat, n: nat) {
    place + width <= |s| && AllDigits(s[place..place + width]) && Value(s[place..place + width]) == n
  }

  // A number, a separator, and the rest of a text.
  lemma Field(n: nat, width: nat, sep: char, rest: string)
    requires n < Pow10(width)
    ensures var s := Padded(n, width) + ([sep] + rest);
      Shows(s, 0, width, n) && s[width] == sep && s[width + 1..] == rest
  {
    PaddedValue(n, width);
    assert (Padded(n, width) + ([sep] + rest))[0..width] == Padded(n, width);
  }

  lemma ShowsLater(s: string, k: nat, rest: string, width: nat, n: nat)
    requires k <= |s| && s[k..] == rest && Shows(rest, 0, width, n)
    ensures Shows(s, k, width, n)
  {
    assert s[k..k + width] == s[k..][0..width];
  }

  // Read from the front, a text gives its year, month and day behind hyphens,
  // and the clock behind a T.
  lemma DateReads(t: Stamp)
    requires t.Valid()
    ensures var s := Iso(t);
      && Shows(s, 0, 4, t.year) && s[4] == '-' && Shows(s, 5, 2, t.month) && s[7] == '-'
      && Shows(s, 8, 2, t.day) && s[10] == 'T' && s[11..] == Clock(t)
  {
    assert Pow10(2) == 100 && Pow10(4) == 10000;
    var c := Clock(t);
    var day := Padded(t.day, 2) + (['T'] + c);
    var month := Padded(t.month, 2) + (['-'] + day);
    var s := Padded(t.year, 4) + (['-'] + month);
    assert s == Iso(t);
    hide Clock, Padded, Pow10, Shows, Iso;
    Field(t.year, 4, '-', month);
    Field(t.month, 2, '-', day);
    Field(t.day, 2, 'T', c);
    ThreeFields(s, 4, month, 2, day, 2, c);
    ShowsLater(s, 5, month, 2, t.month);
    ShowsLater(s, 8, day, 2, t.day);
  }

  // Where the second and the third field start.
  lemma ThreeFields(s: string, i: nat, r: string, j: nat, q: string, k: nat, p: string)
    requires i < |s| && s[i + 1..] == r && j < |r| && r[j + 1..] == q && k < |q| && q[k + 1..] == p
    ensures |s| == i + 1 + |r| && s[i + 1 + j] == r[j] && s[i + 1 + j + 1..] == q
    ensures |r| == j + 1 + |q| && s[i + j + k + 2] == q[k] && s[i + j + k + 3..] == p
  {
    assert s[i + 1 + j] == s[i + 1..][j];
    assert s[i + 1..][j + 1..] == s[i + j + 2..];
    assert s[i + j + 2..][k + 1..] == s[i + j + k + 3..];
    assert s[i + j + 2..][k] == s[i + j + k + 2];
  }

  // And then the hour, minute and second behind colons, six digits of a second
  // behind a point unless they are zero, and the zero offset.
  lemma ClockReads(t: Stamp) returns (micro: string)
    requires t.Valid()
    ensures Shows(micro, 0, 6, t.micro) && |micro| == 6
    ensures var s := Clock(t);
      && Shows(s, 0, 2, t.hour) && s[2] == ':' && Shows(s, 3, 2, t.minute) && s[5] == ':' && Shows(s, 6, 2, t.second)
      && s[8..] == (if t.micro == 0 then "" else "." + micro) + "+00:00"
  {
    assert Pow10(2) == 100 && Pow10(6) == 1000000 by { assert Pow10(3) == 1000; }
    PaddedValue(t.micro, 6);
    micro := Padded(t.micro, 6);
    assert micro[0..6] == micro;
    var f := Fraction(t.micro);
    assert f != "" && f == (if t.micro == 0 then "" else "." + micro) + "+00:00";
    hide Fraction, Shows;
    ClockParts(t, f, f[0], f[1..]);
    assert f == [f[0]] + f[1..];
    assert Clock(t)[8..] == [Clock(t)[8]] + Clock(t)[9..];
  }

  lemma ClockParts(t: Stamp, f: string, first: char, behind: string)
    requires t.Valid() && f == Fraction(t.micro) && f == [first] + behind && Pow10(2) == 100
    ensures var s := Clock(t);
      && Shows(s, 0, 2, t.hour) && s[2] == ':' && Shows(s, 3, 2, t.minute) && s[5] == ':' && Shows(s, 6, 2, t.second)
      && |s| >= 9 && s[8] == first && s[9..] == behind
  {
    var second := Padded(t.second, 2) + ([first] + behind);
    var minute := Padded(t.minute, 2) + ([':'] + second);
    var s := Padded(t.hour, 2) + ([':'] + minute);
    assert s == Clock(t);
    hide Padded, Pow10, Shows, Clock, Fraction;
    Field(t.hour, 2, ':', minute);
    Field(t.minute, 2, ':', second);
    Field(t.second, 2, first, behind);
    ThreeFields(s, 2, minute, 2, second, 2, behind);
    ShowsLater(s, 3, minute, 2, t.minute);
    ShowsLater(s, 6, second, 2, t.second);
  }
}
