// The lines of a printed text, and what reads as a section name.
module PassageLines {
  import opened Texts
  import opened PassageText

  // ------------------------------------------------------------------
  // Splitting at line feeds undoes joining
  // ------------------------------------------------------------------

  function SplitNl(s: string): (lines: seq<string>)
    ensures lines != []
  {
    if s == "" then [""] else
    PutChar(s[0], SplitNl(s[1..]))
  }

  // One more character in front of a text, and one behind it, line by line.
  function PutChar(c: char, lines: seq<string>): (r: seq<string>)
    requires lines != []
    ensures r != []
  {
    if c == '\n' then [""] + lines else [[c] + lines[0]] + lines[1..]
  }

  function AddChar(lines: seq<string>, c: char): (r: seq<string>)
    requires lines != []
    ensures r != []
  {
    if c == '\n' then lines + [""] else lines[..|lines| - 1] + [lines[|lines| - 1] + [c]]
  }

  function LinesOf(parts: seq<string>): seq<string> {
    if parts == [] then [] else SplitNl(parts[0]) + LinesOf(parts[1..])
  }

  lemma {:induction false} SplitOne(s: string)
    requires OneLine(s)
    ensures SplitNl(s) == [s]
  {
    if s != "" {
      SplitOne(s[1..]);
      assert s == [s[0]] + s[1..];
    }
  }

  lemma {:induction false} SplitPlus(a: string, b: string)
    ensures SplitNl(a + ("\n" + b)) == SplitNl(a) + SplitNl(b)
  {
    hide PutChar;
    var s := a + ("\n" + b);
    if a == "" {
      assert s[1..] == b && s[0] == '\n';
      PutBreak(SplitNl(b));
    } else {
      SplitPlus(a[1..], b);
      assert s[1..] == a[1..] + ("\n" + b) && s[0] == a[0];
      PutPlus(a[0], SplitNl(a[1..]), SplitNl(b));
    }
  }

  lemma PutBreak(lines: seq<string>)
    requires lines != []
    ensures PutChar('\n', lines) == [""] + lines
  {
  }

  lemma PutPlus(c: char, a: seq<string>, b: seq<string>)
    requires a != []
    ensures PutChar(c, a + b) == PutChar(c, a) + b
  {
    assert (a + b)[1..] == a[1..] + b;
  }

  lemma PutAdd(c: char, lines: seq<string>, d: char)
    requires lines != []
    ensures PutChar(c, AddChar(lines, d)) == AddChar(PutChar(c, lines), d)
  {
    var n := |lines|;
    if d != '\n' {
      var last := lines[n - 1] + [d];
      if c == '\n' {
        assert ([""] + lines)[..n] == [""] + lines[..n - 1];
      } else if n == 1 {
        assert [c] + last == ([c] + lines[0]) + [d];
        assert AddChar(lines, d) == [last];
      } else {
        assert (lines[..n - 1] + [last])[1..] == lines[1..][..n - 2] + [last];
      }
    }
  }

  lemma {:induction false} SplitJoin(parts: seq<string>)
    requires parts != []
    ensures SplitNl(Join(parts)) == LinesOf(parts)
  {
    if |parts| > 1 {
      SplitJoin(parts[1..]);
      SplitPlus(parts[0], Join(parts[1..]));
    } else {
      assert LinesOf(parts[1..]) == [];
    }
  }

  lemma {:induction false} LinesOfOneLiners(parts: seq<string>)
    requires forall i :: 0 <= i < |parts| ==> OneLine(parts[i])
    ensures LinesOf(parts) == parts
  {
    if parts != [] {
      SplitOne(parts[0]);
      LinesOfOneLiners(parts[1..]);
    }
  }

  lemma Associate<T>(a: seq<T>, b: seq<T>, c: seq<T>)
    ensures a + (b + c) == (a + b) + c
  {
  }

  lemma {:induction false} LinesOfPlus(a: seq<string>, b: seq<string>)
    ensures LinesOf(a + b) == LinesOf(a) + LinesOf(b)
  {
    hide SplitNl;
    if a == [] {
      assert a + b == b;
    } else {
      LinesOfPlus(a[1..], b);
      assert (a + b)[1..] == a[1..] + b && (a + b)[0] == a[0];
      Associate(SplitNl(a[0]), LinesOf(a[1..]), LinesOf(b));
    }
  }

  lemma {:induction false} JoinSplit(s: string)
    ensures Join(SplitNl(s)) == s
  {
    if s != "" {
      var rest := SplitNl(s[1..]);
      JoinSplit(s[1..]);
      if s[0] == '\n' {
        assert ([""] + rest)[1..] == rest;
      } else {
        var lines := [[s[0]] + rest[0]] + rest[1..];
        assert lines[1..] == rest[1..];
        assert s == [s[0]] + s[1..];
      }
    }
  }

  lemma {:induction false} SplitSnoc(s: string, c: char)
    ensures SplitNl(s + [c]) == AddChar(SplitNl(s), c)
  {
    var t := s + [c];
    if s == "" {
      assert t[1..] == "" && [c] + "" == [c] && "" + [c] == [c];
      assert SplitNl(t) == PutChar(c, [""]);
    } else {
      hide PutChar, AddChar;
      SplitSnoc(s[1..], c);
      assert t[1..] == s[1..] + [c] && t[0] == s[0];
      PutAdd(s[0], SplitNl(s[1..]), c);
    }
  }

  // ------------------------------------------------------------------
  // White space around a line does not change whether it is a section name
  // ------------------------------------------------------------------

  predicate NoCapitals(s: string) {
    forall i :: 0 <= i < |s| ==> !IsCapital(s[i])
  }

  lemma {:induction false} OtherRunPast(u: string, x: string)
    requires NoCapitals(u)
    ensures OtherRun(u + x) == |u| + OtherRun(x)
  {
    if u == "" {
      assert u + x == x;
    } else {
      OtherRunPast(u[1..], x);
      assert (u + x)[1..] == u[1..] + x;
    }
  }

  lemma StripLeftLetters(x: string)
    ensures StripLeft(Letters(x)) == Letters(x[OtherRun(x)..])
  {
    var k := OtherRun(x);
    if x != "" && !IsCapital(x[0]) {
      var rest := Letters(x[k..]);
      assert Letters(x) == " " + rest && (" " + rest)[1..] == rest;
      assert k < |x| ==> x[k..][0] == x[k];
    } else {
      assert x[k..] == x;
    }
  }

  lemma FrontIsIgnored(u: string, x: string)
    requires NoCapitals(u)
    ensures StripLeft(Letters(u + x)) == StripLeft(Letters(x))
  {
    hide Letters, StripLeft, OtherRun;
    OtherRunPast(u, x);
    StripLeftLetters(u + x);
    StripLeftLetters(x);
    assert (u + x)[OtherRun(u + x)..] == x[OtherRun(x)..];
  }

  lemma {:induction false} BackAddsASpace(x: string, v: string)
    requires NoCapitals(v) && v != ""
    ensures Letters(x + v) == Letters(x) || Letters(x + v) == Letters(x) + " "
    decreases |x|
  {
    var s := x + v;
    if x == "" {
      OtherRunPast(v, "");
      assert s == v && v + "" == v;
    } else if IsCapital(x[0]) {
      BackAddsASpace(x[1..], v);
      assert s[1..] == x[1..] + v;
    } else {
      var k := OtherRun(x);
      RunThenBack(x, v);
      if k < |x| { BackAddsASpace(x[k..], v); }
    }
  }

  // A run of other characters at the front of x may reach into v.
  lemma RunThenBack(x: string, v: string)
    requires NoCapitals(v) && x != "" && !IsCapital(x[0])
    ensures Letters(x) == " " + Letters(x[OtherRun(x)..])
    ensures OtherRun(x) < |x| ==> Letters(x + v) == " " + Letters(x[OtherRun(x)..] + v)
    ensures OtherRun(x) == |x| ==> Letters(x + v) == " "
  {
    FirstRun(x);
    FirstRun(x + v);
    if OtherRun(x) < |x| { RunStops(x, v); } else { RunGoesOn(x, v); }
  }

  lemma RunStops(x: string, v: string)
    requires OtherRun(x) < |x|
    ensures (x + v)[OtherRun(x + v)..] == x[OtherRun(x)..] + v
  {
    var k := OtherRun(x);
    var front, back := x[..k], x[k..] + v;
    assert x + v == front + back && back[0] == x[k];
    OtherRunPast(front, back);
    NoRun(back);
  }

  lemma RunGoesOn(x: string, v: string)
    requires NoCapitals(v) && OtherRun(x) == |x|
    ensures Letters((x + v)[OtherRun(x + v)..]) == ""
  {
    OtherRunPast(x + v, "");
    assert x + v + "" == x + v;
    NoRun("");
  }

  lemma FirstRun(x: string)
    requires x != "" && !IsCapital(x[0])
    ensures Letters(x) == " " + Letters(x[OtherRun(x)..])
  {
  }

  lemma NoRun(s: string)
    requires s == "" || IsCapital(s[0])
    ensures OtherRun(s) == 0
  {
  }

  lemma {:induction false} StripLastSpace(y: string)
    ensures Strip(y + " ") == Strip(y)
  {
    var s := y + " ";
    if y == "" {
      assert s[1..] == "";
    } else if IsSpace(y[0]) {
      StripLastSpace(y[1..]);
      assert s[1..] == y[1..] + " ";
    } else {
      assert s[..|s| - 1] == y;
    }
  }

  lemma {:induction false} UpperPlus(a: string, b: string, u: Unicode)
    ensures Upper(a + b, u) == Upper(a, u) + Upper(b, u)
  {
    if a == "" {
      assert a + b == b;
    } else {
      UpperPlus(a[1..], b, u);
      assert (a + b)[1..] == a[1..] + b;
    }
  }

  predicate Plain(s: string) {
    s == "" || ((IsCapital(s[0]) || s[0] == '#' || IsSpace(s[0])) && Plain(s[1..]))
  }

  lemma {:induction false} PlainPlus(a: string, b: string)
    requires Plain(a) && Plain(b)
    ensures Plain(a + b)
  {
    if a == "" {
      assert a + b == b;
    } else {
      PlainPlus(a[1..], b);
      assert (a + b)[1..] == a[1..] + b;
    }
  }

  // Capitals, number signs and white space are their own upper case.
  lemma {:induction false} UpperPlain(s: string, u: Unicode)
    requires Usable(u) && Plain(s)
    ensures Upper(s, u) == s
  {
    if s != "" {
      UpperPlain(s[1..], u);
      assert s == [s[0]] + s[1..];
    }
  }

  // White space, or a heading mark, in front is ignored.
  lemma NameIgnoresFront(c: char, line: string, u: Unicode)
    requires Usable(u) && (IsSpace(c) || c == '#')
    ensures IsSectionName([c] + line, u) == IsSectionName(line, u)
  {
    UpperPlus([c], line, u);
    UpperPlain([c], u);
    FrontIsIgnored([c], Upper(line, u));
  }

  lemma NameIgnoresBack(line: string, c: char, u: Unicode)
    requires Usable(u) && IsSpace(c)
    ensures IsSectionName(line + [c], u) == IsSectionName(line, u)
  {
    UpperPlus(line, [c], u);
    UpperPlain([c], u);
    BackAddsASpace(Upper(line, u), [c]);
    StripLastSpace(Letters(Upper(line, u)));
  }

  // ------------------------------------------------------------------
  // The two headings are section names
  // ------------------------------------------------------------------

  lemma {:induction false} WordStays(word: string, rest: string)
    requires forall i :: 0 <= i < |word| ==> IsCapital(word[i])
    ensures Letters(word + rest) == word + Letters(rest)
  {
    if word == "" {
      assert word + rest == rest;
    } else {
      WordStays(word[1..], rest);
      assert (word + rest)[1..] == word[1..] + rest;
    }
  }

  lemma HeadingsAreNames(u: Unicode)
    requires Usable(u)
    ensures IsSectionName("## " + SOURCES_HEADING, u) && IsSectionName("## " + BALANCE_HEADING, u)
  {
    hide IsSectionName, Usable;
    SourcesIsAName(u);
    BalanceIsAName(u);
    MarksBefore(SOURCES_HEADING, u);
    MarksBefore(BALANCE_HEADING, u);
  }

  lemma SourcesIsAName(u: Unicode)
    requires Usable(u)
    ensures IsSectionName(SOURCES_HEADING, u)
  {
    hide Usable;
    WordStays(SOURCES_HEADING, "");
    assert SOURCES_HEADING + "" == SOURCES_HEADING;
    NamesItself(SOURCES_HEADING, u);
  }

  lemma BalanceIsAName(u: Unicode)
    requires Usable(u)
    ensures IsSectionName(BALANCE_HEADING, u)
  {
    hide Usable, Letters;
    BalanceStays();
    PlainPlus("BALANCE", " TABLE");
    assert "BALANCE" + " TABLE" == BALANCE_HEADING;
    hide Plain;
    NamesItself(BALANCE_HEADING, u);
  }

  lemma BalanceStays()
    ensures Letters(BALANCE_HEADING) == BALANCE_HEADING
  {
    var tail := " TABLE";
    TableStays();
    WordStays("BALANCE", tail);
    assert "BALANCE" + tail == BALANCE_HEADING;
  }

  lemma NamesItself(name: string, u: Unicode)
    requires Usable(u) && Letters(name) == name && Plain(name)
    requires name != "" && IsCapital(name[0]) && IsCapital(name[|name| - 1])
    requires name == BALANCE_HEADING || name == SOURCES_HEADING
    ensures IsSectionName(name, u)
  {
    hide Plain, Letters, Upper, Usable;
    UpperPlain(name, u);
    Kept(name);
  }

  lemma TableStays()
    ensures Letters(" TABLE") == " TABLE"
  {
    var tail := " TABLE";
    WordStays("TABLE", "");
    assert "TABLE" + "" == "TABLE" && tail[1..] == "TABLE" && OtherRun(tail) == 1;
  }

  lemma Kept(s: string)
    requires s != "" && !IsSpace(s[0]) && !IsSpace(s[|s| - 1])
    ensures Strip(s) == s
  {
  }

  lemma MarksBefore(name: string, u: Unicode)
    requires Usable(u)
    ensures IsSectionName("## " + name, u) == IsSectionName(name, u)
  {
    hide IsSectionName;
    NameIgnoresFront(' ', name, u);
    NameIgnoresFront('#', " " + name, u);
    NameIgnoresFront('#', "#" + (" " + name), u);
    assert "#" + (" " + name) == "# " + name && "#" + ("# " + name) == "## " + name;
  }

  // ------------------------------------------------------------------
  // Stripping a text and testing its lines
  // ------------------------------------------------------------------

  // A test that no white space around a line can change, and no empty line
  // passes.
  ghost predicate LineTest(p: string -> bool) {
    !p("") && forall c: char, l: string :: IsSpace(c) ==> p([c] + l) == p(l) && p(l + [c]) == p(l)
  }

  ghost predicate NoLine(lines: seq<string>, p: string -> bool) {
    forall i :: 0 <= i < |lines| ==> !p(lines[i])
  }

  lemma PutKeepsTest(c: char, lines: seq<string>, p: string -> bool)
    requires LineTest(p) && IsSpace(c) && lines != []
    ensures NoLine(PutChar(c, lines), p) <==> NoLine(lines, p)
  {
    var more := PutChar(c, lines);
    if c == '\n' {
      assert forall i :: 0 <= i < |lines| ==> more[i + 1] == lines[i];
    } else {
      assert more[0] == [c] + lines[0] && p(more[0]) == p(lines[0]);
      assert forall i :: 0 < i < |lines| ==> more[i] == lines[i];
    }
  }

  lemma AddKeepsTest(lines: seq<string>, c: char, p: string -> bool)
    requires LineTest(p) && IsSpace(c) && lines != []
    ensures NoLine(AddChar(lines, c), p) <==> NoLine(lines, p)
  {
    var more, n := AddChar(lines, c), |lines| - 1;
    assert forall i :: 0 <= i < n ==> more[i] == lines[i];
    if c == '\n' {
      assert more[n] == lines[n] && more[n + 1] == "";
    } else {
      assert more[n] == lines[n] + [c] && p(more[n]) == p(lines[n]);
    }
  }

  lemma {:induction false} StripLeftKeepsTest(s: string, p: string -> bool)
    requires LineTest(p)
    ensures NoLine(SplitNl(StripLeft(s)), p) <==> NoLine(SplitNl(s), p)
  {
    if s != "" && IsSpace(s[0]) {
      hide LineTest, NoLine;
      PutKeepsTest(s[0], SplitNl(s[1..]), p);
      StripLeftKeepsTest(s[1..], p);
    }
  }

  lemma {:induction false} StripRightKeepsTest(s: string, p: string -> bool)
    requires LineTest(p)
    ensures NoLine(SplitNl(StripRight(s)), p) <==> NoLine(SplitNl(s), p)
  {
    if s != "" && IsSpace(s[|s| - 1]) {
      hide LineTest, NoLine, SplitNl, AddChar;
      var t, c := s[..|s| - 1], s[|s| - 1];
      SplitSnoc(t, c);
      assert t + [c] == s;
      AddKeepsTest(SplitNl(t), c, p);
      StripRightKeepsTest(t, p);
    }
  }

  // The lines of a cleaned passage pass a test exactly when the kept lines do.
  lemma CleanKeepsTest(text: string, u: Unicode, p: string -> bool)
    requires Usable(u) && LineTest(p)
    ensures NoLine(SplitNl(CleanPassage(text, u)), p) <==> NoLine(KeptLines(SplitLines(text), u), p)
  {
    var kept := KeptLines(SplitLines(text), u);
    KeptLinesAre(SplitLines(text), u);
    if kept != [] {
      hide LineTest, NoLine, NoFenceRun, IsSectionName, KeptLines, SplitNl, StripLeft, StripRight;
      LinesOfOneLiners(kept);
      SplitJoin(kept);
      StripLeftKeepsTest(Join(kept), p);
      StripRightKeepsTest(StripLeft(Join(kept)), p);
    }
  }

  // ------------------------------------------------------------------
  // No line of a cleaned passage reads as a section name
  // ------------------------------------------------------------------

  ghost predicate Unnamed(lines: seq<string>, u: Unicode) {
    forall i :: 0 <= i < |lines| ==> !IsSectionName(lines[i], u)
  }

  function NameTest(u: Unicode): string -> bool {
    (line: string) => IsSectionName(line, u)
  }

  lemma NameTestIsLineTest(u: Unicode)
    requires Usable(u)
    ensures LineTest(NameTest(u))
  {
    EmptyIsNoName(u);
    hide IsSectionName, Usable;
    var p := NameTest(u);
    forall c: char, l: string | IsSpace(c) ensures p([c] + l) == p(l) && p(l + [c]) == p(l) {
      NameIgnoresFront(c, l, u);
      NameIgnoresBack(l, c, u);
    }
  }

  lemma EmptyIsNoName(u: Unicode)
    ensures !IsSectionName("", u)
  {
  }

  lemma NoLineIsAHeading(text: string, u: Unicode)
    requires Usable(u)
    ensures Unnamed(SplitNl(CleanPassage(text, u)), u)
  {
    hide IsSectionName, Usable, LineTest, SplitNl, CleanPassage, KeptLines;
    NameTestIsLineTest(u);
    KeptLinesAre(SplitLines(text), u);
    CleanKeepsTest(text, u, NameTest(u));
  }
}
