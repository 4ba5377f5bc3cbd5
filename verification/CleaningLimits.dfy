// Where cleaning keeps less than its documentation says: exactly when a label
// still holds a fence, a passage still opens a heading, and a label holds a
// table pipe, each with an input on which it does.
module CleaningLimits {
  import opened Texts
  import opened PassageText
  import opened PassageLines

  // Unicode tables that change nothing, for the concrete inputs.
  const PLAIN := Unicode(s => s, c => [c])

  lemma PlainIsUsable()
    ensures Usable(PLAIN)
  {
  }

  // ------------------------------------------------------------------
  // Fences in labels
  // ------------------------------------------------------------------

  // How many of the given mark follow, any white space between them ignored.
  function WideChain(s: string, c: char): nat {
    if s == "" then 0
    else if s[0] == c then 1 + WideChain(s[1..], c)
    else if IsSpace(s[0]) then WideChain(s[1..], c)
    else 0
  }

  // No mark starts a run of three, line breaks between marks ignored too.
  ghost predicate NoWideRun(s: string) {
    forall i :: 0 <= i < |s| && IsFence(s[i]) ==> WideChain(s[i..], s[i]) < 3
  }

  lemma NoWideRunCons(s: string)
    requires s != ""
    ensures NoWideRun(s) <==> NoWideRun(s[1..]) && (IsFence(s[0]) ==> WideChain(s[1..], s[0]) < 2)
  {
    var t := s[1..];
    assert WideChain(s, s[0]) == 1 + WideChain(t, s[0]);
    hide WideChain;
    assert s[0..] == s;
    forall i | 0 <= i < |t| ensures t[i..] == s[i + 1..] && t[i] == s[i + 1] {
    }
    if NoWideRun(s) {
      assert forall i :: 0 <= i < |t| && IsFence(t[i]) ==> WideChain(s[i + 1..], s[i + 1]) < 3;
    }
    if NoWideRun(t) && (IsFence(s[0]) ==> WideChain(t, s[0]) < 2) {
      forall i | 0 <= i < |s| && IsFence(s[i]) ensures WideChain(s[i..], s[i]) < 3 {
        if i > 0 { assert t[i - 1..] == s[i..]; }
      }
    }
  }

  lemma {:induction false} WideSkip(s: string, c: char)
    requires IsFence(c)
    ensures WideChain(s[SpaceRun(s)..], c) == WideChain(s, c)
  {
    if s != "" && IsSpace(s[0]) {
      WideSkip(s[1..], c);
      assert s[SpaceRun(s)..] == s[1..][SpaceRun(s[1..])..];
    } else {
      assert s[0..] == s;
    }
  }

  lemma {:induction false} NoWideRunSkip(s: string)
    ensures NoWideRun(s[SpaceRun(s)..]) <==> NoWideRun(s)
  {
    if s != "" && IsSpace(s[0]) {
      NoWideRunSkip(s[1..]);
      NoWideRunCons(s);
      assert s[SpaceRun(s)..] == s[1..][SpaceRun(s[1..])..];
    } else {
      assert s[0..] == s;
    }
  }

  // One-spacing turns any white space between marks into what a run ignores.
  lemma {:induction false} ChainOfOneSpaced(s: string, c: char)
    requires IsFence(c)
    ensures Chain(OneSpaced(s), c).0 == WideChain(s, c)
    decreases |s|
  {
    if s != "" {
      var r := OneSpaced(s);
      if IsSpace(s[0]) {
        WideSkip(s, c);
        ChainOfOneSpaced(s[SpaceRun(s)..], c);
        assert r[0] == ' ' && r[1..] == OneSpaced(s[SpaceRun(s)..]);
      } else {
        ChainOfOneSpaced(s[1..], c);
        assert r[0] == s[0] && r[1..] == OneSpaced(s[1..]);
      }
    }
  }

  lemma {:induction false} OneSpacedRunIff(s: string)
    ensures NoFenceRun(OneSpaced(s)) <==> NoWideRun(s)
    decreases |s|
  {
    if s != "" {
      var r := OneSpaced(s);
      NoFenceRunCons(r);
      if IsSpace(s[0]) {
        OneSpacedRunIff(s[SpaceRun(s)..]);
        NoWideRunSkip(s);
        assert r[0] == ' ' && r[1..] == OneSpaced(s[SpaceRun(s)..]);
      } else {
        OneSpacedRunIff(s[1..]);
        NoWideRunCons(s);
        assert r[0] == s[0] && r[1..] == OneSpaced(s[1..]);
        if IsFence(s[0]) { ChainOfOneSpaced(s[1..], s[0]); }
      }
    }
  }

  // A label holds no run of three marks exactly when the cleaned title has
  // none even across its line breaks.
  lemma LabelFenceIff(text: string, u: Unicode)
    ensures NoFenceRun(CleanLabel(text, u)) <==> NoWideRun(CleanPassage(Slashed(text), u))
  {
    hide NoFenceRun, NoWideRun, CleanPassage, OneSpaced;
    var clean := CleanPassage(Slashed(text), u);
    OneSpacedRunIff(clean);
    StripKeepsRuns(OneSpaced(clean));
  }

  lemma OneMarkIsHarmless()
    ensures Harmless(">", PLAIN)
  {
    assert ">"[0..] == ">" && ">"[1..] == "";
    assert Upper(">", PLAIN) == ">" && Letters(">") == " ";
    assert " "[1..] == "" && Strip(" ") == "";
  }

  // Three lines of one mark each make a label that is a spaced run of three.
  lemma LabelWithFence()
    ensures Usable(PLAIN)
    ensures CleanLabel(">\n>\n>", PLAIN) == "> > >" && !NoFenceRun("> > >")
  {
    PlainIsUsable();
    hide Usable;
    MarksLabel(">\n>\n>", "> > >");
    SpacedRun();
  }

  lemma MarksLabel(text: string, spaced: string)
    requires text == ">\n>\n>" && spaced == "> > >"
    ensures CleanLabel(text, PLAIN) == spaced
  {
    MarksStay(text);
    MarksOneSpaced(text);
    assert Slashed(text) == text;
    hide CleanPassage, OneSpaced, Slashed;
    Kept(spaced);
  }

  lemma MarksStay(text: string)
    requires text == ">\n>\n>"
    ensures CleanPassage(text, PLAIN) == text
  {
    MarkLines(text);
    OneMarkIsHarmless();
    Kept(text);
    assert ">" + ("\n" + (">" + ("\n" + ">"))) == text;
    hide *;
    HarmlessTextStays(text, PLAIN);
    JoinThree(">");
  }

  lemma JoinThree(m: string)
    ensures Join([m, m, m]) == m + ("\n" + (m + ("\n" + m)))
  {
    var two, three := [m, m], [m, m, m];
    assert three[1..] == two && two[1..] == [m];
    assert Join(two) == m + ("\n" + Join([m])) && Join([m]) == m;
  }

  lemma MarkLines(text: string)
    requires text == ">\n>\n>"
    ensures SplitLines(text) == [">", ">", ">"]
  {
    var mark := ">";
    assert NoBreaks(mark) && mark + ("\n" + (mark + ("\n" + mark))) == text;
    hide *;
    ThreeLines(mark);
  }

  lemma ThreeLines(m: string)
    requires m != "" && NoBreaks(m)
    ensures SplitLines(m + ("\n" + (m + ("\n" + m)))) == [m, m, m]
  {
    assert IsBreak('\n') && m + "\n" != "" && ("\n" + m)[0] == '\n';
    hide *;
    OneLineOnly(m);
    LineThen(m, '\n', m);
    LineThen(m, '\n', m + ("\n" + m));
  }

  lemma MarkThen(rest: string)
    ensures OneSpaced(">" + rest) == ">" + OneSpaced(rest)
  {
    assert (">" + rest)[1..] == rest;
  }

  lemma BreakThen(rest: string)
    requires rest != "" && !IsSpace(rest[0])
    ensures OneSpaced("\n" + rest) == " " + OneSpaced(rest)
  {
    var s := "\n" + rest;
    assert s[1..] == rest && SpaceRun(rest) == 0 && SpaceRun(s) == 1;
  }

  lemma MarksOneSpaced(text: string)
    requires text == ">\n>\n>"
    ensures OneSpaced(text) == "> > >"
  {
    var one := ">" + "";
    var two := ">" + ("\n" + one);
    MarkThen("");
    BreakThen(one);
    MarkThen("\n" + one);
    BreakThen(two);
    MarkThen("\n" + two);
    assert text == ">" + ("\n" + two);
  }

  lemma SpacedRun()
    ensures !NoFenceRun("> > >")
  {
    var one := ">" + "";
    var two := ">" + (" " + one);
    var three := ">" + (" " + two);
    ChainMark("");
    ChainSpace(one);
    ChainMark(" " + one);
    ChainSpace(two);
    ChainMark(" " + two);
    hide Chain;
    assert three == "> > >" && three[0..] == three && three[0] == '>';
  }

  lemma ChainMark(rest: string)
    ensures Chain(">" + rest, '>').0 == 1 + Chain(rest, '>').0
    ensures Chain("", '>').0 == 0
  {
    assert (">" + rest)[1..] == rest;
  }

  lemma ChainSpace(rest: string)
    ensures Chain(" " + rest, '>').0 == Chain(rest, '>').0
  {
    assert (" " + rest)[1..] == rest;
  }

  // ------------------------------------------------------------------
  // Headings in passages
  // ------------------------------------------------------------------

  predicate OpensHeading(line: string) {
    var k := SpaceRun(line);
    k < |line| && line[k] == '#'
  }

  // Behind the first run of number signs and the white space after it stands
  // another number sign.
  predicate SecondMarks(line: string) {
    var indent := SpaceRun(line);
    var marks := MarkRun(line[indent..]);
    var rest := line[indent + marks..];
    marks > 0 && SpaceRun(rest) < |rest| && rest[SpaceRun(rest)] == '#'
  }

  lemma {:induction false} SpaceRunIs(w: string, x: string)
    requires Blank(w)
    ensures SpaceRun(w + x) == |w| + SpaceRun(x)
  {
    if w == "" {
      assert w + x == x;
    } else {
      SpaceRunIs(w[1..], x);
      assert (w + x)[1..] == w[1..] + x;
    }
  }

  lemma OpensAfterBlank(w: string, x: string)
    requires Blank(w)
    ensures OpensHeading(w + x) <==> OpensHeading(x)
  {
    SpaceRunIs(w, x);
    hide SpaceRun, Blank;
  }

  lemma UnopenedHasNoMarks(line: string)
    ensures OpensHeading(line) <==> MarkRun(line[SpaceRun(line)..]) > 0
  {
    hide SpaceRun;
  }

  // One run of marks goes, so the line still opens a heading exactly when a
  // second run follows.
  lemma StrippedOpensIff(line: string)
    ensures OpensHeading(StripMarks(line)) <==> SecondMarks(line)
  {
    hide SpaceRun, MarkRun, StripMarks, OpensHeading;
    var indent, marks, cut := StripMarksParts(line);
    UnopenedHasNoMarks(line);
    if marks == 0 {
      assert StripMarks(line) == line by { assert line == line[..indent] + line[indent..]; }
    } else {
      OpensAfterBlank(line[..indent], line[cut..]);
      RestOpens(line, indent + marks);
    }
  }

  lemma RestOpens(line: string, from: nat)
    requires from <= |line|
    ensures var rest := line[from..];
      OpensHeading(line[from + SpaceRun(rest)..]) <==> SpaceRun(rest) < |rest| && rest[SpaceRun(rest)] == '#'
  {
    var rest := line[from..];
    var k := SpaceRun(rest);
    var tail := line[from + k..];
    assert tail == rest[k..];
    assert rest == rest[..k] + tail;
    if k < |rest| { assert tail[0] == rest[k]; }
  }

  // Cleaning a line twice changes it again under the same condition.
  lemma StripMarksTwiceIff(line: string)
    ensures StripMarks(StripMarks(line)) == StripMarks(line) <==> !SecondMarks(line)
  {
    StrippedOpensIff(line);
    UnchangedIff(StripMarks(line));
  }

  lemma UnchangedIff(line: string)
    ensures StripMarks(line) == line <==> !OpensHeading(line)
  {
    hide SpaceRun, MarkRun, StripMarks, OpensHeading;
    var indent, marks, cut := StripMarksParts(line);
    UnopenedHasNoMarks(line);
    if marks == 0 {
      assert line == line[..indent] + line[indent..];
    } else {
      assert |StripMarks(line)| < |line|;
    }
  }

  function HeadingTest(): string -> bool {
    (line: string) => OpensHeading(line)
  }

  lemma {:induction false} OpensBeforeSpace(l: string, c: char)
    requires IsSpace(c)
    ensures OpensHeading(l + [c]) <==> OpensHeading(l)
  {
    if l == "" {
      assert l + [c] == [c] && [c][1..] == "";
    } else {
      assert (l + [c])[1..] == l[1..] + [c];
      if IsSpace(l[0]) { OpensBeforeSpace(l[1..], c); }
    }
  }

  lemma HeadingTestIsLineTest()
    ensures LineTest(HeadingTest())
  {
    var p := HeadingTest();
    assert !p("");
    hide OpensHeading;
    forall c: char, l: string | IsSpace(c) ensures p([c] + l) == p(l) && p(l + [c]) == p(l) {
      OpensAfterBlank([c], l);
      OpensBeforeSpace(l, c);
    }
  }

  ghost predicate KeptPasses(raw: string, u: Unicode, p: string -> bool) {
    !IsSectionName(CleanLine(raw, u), u) && p(CleanLine(raw, u))
  }

  ghost predicate NonePasses(lines: seq<string>, u: Unicode, p: string -> bool) {
    forall i :: 0 <= i < |lines| ==> !KeptPasses(lines[i], u, p)
  }

  lemma NonePassesSnoc(front: seq<string>, last: string, u: Unicode, p: string -> bool)
    ensures NonePasses(front + [last], u, p) <==> NonePasses(front, u, p) && !KeptPasses(last, u, p)
  {
    hide KeptPasses;
    var lines := front + [last];
    assert lines[|front|] == last && forall i :: 0 <= i < |front| ==> lines[i] == front[i];
  }

  lemma {:induction false} KeptTestIff(lines: seq<string>, u: Unicode, p: string -> bool)
    ensures NoLine(KeptLines(lines, u), p) <==> NonePasses(lines, u, p)
  {
    if lines == [] {
      assert KeptLines(lines, u) == [];
    } else {
      hide *;
      var front, last := lines[..|lines| - 1], lines[|lines| - 1];
      assert lines == front + [last];
      KeptTestIff(front, u, p);
      KeptStep(front, last, u, p);
      NonePassesSnoc(front, last, u, p);
    }
  }

  lemma KeptStep(front: seq<string>, last: string, u: Unicode, p: string -> bool)
    ensures NoLine(KeptLines(front + [last], u), p) <==> NoLine(KeptLines(front, u), p) && !KeptPasses(last, u, p)
  {
    hide IsSectionName, CleanLine, KeptLines, NoLine;
    KeptSnoc(front, last, u);
    OneMoreLine(KeptLines(front, u), CleanLine(last, u), p);
  }

  lemma OneMoreLine(lines: seq<string>, line: string, p: string -> bool)
    ensures NoLine(lines + [line], p) <==> NoLine(lines, p) && !p(line)
    ensures lines + [] == lines
  {
    var more := lines + [line];
    assert more[|lines|] == line && forall i :: 0 <= i < |lines| ==> more[i] == lines[i];
  }

  // A line of the text that is kept although it opens a heading.
  ghost predicate KeptHeading(raw: string, u: Unicode) {
    !IsSectionName(CleanLine(raw, u), u) && SecondMarks(CutFences(u.nfkc(raw)))
  }

  lemma KeptHeadingPasses(raw: string, u: Unicode)
    ensures KeptPasses(raw, u, HeadingTest()) <==> KeptHeading(raw, u)
  {
    hide IsSectionName, SecondMarks, CutFences, StripMarks, OpensHeading;
    StrippedOpensIff(CutFences(u.nfkc(raw)));
  }

  // A cleaned passage opens a heading of its own exactly when one of its kept
  // lines had a second run of marks.
  lemma PassageHeadingIff(text: string, u: Unicode)
    requires Usable(u)
    ensures (exists i :: 0 <= i < |SplitNl(CleanPassage(text, u))| && OpensHeading(SplitNl(CleanPassage(text, u))[i]))
      <==> exists i :: 0 <= i < |SplitLines(text)| && KeptHeading(SplitLines(text)[i], u)
  {
    HeadingTestIsLineTest();
    CleanKeepsTest(text, u, HeadingTest());
    KeptTestIff(SplitLines(text), u, HeadingTest());
    forall i | 0 <= i < |SplitLines(text)|
      ensures KeptPasses(SplitLines(text)[i], u, HeadingTest()) <==> KeptHeading(SplitLines(text)[i], u)
    {
      KeptHeadingPasses(SplitLines(text)[i], u);
    }
    hide Usable, LineTest, CleanPassage, KeptLines, KeptHeading, KeptPasses, OpensHeading, SplitNl, SplitLines;
    var lines := SplitNl(CleanPassage(text, u));
    assert forall i :: 0 <= i < |lines| ==> HeadingTest()(lines[i]) == OpensHeading(lines[i]);
  }

  // Two runs of marks with a space between them: one cleaning leaves a
  // heading, a second one takes it away.
  lemma PassageWithHeading()
    ensures Usable(PLAIN)
    ensures CleanPassage("# # x", PLAIN) == "# x" && OpensHeading("# x")
    ensures CleanPassage("# x", PLAIN) == "x"
  {
    PlainIsUsable();
    hide Usable;
    MarksBeforeX();
    XIsNoName();
    Headed();
    XLines();
    hide StripMarks, IsSectionName, CleanPassage, OpensHeading, PlainLine;
    OneLineStays("# # x", "# x");
    OneLineStays("# x", "x");
  }

  predicate PlainLine(s: string) {
    s != "" && !IsSpace(s[0]) && !IsSpace(s[|s| - 1]) && forall i :: 0 <= i < |s| ==> !IsBreak(s[i]) && !IsFence(s[i])
  }

  lemma XLines()
    ensures PlainLine("# # x") && PlainLine("# x") && PlainLine("x")
  {
  }

  // One line that holds no fence and no section name.
  lemma OneLineStays(raw: string, line: string)
    requires PlainLine(raw) && PlainLine(line) && StripMarks(raw) == line && !IsSectionName(line, PLAIN)
    ensures CleanPassage(raw, PLAIN) == line
  {
    hide StripMarks, IsSectionName, CleanPassage, NoFenceRun, CutFences;
    OneLineOnly(raw);
    NoFenceIn(raw);
    CutUnchangedIff(raw);
    OneLineCleaned(raw, line);
  }

  lemma OneLineCleaned(raw: string, line: string)
    requires SplitLines(raw) == [raw] && CutFences(raw) == raw && StripMarks(raw) == line
    requires !IsSectionName(line, PLAIN) && line != "" && !IsSpace(line[0]) && !IsSpace(line[|line| - 1])
    ensures CleanPassage(raw, PLAIN) == line
  {
    assert CleanLine(raw, PLAIN) == line;
    assert KeptLines([], PLAIN) == [] && [] + [raw] == [raw] && [] + [line] == [line];
    hide StripMarks, IsSectionName, CutFences, SplitLines, CleanLine, KeptLines;
    KeptSnoc([], raw, PLAIN);
    Kept(line);
  }

  lemma NoFenceIn(s: string)
    requires forall i :: 0 <= i < |s| ==> !IsFence(s[i])
    ensures NoFenceRun(s)
  {
  }

  // The letter alone is no section name, with or without a mark before it.
  lemma XIsNoName()
    ensures !IsSectionName("x", PLAIN) && !IsSectionName("# x", PLAIN)
  {
    var x := "x";
    assert x[1..] == "" && Upper(x, PLAIN) == x && Letters(x) == " ";
    assert " "[1..] == "" && Strip(" ") == "";
    PlainIsUsable();
    assert !IsSectionName(x, PLAIN);
    hide IsSectionName, Usable;
    NameIgnoresFront(' ', x, PLAIN);
    NameIgnoresFront('#', " " + x, PLAIN);
    assert "#" + (" " + x) == "# x";
  }

  lemma Headed()
    ensures OpensHeading("# x")
  {
  }

  lemma MarksBeforeX()
    ensures StripMarks("# # x") == "# x" && StripMarks("# x") == "x"
  {
    var a, b, c := "# # x", "# x", "x";
    assert a[1..] == " # x" && " # x"[1..] == b && b[1..] == " x" && " x"[1..] == c;
    assert SpaceRun(a) == 0 && a[0..] == a && MarkRun(a[1..]) == 0 && MarkRun(a) == 1;
    assert SpaceRun(" # x") == 1 by { assert SpaceRun(b) == 0; }
    assert SpaceRun(b) == 0 && b[0..] == b && MarkRun(b[1..]) == 0 && MarkRun(b) == 1;
    assert SpaceRun(" x") == 1 by { assert SpaceRun(c) == 0; }
    assert a[..0] + b == b && b[..0] + c == c;
  }

  // ------------------------------------------------------------------
  // Pipes in labels
  // ------------------------------------------------------------------

  const PIPE := '|'

  lemma {:induction false} WordingHasPipe(s: string)
    ensures PIPE in Wording(s) <==> PIPE in s
  {
    if s != "" { WordingHasPipe(s[1..]); }
  }

  lemma {:induction false} SolidHasPipe(s: string)
    ensures PIPE in Solid(s) <==> PIPE in s
  {
    if s != "" { SolidHasPipe(s[1..]); }
  }

  lemma StripHasPipe(s: string)
    ensures PIPE in Strip(s) <==> PIPE in s
  {
    var start, end := StripIs(s);
    Thirds(s, start, end);
    assert PIPE !in s[..start] && PIPE !in s[end..];
    hide Strip;
  }

  lemma MarksHavePipe(line: string)
    ensures PIPE in StripMarks(line) <==> PIPE in line
  {
    var indent, marks, cut := StripMarksIs(line);
    hide StripMarks;
    assert line == line[..indent] + (line[indent..cut] + line[cut..]);
    forall i | indent <= i < cut ensures line[i] != PIPE {
      if i >= indent + marks { assert line[i] == line[indent + marks..cut][i - indent - marks]; }
    }
    assert PIPE !in line[indent..cut];
  }

  // Cleaning a line keeps a pipe and makes none.
  lemma LineHasPipe(raw: string, u: Unicode)
    ensures PIPE in CleanLine(raw, u) <==> PIPE in u.nfkc(raw)
  {
    var s := u.nfkc(raw);
    CutKeepsWording(s);
    WordingHasPipe(s);
    WordingHasPipe(CutFences(s));
    MarksHavePipe(CutFences(s));
  }

  function PipeTest(): string -> bool {
    (line: string) => PIPE in line
  }

  lemma {:induction false} JoinHasPipe(lines: seq<string>)
    ensures PIPE !in Join(lines) <==> NoLine(lines, PipeTest())
  {
    if |lines| > 1 {
      JoinHasPipe(lines[1..]);
      assert forall i :: 0 < i < |lines| ==> lines[1..][i - 1] == lines[i];
      assert NoLine(lines, PipeTest()) <==> PIPE !in lines[0] && NoLine(lines[1..], PipeTest());
    } else if |lines| == 1 {
      assert NoLine(lines, PipeTest()) <==> !PipeTest()(lines[0]);
    }
  }

  // A line of the text that is kept and holds a pipe after normalisation.
  ghost predicate KeptPipe(raw: string, u: Unicode) {
    !IsSectionName(CleanLine(raw, u), u) && PIPE in u.nfkc(raw)
  }

  // Pipes are replaced before normalisation, so a label holds one exactly
  // when normalising a kept line makes one.
  lemma LabelPipeIff(text: string, u: Unicode)
    ensures PIPE in CleanLabel(text, u) <==>
      exists i :: 0 <= i < |SplitLines(Slashed(text))| && KeptPipe(SplitLines(Slashed(text))[i], u)
  {
    var lines := SplitLines(Slashed(text));
    forall i | 0 <= i < |lines| ensures KeptPasses(lines[i], u, PipeTest()) <==> KeptPipe(lines[i], u) {
      LineHasPipe(lines[i], u);
    }
    KeptTestIff(lines, u, PipeTest());
    hide KeptLines, KeptPasses, KeptPipe;
    CleanHasPipe(Slashed(text), u);
    LabelHasPipe(text, u);
  }

  lemma CleanHasPipe(text: string, u: Unicode)
    ensures PIPE !in CleanPassage(text, u) <==> NoLine(KeptLines(SplitLines(text), u), PipeTest())
  {
    JoinHasPipe(KeptLines(SplitLines(text), u));
    StripHasPipe(Join(KeptLines(SplitLines(text), u)));
  }

  lemma LabelHasPipe(text: string, u: Unicode)
    ensures PIPE in CleanLabel(text, u) <==> PIPE in CleanPassage(Slashed(text), u)
  {
    hide CleanPassage, Strip, OneSpaced, Solid;
    var clean := CleanPassage(Slashed(text), u);
    OneSpacedKeepsSolid(clean);
    SolidHasPipe(clean);
    SolidHasPipe(OneSpaced(clean));
    StripHasPipe(OneSpaced(clean));
  }

  // A full-width vertical line, which normalisation turns into a pipe.
  const WIDE_BAR := '\U{ff5c}'

  function Narrowed(s: string): string {
    seq(|s|, i requires 0 <= i < |s| => if s[i] == WIDE_BAR then PIPE else s[i])
  }

  const NARROWING := Unicode((s: string) => Narrowed(s), (c: char) => [c])

  lemma NarrowingIsUsable()
    ensures Usable(NARROWING)
  {
  }

  lemma LabelWithPipe()
    ensures Usable(NARROWING)
    ensures PIPE in CleanLabel([WIDE_BAR], NARROWING)
  {
    NarrowingIsUsable();
    hide Usable;
    var raw := [WIDE_BAR];
    assert Slashed(raw) == raw;
    OneLineOnly(raw);
    assert Narrowed(raw) == [PIPE];
    BarLine(raw);
    LabelPipeIff(raw, NARROWING);
    assert KeptPipe(SplitLines(Slashed(raw))[0], NARROWING);
  }

  lemma BarLine(raw: string)
    requires raw == [WIDE_BAR]
    ensures CleanLine(raw, NARROWING) == [PIPE] && !IsSectionName([PIPE], NARROWING)
  {
    var bar := [PIPE];
    assert Narrowed(raw) == bar && bar[1..] == "" && bar[0..] == bar;
    assert CutFences(bar) == bar;
    assert SpaceRun(bar) == 0 && MarkRun(bar) == 0 && StripMarks(bar) == bar;
    assert Upper(bar, NARROWING) == bar && Letters(bar) == " ";
    assert " "[1..] == "" && Strip(" ") == "";
  }
}
