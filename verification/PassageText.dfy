// Cleaning retrieved text for the chat prompt. NFKC normalisation and Unicode
// upper-casing are parameters; what is assumed of them is in Usable.
module PassageText {
  import opened Texts

  const BALANCE_HEADING := "BALANCE TABLE"
  const SOURCES_HEADING := "SOURCES"

  // nfkc introduces no line break; upper works character by character and
  // leaves capitals, number signs and white space alone.
  datatype Unicode = Unicode(nfkc: string -> string, upper: char -> string)

  ghost predicate Usable(u: Unicode) {
    && (forall s :: NoBreaks(s) ==> NoBreaks(u.nfkc(s)))
    && (forall c :: IsCapital(c) || c == '#' || IsSpace(c) ==> u.upper(c) == [c])
  }

  predicate IsCapital(c: char) {
    'A' <= c <= 'Z'
  }

  // The line boundaries of str.splitlines.
  predicate IsBreak(c: char) {
    || '\n' <= c <= '\r' || '\U{1c}' <= c <= '\U{1e}' || c == '\U{85}' || c == '\U{2028}' || c == '\U{2029}'
  }

  // The line boundaries are these characters and no other.
  lemma BreaksAre(c: char)
    ensures IsBreak(c) <==> c in "\n\U{b}\U{c}\r\U{1c}\U{1d}\U{1e}\U{85}\U{2028}\U{2029}"
    ensures IsBreak(c) ==> IsSpace(c)
  {
  }

  predicate NoBreaks(s: string) {
    forall i :: 0 <= i < |s| ==> !IsBreak(s[i])
  }

  function LineEnd(s: string): (k: nat)
    ensures k <= |s| && NoBreaks(s[..k]) && (k < |s| ==> IsBreak(s[k]))
  {
    if s == "" || IsBreak(s[0]) then 0 else
    var k := 1 + LineEnd(s[1..]);
    assert forall i :: 0 < i < k ==> s[..k][i] == s[1..][..k - 1][i - 1];
    k
  }

  // str.splitlines: no empty line after a final break; CR LF is one break.
  function SplitLines(s: string): (lines: seq<string>)
    ensures forall i :: 0 <= i < |lines| ==> NoBreaks(lines[i])
    decreases |s|
  {
    if s == "" then [] else
    var k := LineEnd(s);
    if k == |s| then [s[..k]]
    else if k + 1 < |s| && s[k] == '\r' && s[k + 1] == '\n' then [s[..k]] + SplitLines(s[k + 2..])
    else [s[..k]] + SplitLines(s[k + 1..])
  }

  lemma {:induction false} LineEndIs(line: string, b: char, rest: string)
    requires NoBreaks(line) && IsBreak(b)
    ensures LineEnd(line + ([b] + rest)) == |line|
  {
    var s := line + ([b] + rest);
    if line != "" {
      LineEndIs(line[1..], b, rest);
      assert s[1..] == line[1..] + ([b] + rest) && s[0] == line[0];
    }
  }

  // A line ends at the first break, CR LF being one; what follows is split on
  // its own.
  lemma LineThen(line: string, b: char, rest: string)
    requires NoBreaks(line) && IsBreak(b)
    ensures !(b == '\r' && rest != "" && rest[0] == '\n') ==> SplitLines(line + ([b] + rest)) == [line] + SplitLines(rest)
    ensures b == '\r' && rest != "" && rest[0] == '\n' ==>
      SplitLines(line + ([b] + rest)) == [line] + SplitLines(rest[1..])
  {
    LineEndIs(line, b, rest);
    hide LineEnd, NoBreaks;
    var s := line + ([b] + rest);
    assert s[|line|] == b && s[..|line|] == line && s[|line| + 1..] == rest;
    if rest != "" { assert s[|line| + 1] == rest[0] && s[|line| + 2..] == rest[1..]; }
  }

  // Without a break a text is one line, and an empty one none.
  lemma {:induction false} OneLineOnly(line: string)
    requires NoBreaks(line)
    ensures SplitLines(line) == if line == "" then [] else [line]
  {
    if line != "" {
      NoBreakEnds(line);
      assert line[..|line|] == line;
    }
  }

  lemma {:induction false} NoBreakEnds(raw: string)
    requires NoBreaks(raw)
    ensures LineEnd(raw) == |raw|
  {
    if raw != "" { NoBreakEnds(raw[1..]); }
  }

  // ------------------------------------------------------------------
  // Fence marks
  // ------------------------------------------------------------------

  predicate IsFence(c: char) {
    c == '<' || c == '>'
  }

  // How many of the given mark follow in a row, spaces and tabs between them
  // ignored, and how far they reach.
  function Chain(s: string, c: char): (r: (nat, nat))
    ensures r.1 <= |s| && r.0 <= r.1
  {
    if s == "" then (0, 0)
    else if s[0] == c then var (n, k) := Chain(s[1..], c); (n + 1, k + 1)
    else if s[0] == ' ' || s[0] == '\t' then var (n, k) := Chain(s[1..], c); if n == 0 then (0, 0) else (n, k + 1)
    else (0, 0)
  }

  // Every maximal run of three or more of one mark is cut to a single mark.
  function CutFences(s: string): string
    decreases |s|
  {
    if s == "" then ""
    else if IsFence(s[0]) && Chain(s[1..], s[0]).0 >= 2 then
      [s[0]] + CutFences(s[1 + Chain(s[1..], s[0]).1..])
    else [s[0]] + CutFences(s[1..])
  }

  ghost predicate NoTriple(s: string) {
    forall i :: 0 <= i < |s| - 2 ==> !(IsFence(s[i]) && s[i] == s[i + 1] == s[i + 2])
  }

  // Past the end of a run there is no further mark of it.
  lemma {:induction false} ChainEnds(s: string, c: char)
    requires c != ' ' && c != '\t'
    ensures Chain(s[Chain(s, c).1..], c) == (0, 0)
  {
    if s != "" && (s[0] == c || s[0] == ' ' || s[0] == '\t') {
      ChainEnds(s[1..], c);
      var k := Chain(s[1..], c).1;
      assert s[k + 1..] == s[1..][k..];
    }
  }

  // Cutting never makes a run longer, and leaves none of three.
  lemma {:induction false} CutChain(s: string, c: char)
    requires IsFence(c)
    ensures Chain(CutFences(s), c).0 <= Chain(s, c).0 && Chain(CutFences(s), c).0 <= 2
    decreases |s|
  {
    if s == "" {
    } else if IsFence(s[0]) && Chain(s[1..], s[0]).0 >= 2 {
      var rest := s[1 + Chain(s[1..], s[0]).1..];
      CutChain(rest, c);
      ChainEnds(s[1..], s[0]);
      assert rest == s[1..][Chain(s[1..], s[0]).1..];
      assert CutFences(s)[1..] == CutFences(rest);
    } else {
      CutChain(s[1..], c);
      assert CutFences(s)[1..] == CutFences(s[1..]) && CutFences(s)[0] == s[0];
    }
  }

  lemma ThreeInARow(s: string, c: char)
    requires |s| >= 3 && s[0] == s[1] == s[2] == c
    ensures Chain(s, c).0 >= 3
  {
    var t := s[1..];
    var w := t[1..];
    assert w[0] == c && Chain(w, c).0 >= 1;
    assert t[0] == c && Chain(t, c).0 >= 2;
  }

  // No mark starts a run of three, spaces between marks ignored.
  ghost predicate NoFenceRun(s: string) {
    forall i :: 0 <= i < |s| && IsFence(s[i]) ==> Chain(s[i..], s[i]).0 < 3
  }

  lemma NoFenceRunCons(s: string)
    requires s != ""
    ensures NoFenceRun(s) <==> NoFenceRun(s[1..]) && (IsFence(s[0]) ==> Chain(s[1..], s[0]).0 < 2)
  {
    hide Chain;
    var t := s[1..];
    ChainCons(s);
    assert s[0..] == s;
    forall i | 0 <= i < |t| ensures t[i..] == s[i + 1..] && t[i] == s[i + 1] {
    }
    if NoFenceRun(s) {
      assert forall i :: 0 <= i < |t| && IsFence(t[i]) ==> Chain(s[i + 1..], s[i + 1]).0 < 3;
    }
    if NoFenceRun(t) && (IsFence(s[0]) ==> Chain(t, s[0]).0 < 2) {
      forall i | 0 <= i < |s| && IsFence(s[i]) ensures Chain(s[i..], s[i]).0 < 3 {
        if i > 0 { assert t[i - 1..] == s[i..]; }
      }
    }
  }

  lemma ChainCons(s: string)
    requires s != ""
    ensures Chain(s, s[0]).0 == Chain(s[1..], s[0]).0 + 1
  {
  }

  lemma {:induction false} CutNeverGrows(s: string)
    ensures |CutFences(s)| <= |s|
    decreases |s|
  {
    if s != "" {
      if IsFence(s[0]) && Chain(s[1..], s[0]).0 >= 2 {
        CutNeverGrows(s[1 + Chain(s[1..], s[0]).1..]);
      } else {
        CutNeverGrows(s[1..]);
      }
    }
  }

  // A line is left alone exactly when it holds no run of three marks.
  lemma {:induction false} CutUnchangedIff(s: string)
    ensures CutFences(s) == s <==> NoFenceRun(s)
  {
    if s != "" {
      NoFenceRunCons(s);
      if IsFence(s[0]) && Chain(s[1..], s[0]).0 >= 2 {
        CutNeverGrows(s[1 + Chain(s[1..], s[0]).1..]);
      } else {
        CutUnchangedIff(s[1..]);
        assert s == [s[0]] + s[1..];
        assert CutFences(s)[1..] == CutFences(s[1..]);
      }
    }
  }

  // Cutting leaves no run of three, with or without spaces between the marks.
  lemma {:induction false} CutHasNoFenceRun(s: string)
    ensures NoFenceRun(CutFences(s))
    decreases |s|
  {
    if s != "" {
      var rest := if IsFence(s[0]) && Chain(s[1..], s[0]).0 >= 2 then s[1 + Chain(s[1..], s[0]).1..] else s[1..];
      var r := CutFences(s);
      assert r == [s[0]] + CutFences(rest) && r[1..] == CutFences(rest);
      CutHasNoFenceRun(rest);
      NoFenceRunCons(r);
      if IsFence(s[0]) {
        CutChain(s, s[0]);
        ChainCons(r);
      }
    }
  }

  // So a second cut finds nothing to do.
  lemma CutTwice(s: string)
    ensures CutFences(CutFences(s)) == CutFences(s)
  {
    CutHasNoFenceRun(s);
    CutUnchangedIff(CutFences(s));
  }

  lemma NoFenceRunIsNoTriple(s: string)
    requires NoFenceRun(s)
    ensures NoTriple(s)
  {
    hide Chain;
    forall i | 0 <= i < |s| - 2 ensures !(IsFence(s[i]) && s[i] == s[i + 1] == s[i + 2]) {
      var t := s[i..];
      assert t[0] == s[i] && t[1] == s[i + 1] && t[2] == s[i + 2];
      if t[0] == t[1] == t[2] { ThreeInARow(t, t[0]); }
    }
  }

  // ------------------------------------------------------------------
  // Runs and what stands around them
  // ------------------------------------------------------------------

  // Nothing to count behind a text adds nothing to a run in it.
  lemma {:induction false} ChainBack(x: string, v: string, c: char)
    requires Chain(v, c).0 == 0
    ensures Chain(x + v, c).0 == Chain(x, c).0
  {
    if x == "" {
      assert x + v == v;
    } else {
      ChainBack(x[1..], v, c);
      assert (x + v)[1..] == x[1..] + v;
    }
  }

  ghost predicate NoRunStarts(v: string) {
    forall c :: IsFence(c) ==> Chain(v, c).0 == 0
  }

  lemma {:induction false} BlankHasNoRun(v: string)
    requires Blank(v)
    ensures NoRunStarts(v) && NoFenceRun(v)
  {
    if v != "" {
      BlankHasNoRun(v[1..]);
      NoFenceRunCons(v);
    }
  }

  // A text followed by one that starts no run has the runs of both.
  lemma {:induction false} NoFenceRunPlus(x: string, v: string)
    requires NoRunStarts(v)
    ensures NoFenceRun(x + v) <==> NoFenceRun(x) && NoFenceRun(v)
  {
    if x == "" {
      assert x + v == v;
    } else {
      NoFenceRunPlus(x[1..], v);
      NoFenceRunCons(x);
      NoFenceRunCons(x + v);
      hide NoFenceRun, Chain;
      assert (x + v)[1..] == x[1..] + v && (x + v)[0] == x[0];
      if IsFence(x[0]) {
        assert Chain(v, x[0]).0 == 0;
        ChainBack(x[1..], v, x[0]);
      }
    }
  }

  lemma {:induction false} NoFenceRunAfterBlank(w: string, x: string)
    requires Blank(w)
    ensures NoFenceRun(w + x) <==> NoFenceRun(x)
  {
    hide NoFenceRun, Chain;
    if w == "" {
      assert w + x == x;
    } else {
      NoFenceRunAfterBlank(w[1..], x);
      assert (w + x)[1..] == w[1..] + x && IsSpace((w + x)[0]);
      hide Blank;
      NoFenceRunCons(w + x);
    }
  }

  lemma NoFenceRunSuffix(s: string, k: nat)
    requires NoFenceRun(s) && k <= |s|
    ensures NoFenceRun(s[k..])
  {
    hide Chain;
    forall i | 0 <= i < |s| - k ensures s[k..][i..] == s[k + i..] && s[k..][i] == s[k + i] {
    }
  }

  lemma StripKeepsRuns(s: string)
    ensures NoFenceRun(Strip(s)) <==> NoFenceRun(s)
  {
    hide *;
    var start, end := StripIs(s);
    Thirds(s, start, end);
    BlankHasNoRun(s[end..]);
    NoFenceRunPlus(s[start..end], s[end..]);
    NoFenceRunAfterBlank(s[..start], s[start..end] + s[end..]);
  }

  lemma Thirds(s: string, start: nat, end: nat)
    requires start <= end <= |s|
    ensures s == s[..start] + (s[start..end] + s[end..])
  {
  }

  function Wording(s: string): string {
    if s == "" then ""
    else (if IsFence(s[0]) || s[0] == ' ' || s[0] == '\t' then "" else [s[0]]) + Wording(s[1..])
  }

  lemma {:induction false} ChainHasNoWording(s: string, c: char)
    requires IsFence(c)
    ensures Wording(s) == Wording(s[Chain(s, c).1..])
  {
    if s != "" && (s[0] == c || s[0] == ' ' || s[0] == '\t') {
      ChainHasNoWording(s[1..], c);
      var k := Chain(s, c).1;
      assert k == 0 || k == Chain(s[1..], c).1 + 1;
      assert Wording(s) == Wording(s[1..]);
      hide Chain, Wording;
      if k > 0 { assert s[k..] == s[1..][k - 1..]; }
    }
  }

  // Cutting takes away marks and the spaces between them, nothing else.
  lemma {:induction false} CutKeepsWording(s: string)
    ensures Wording(CutFences(s)) == Wording(s)
    decreases |s|
  {
    if s != "" {
      var c, t := s[0], s[1..];
      if IsFence(c) && Chain(t, c).0 >= 2 {
        ChainHasNoWording(t, c);
        CutKeepsWording(t[Chain(t, c).1..]);
        assert s[1 + Chain(t, c).1..] == t[Chain(t, c).1..];
      } else {
        CutKeepsWording(t);
      }
      assert CutFences(s)[1..] == if IsFence(c) && Chain(t, c).0 >= 2 then CutFences(t[Chain(t, c).1..]) else CutFences(t);
    }
  }

  // ------------------------------------------------------------------
  // Heading marks and section names
  // ------------------------------------------------------------------

  function SpaceRun(s: string): (k: nat)
    ensures k <= |s| && Blank(s[..k]) && (k < |s| ==> !IsSpace(s[k]))
  {
    if s == "" || !IsSpace(s[0]) then 0 else
    var k := 1 + SpaceRun(s[1..]);
    assert forall i :: 0 < i < k ==> s[..k][i] == s[1..][..k - 1][i - 1];
    k
  }

  function MarkRun(s: string): (k: nat)
    ensures k <= |s|
  {
    if s == "" || s[0] != '#' then 0 else 1 + MarkRun(s[1..])
  }

  // One leading run of number signs goes, with the space after it; the
  // indentation in front of it stays.
  function StripMarks(line: string): string {
    var indent := SpaceRun(line);
    var marks := MarkRun(line[indent..]);
    if marks == 0 then line else
    var rest := line[indent + marks..];
    line[..indent] + rest[SpaceRun(rest)..]
  }

  function Upper(s: string, u: Unicode): string {
    if s == "" then "" else u.upper(s[0]) + Upper(s[1..], u)
  }

  function OtherRun(s: string): (k: nat)
    ensures k <= |s| && (k < |s| ==> IsCapital(s[k]))
    ensures forall i :: 0 <= i < k ==> !IsCapital(s[i])
  {
    if s == "" || IsCapital(s[0]) then 0 else 1 + OtherRun(s[1..])
  }

  // Every run of anything but capitals becomes one space.
  function Letters(s: string): string
    decreases |s|
  {
    if s == "" then ""
    else if IsCapital(s[0]) then [s[0]] + Letters(s[1..])
    else " " + Letters(s[OtherRun(s)..])
  }

  predicate IsSectionName(line: string, u: Unicode) {
    var letters := Strip(Letters(Upper(line, u)));
    letters == BALANCE_HEADING || letters == SOURCES_HEADING
  }

  // ------------------------------------------------------------------
  // Cleaning
  // ------------------------------------------------------------------

  function CleanLine(raw: string, u: Unicode): string {
    StripMarks(CutFences(u.nfkc(raw)))
  }

  function KeptLines(lines: seq<string>, u: Unicode): seq<string> {
    if lines == [] then [] else
    var line := CleanLine(lines[|lines| - 1], u);
    var before := KeptLines(lines[..|lines| - 1], u);
    if IsSectionName(line, u) then before else before + [line]
  }

  function Join(lines: seq<string>): string {
    if lines == [] then "" else if |lines| == 1 then lines[0] else lines[0] + ("\n" + Join(lines[1..]))
  }

  function CleanPassage(text: string, u: Unicode): string {
    Strip(Join(KeptLines(SplitLines(text), u)))
  }

  // Line by line, dropping the lines that read as a section name.
  method CleanPassageByLine(text: string, u: Unicode) returns (clean: string)
    ensures clean == CleanPassage(text, u)
  {
    var kept: seq<string> := [];
    var lines := SplitLines(text);
    for n := 0 to |lines|
      invariant kept == KeptLines(lines[..n], u)
    {
      var line := CleanLine(lines[n], u);
      assert lines[..n + 1][..n] == lines[..n];
      if IsSectionName(line, u) { continue; }
      kept := kept + [line];
    }
    assert lines[..|lines|] == lines;
    clean := Strip(Join(kept));
  }

  // Every run of white space becomes one space.
  function OneSpaced(s: string): string
    decreases |s|
  {
    if s == "" then ""
    else if IsSpace(s[0]) then " " + OneSpaced(s[SpaceRun(s)..])
    else [s[0]] + OneSpaced(s[1..])
  }

  function Slashed(s: string): string {
    seq(|s|, i requires 0 <= i < |s| => if s[i] == '|' then '/' else s[i])
  }

  // Table pipes become slashes, and nothing else changes.
  lemma SlashedIs(s: string)
    ensures |Slashed(s)| == |s| && '|' !in Slashed(s)
    ensures forall i :: 0 <= i < |s| ==> Slashed(s)[i] == s[i] || (s[i] == '|' && Slashed(s)[i] == '/')
  {
  }

  // What is joined holds no white space but single blanks.
  lemma {:induction false} OneSpacedIs(s: string)
    ensures forall i :: 0 <= i < |OneSpaced(s)| && IsSpace(OneSpaced(s)[i]) ==> OneSpaced(s)[i] == ' '
    ensures forall i :: 0 <= i < |OneSpaced(s)| - 1 ==> !IsSpace(OneSpaced(s)[i]) || !IsSpace(OneSpaced(s)[i + 1])
    ensures OneSpaced(s) != "" <==> s != ""
    ensures s != "" ==> IsSpace(OneSpaced(s)[0]) == IsSpace(s[0])
    decreases |s|
  {
    if s != "" {
      SpaceCharacters(' ');
      var k := if IsSpace(s[0]) then SpaceRun(s) else 1;
      hide IsSpace;
      OneSpacedIs(s[k..]);
      if IsSpace(s[0]) { AfterSpaces(s); }
    }
  }

  lemma {:induction false} AfterSpaces(s: string)
    requires s != "" && IsSpace(s[0])
    ensures SpaceRun(s) > 0 && (SpaceRun(s) < |s| ==> !IsSpace(s[SpaceRun(s)]))
  {
    if |s| > 1 && IsSpace(s[1]) { AfterSpaces(s[1..]); }
  }

  function CleanLabel(text: string, u: Unicode): string {
    Strip(OneSpaced(CleanPassage(Slashed(text), u)))
  }

  // ------------------------------------------------------------------
  // What cleaning guarantees
  // ------------------------------------------------------------------

  predicate OneLine(s: string) {
    forall i :: 0 <= i < |s| ==> s[i] != '\n'
  }

  lemma {:induction false} CutKeepsLine(s: string)
    requires NoBreaks(s)
    ensures NoBreaks(CutFences(s))
    decreases |s|
  {
    if s != "" {
      var rest := if IsFence(s[0]) && Chain(s[1..], s[0]).0 >= 2 then s[1 + Chain(s[1..], s[0]).1..] else s[1..];
      CutKeepsLine(rest);
      assert CutFences(s) == [s[0]] + CutFences(rest);
    }
  }

  // Blank text in front of a suffix makes no run of marks and no line break.
  lemma BlankFront(line: string, indent: nat, cut: nat)
    requires indent <= cut <= |line| && Blank(line[..indent])
    ensures NoFenceRun(line) ==> NoFenceRun(line[..indent] + line[cut..])
    ensures NoBreaks(line) ==> NoBreaks(line[..indent] + line[cut..])
  {
    if NoFenceRun(line) {
      NoFenceRunSuffix(line, cut);
      NoFenceRunAfterBlank(line[..indent], line[cut..]);
    }
  }

  lemma StripMarksParts(line: string) returns (indent: nat, marks: nat, cut: nat)
    ensures indent == SpaceRun(line) && marks == MarkRun(line[indent..]) && indent + marks <= cut <= |line|
    ensures StripMarks(line) == line[..indent] + line[cut..]
    ensures cut == if marks == 0 then indent else indent + marks + SpaceRun(line[indent + marks..])
  {
    hide MarkRun, Blank, SpaceRun;
    indent := SpaceRun(line);
    marks := MarkRun(line[indent..]);
    if marks == 0 {
      cut := indent;
      assert line == line[..indent] + line[cut..];
    } else {
      var tail := line[indent + marks..];
      cut := indent + marks + SpaceRun(tail);
      assert tail[SpaceRun(tail)..] == line[cut..];
    }
  }

  // What goes is the run of number signs after the indentation, and the white
  // space after that run; a line without such a run is left alone.
  lemma StripMarksIs(line: string) returns (indent: nat, marks: nat, cut: nat)
    ensures indent + marks <= cut <= |line| && StripMarks(line) == line[..indent] + line[cut..]
    ensures Blank(line[..indent]) && (indent < |line| ==> !IsSpace(line[indent]))
    ensures forall i :: indent <= i < indent + marks ==> line[i] == '#'
    ensures indent + marks < |line| ==> line[indent + marks] != '#'
    ensures Blank(line[indent + marks..cut]) && (marks > 0 && cut < |line| ==> !IsSpace(line[cut]))
    ensures marks == 0 ==> cut == indent
  {
    hide StripMarks, SpaceRun, MarkRun, IsSpace;
    indent, marks, cut := StripMarksParts(line);
    MarksAre(line, indent, marks);
    SpacesAre(line, indent + marks, cut - indent - marks);
  }

  lemma MarksAre(line: string, indent: nat, marks: nat)
    requires indent <= |line| && marks == MarkRun(line[indent..])
    ensures indent + marks <= |line| && forall i :: indent <= i < indent + marks ==> line[i] == '#'
    ensures indent + marks < |line| ==> line[indent + marks] != '#'
  {
    var after := line[indent..];
    MarkRunIs(after);
    hide MarkRun;
    assert forall i :: indent <= i < indent + marks ==> line[i] == after[i - indent];
  }

  lemma SpacesAre(line: string, from: nat, k: nat)
    requires from <= |line| && (k == 0 || k == SpaceRun(line[from..]))
    ensures from + k <= |line| && Blank(line[from..from + k])
    ensures k == SpaceRun(line[from..]) && from + k < |line| ==> !IsSpace(line[from + k])
  {
    hide SpaceRun, IsSpace;
    var after := line[from..];
    assert k > 0 ==> after[..k] == line[from..from + k];
  }

  lemma {:induction false} MarkRunIs(s: string)
    ensures forall i :: 0 <= i < MarkRun(s) ==> s[i] == '#'
    ensures MarkRun(s) < |s| ==> s[MarkRun(s)] != '#'
  {
    if s != "" && s[0] == '#' { MarkRunIs(s[1..]); }
  }

  lemma MarksKeep(line: string)
    ensures NoFenceRun(line) ==> NoFenceRun(StripMarks(line))
    ensures NoBreaks(line) ==> NoBreaks(StripMarks(line))
  {
    hide StripMarks, NoFenceRun, NoBreaks;
    var indent, marks, cut := StripMarksIs(line);
    BlankFront(line, indent, cut);
  }

  lemma CleanLineIs(raw: string, u: Unicode)
    requires Usable(u) && NoBreaks(raw)
    ensures NoFenceRun(CleanLine(raw, u)) && NoBreaks(CleanLine(raw, u)) && OneLine(CleanLine(raw, u))
  {
    hide NoFenceRun, StripMarks, CutFences;
    CutHasNoFenceRun(u.nfkc(raw));
    CutKeepsLine(u.nfkc(raw));
    MarksKeep(CutFences(u.nfkc(raw)));
  }

  lemma {:induction false} KeptLinesAre(lines: seq<string>, u: Unicode)
    requires Usable(u) && forall i :: 0 <= i < |lines| ==> NoBreaks(lines[i])
    ensures forall i :: 0 <= i < |KeptLines(lines, u)| ==>
      var line := KeptLines(lines, u)[i]; NoFenceRun(line) && OneLine(line) && !IsSectionName(line, u)
  {
    if lines != [] {
      hide NoFenceRun, CleanLine, IsSectionName, Usable, NoBreaks, OneLine;
      KeptLinesAre(lines[..|lines| - 1], u);
      CleanLineIs(lines[|lines| - 1], u);
    }
  }

  // A line feed ends every run.
  lemma {:induction false} JoinKeepsRuns(lines: seq<string>)
    requires forall i :: 0 <= i < |lines| ==> NoFenceRun(lines[i])
    ensures NoFenceRun(Join(lines))
  {
    if |lines| > 1 {
      var b := Join(lines[1..]);
      JoinKeepsRuns(lines[1..]);
      NoFenceRunCons("\n" + b);
      assert ("\n" + b)[1..] == b && NoRunStarts("\n" + b);
      NoFenceRunPlus(lines[0], "\n" + b);
    }
  }

  lemma PartHasNoTriple(s: string, start: nat, end: nat)
    requires NoTriple(s) && start <= end <= |s|
    ensures NoTriple(s[start..end])
  {
    var r := s[start..end];
    forall i | 0 <= i < |r| - 2 ensures !(IsFence(r[i]) && r[i] == r[i + 1] == r[i + 2]) {
      assert r[i] == s[start + i] && r[i + 1] == s[start + i + 1] && r[i + 2] == s[start + i + 2];
    }
  }

  // Cleaned text holds no run of three marks, with or without spaces between
  // them, so no fence line.
  lemma CleanHasNoFenceRun(text: string, u: Unicode)
    requires Usable(u)
    ensures NoFenceRun(CleanPassage(text, u))
  {
    var kept := KeptLines(SplitLines(text), u);
    KeptLinesAre(SplitLines(text), u);
    hide NoFenceRun;
    JoinKeepsRuns(kept);
    StripKeepsRuns(Join(kept));
  }

  lemma CleanHasNoTriple(text: string, u: Unicode)
    requires Usable(u)
    ensures NoTriple(CleanPassage(text, u))
  {
    CleanHasNoFenceRun(text, u);
    NoFenceRunIsNoTriple(CleanPassage(text, u));
  }

  lemma {:induction false} OneSpacedIsOneLine(s: string)
    ensures OneLine(OneSpaced(s))
    decreases |s|
  {
    if s != "" {
      if IsSpace(s[0]) { OneSpacedIsOneLine(s[SpaceRun(s)..]); } else { OneSpacedIsOneLine(s[1..]); }
    }
  }

  function Solid(s: string): string {
    if s == "" then "" else (if IsSpace(s[0]) then "" else [s[0]]) + Solid(s[1..])
  }

  lemma {:induction false} SpaceRunIsNotSolid(s: string)
    ensures Solid(s[SpaceRun(s)..]) == Solid(s)
  {
    if s != "" && IsSpace(s[0]) {
      SpaceRunIsNotSolid(s[1..]);
      assert s[SpaceRun(s)..] == s[1..][SpaceRun(s[1..])..];
    } else {
      assert s[0..] == s;
    }
  }

  // Only white space is rewritten.
  lemma {:induction false} OneSpacedKeepsSolid(s: string)
    ensures Solid(OneSpaced(s)) == Solid(s)
    decreases |s|
  {
    if s != "" {
      var r := OneSpaced(s);
      if IsSpace(s[0]) {
        OneSpacedKeepsSolid(s[SpaceRun(s)..]);
        SpaceRunIsNotSolid(s);
        assert r[0] == ' ' && r[1..] == OneSpaced(s[SpaceRun(s)..]);
      } else {
        OneSpacedKeepsSolid(s[1..]);
        assert r[1..] == OneSpaced(s[1..]);
      }
    }
  }

  lemma NoTripleCons(s: string)
    requires s != "" && NoTriple(s[1..])
    requires |s| >= 3 ==> !(IsFence(s[0]) && s[0] == s[1] == s[2])
    ensures NoTriple(s)
  {
    forall i | 0 <= i < |s| - 2 ensures !(IsFence(s[i]) && s[i] == s[i + 1] == s[i + 2]) {
      if i > 0 {
        assert s[i] == s[1..][i - 1] && s[i + 1] == s[1..][i] && s[i + 2] == s[1..][i + 1];
      }
    }
  }

  lemma OneSpacedHead(s: string)
    requires OneSpaced(s) != "" && IsFence(OneSpaced(s)[0])
    ensures s != "" && s[0] == OneSpaced(s)[0] && OneSpaced(s)[1..] == OneSpaced(s[1..])
  {
  }

  lemma {:induction false} OneSpacedHasNoTriple(s: string)
    requires NoTriple(s)
    ensures NoTriple(OneSpaced(s))
    decreases |s|
  {
    if s != "" {
      var rest := if IsSpace(s[0]) then s[SpaceRun(s)..] else s[1..];
      PartHasNoTriple(s, |s| - |rest|, |s|);
      assert s[|s| - |rest|..|s|] == rest;
      OneSpacedHasNoTriple(rest);
      var r := OneSpaced(s);
      assert r[1..] == OneSpaced(rest);
      if |r| >= 3 && IsFence(r[0]) && r[0] == r[1] == r[2] {
        OneSpacedHead(s);
        OneSpacedHead(s[1..]);
        OneSpacedHead(s[1..][1..]);
      }
      NoTripleCons(r);
    }
  }

  // A label holds no fence: marks from separate lines stay a space apart.
  lemma LabelHasNoTriple(text: string, u: Unicode)
    requires Usable(u)
    ensures NoTriple(CleanLabel(text, u))
  {
    var clean := CleanPassage(Slashed(text), u);
    CleanHasNoTriple(Slashed(text), u);
    hide CleanPassage, Usable;
    OneSpacedHasNoTriple(clean);
    var start, end := StripIs(OneSpaced(clean));
    PartHasNoTriple(OneSpaced(clean), start, end);
  }

  // A label is one line, whatever the title was.
  lemma LabelIsOneLine(text: string, u: Unicode)
    ensures OneLine(CleanLabel(text, u))
  {
    var s := OneSpaced(CleanPassage(Slashed(text), u));
    OneSpacedIsOneLine(s);
    OneSpacedIsOneLine(CleanPassage(Slashed(text), u));
    var start, end := StripIs(s);
  }

  // A line cleaning has no reason to touch.
  ghost predicate Harmless(line: string, u: Unicode) {
    && u.nfkc(line) == line && NoFenceRun(line) && !IsSectionName(line, u)
    && MarkRun(line[SpaceRun(line)..]) == 0
  }

  lemma HarmlessLineStays(line: string, u: Unicode)
    requires Harmless(line, u)
    ensures CleanLine(line, u) == line && !IsSectionName(line, u)
  {
    CutUnchangedIff(line);
    hide IsSectionName, MarkRun, SpaceRun, NoFenceRun, CutFences;
  }

  lemma KeptSnoc(front: seq<string>, last: string, u: Unicode)
    ensures KeptLines(front + [last], u)
         == KeptLines(front, u) + if IsSectionName(CleanLine(last, u), u) then [] else [CleanLine(last, u)]
  {
    hide CleanLine, IsSectionName;
    assert (front + [last])[..|front|] == front;
  }

  lemma {:induction false} HarmlessLinesStay(lines: seq<string>, u: Unicode)
    requires forall i :: 0 <= i < |lines| ==> Harmless(lines[i], u)
    ensures KeptLines(lines, u) == lines
  {
    if lines != [] {
      hide *;
      var front, last := lines[..|lines| - 1], lines[|lines| - 1];
      assert lines == front + [last];
      HarmlessLinesStay(front, u);
      HarmlessLineStays(last, u);
      KeptSnoc(front, last, u);
    }
  }

  // Text without marks, fences or section names is only stripped.
  lemma HarmlessTextStays(text: string, u: Unicode)
    requires forall i :: 0 <= i < |SplitLines(text)| ==> Harmless(SplitLines(text)[i], u)
    ensures CleanPassage(text, u) == Strip(Join(SplitLines(text)))
  {
    HarmlessLinesStay(SplitLines(text), u);
  }
}
