// When a line reads as a section name, and which lines a passage keeps.
module SectionNames {
  import opened Texts
  import opened PassageText

  // The maximal runs of capitals.
  function CapitalWords(s: string): (ws: seq<string>)
    decreases |s|
  {
    if s == "" then [] else
    if 'A' <= s[0] <= 'Z' then
      var k := CapitalRun(s);
      [s[..k]] + CapitalWords(s[k..])
    else CapitalWords(s[1..])
  }

  function CapitalRun(s: string): (k: nat)
    ensures k <= |s| && forall i :: 0 <= i < k ==> 'A' <= s[i] <= 'Z'
    ensures k < |s| ==> !('A' <= s[k] <= 'Z')
  {
    if s == "" || !('A' <= s[0] <= 'Z') then 0 else 1 + CapitalRun(s[1..])
  }

  function Spelled(ws: seq<string>): string {
    if ws == [] then "" else if |ws| == 1 then ws[0] else ws[0] + (" " + Spelled(ws[1..]))
  }

  predicate Capitals(w: string) {
    w != "" && forall i :: 0 <= i < |w| ==> 'A' <= w[i] <= 'Z'
  }

  ghost predicate AllCapitals(ws: seq<string>) {
    forall i :: 0 <= i < |ws| ==> Capitals(ws[i])
  }

  lemma {:induction false} WordsAreCapitals(s: string)
    ensures AllCapitals(CapitalWords(s))
    decreases |s|
  {
    if s != "" {
      if 'A' <= s[0] <= 'Z' { WordsAreCapitals(s[CapitalRun(s)..]); } else { WordsAreCapitals(s[1..]); }
    }
  }

  lemma {:induction false} RunThen(w: string, s: string)
    requires (forall i :: 0 <= i < |w| ==> 'A' <= w[i] <= 'Z') && (s == "" || !('A' <= s[0] <= 'Z'))
    ensures CapitalRun(w + s) == |w|
  {
    if w == "" {
      assert w + s == s;
    } else {
      RunThen(w[1..], s);
      assert (w + s)[0] == w[0] && (w + s)[1..] == w[1..] + s;
    }
  }

  // Words spelled out read back as those words.
  lemma {:induction false} SpelledReadsBack(ws: seq<string>)
    requires AllCapitals(ws)
    ensures CapitalWords(Spelled(ws)) == ws
  {
    if ws != [] {
      var w, rest := ws[0], if |ws| == 1 then "" else " " + Spelled(ws[1..]);
      assert Capitals(w) && forall i :: 0 <= i < |ws[1..]| ==> ws[1..][i] == ws[i + 1];
      SpelledReadsBack(ws[1..]);
      assert Spelled(ws) == w + rest by { assert w + "" == w; }
      RunThen(w, rest);
      hide CapitalRun;
      assert (w + rest)[0] == w[0] && (w + rest)[..|w|] == w && (w + rest)[|w|..] == rest;
      if |ws| == 1 { assert ws[1..] == []; } else { assert rest[1..] == Spelled(ws[1..]); }
    }
  }

  lemma {:induction false} LettersOfRun(w: string, s: string)
    requires forall i :: 0 <= i < |w| ==> 'A' <= w[i] <= 'Z'
    ensures Letters(w + s) == w + Letters(s)
  {
    if w == "" {
      assert w + s == s;
    } else {
      LettersOfRun(w[1..], s);
      assert (w + s)[0] == w[0] && (w + s)[1..] == w[1..] + s;
      assert [w[0]] + (w[1..] + Letters(s)) == w + Letters(s);
    }
  }

  lemma {:induction false} OthersSkipped(s: string)
    ensures CapitalWords(s) == CapitalWords(s[OtherRun(s)..])
  {
    if s == "" || IsCapital(s[0]) {
      assert s[0..] == s;
    } else {
      OthersSkipped(s[1..]);
      assert s[1..][OtherRun(s[1..])..] == s[OtherRun(s)..];
    }
  }

  // Between at most a space on either side stand the words, spelled out.
  lemma {:induction false} LettersAre(s: string) returns (lead: string, tail: string)
    ensures (lead == "" || lead == " ") && (tail == "" || tail == " ")
    ensures Letters(s) == lead + Spelled(CapitalWords(s)) + tail
    ensures s == "" || IsCapital(s[0]) ==> lead == ""
    decreases |s|
  {
    hide Letters, CapitalWords, Spelled;
    lead, tail := "", "";
    if s == "" {
      OneWordSpelled("");
      NoWordsSpelled();
    } else {
      var w, after, last := FirstWord(s);
      if last {
        OneWordSpelled(w);
      } else {
        var l, t := LettersAre(after);
        NoLetters(after);
        lead := if IsCapital(s[0]) then "" else " ";
        tail := if IsCapital(s[0]) && CapitalWords(after) == [] then " " else t;
        AfterWord(w, IsCapital(s[0]), CapitalWords(after), Letters(after), t, Letters(s), CapitalWords(s));
      }
    }
  }

  lemma NoWordsSpelled()
    ensures Spelled([]) == ""
  {
  }

  // The first word, or none, and what follows the other characters behind it.
  lemma FirstWord(s: string) returns (w: string, after: string, last: bool)
    requires s != ""
    ensures last ==> Letters(s) == w && CapitalWords(s) == [w] && IsCapital(s[0])
    ensures !last ==> Letters(s) == w + (" " + Letters(after))
    ensures !last ==> CapitalWords(s) == (if IsCapital(s[0]) then [w] else []) + CapitalWords(after)
    ensures !last ==> |after| < |s| && (after == "" || IsCapital(after[0])) && (IsCapital(s[0]) || w == "")
  {
    var k := if IsCapital(s[0]) then CapitalRun(s) else 0;
    var rest := s[k..];
    w, after, last := s[..k], "", rest == "";
    assert s == w + rest;
    if IsCapital(s[0]) { WordsStep(s); }
    hide CapitalWords, Letters;
    LettersOfRun(w, rest);
    NoLetters("");
    if rest == "" {
      assert w + "" == w && [w] + [] == [w];
    } else {
      after := rest[OtherRun(rest)..];
      LettersStep(rest);
      OthersSkipped(rest);
      assert [] + CapitalWords(after) == CapitalWords(after);
    }
  }

  // A word or none, a space for what follows it, and the rest.
  lemma AfterWord(w: string, word: bool, ws: seq<string>, letters: string, t: string, all: string, words: seq<string>)
    requires letters == "" + Spelled(ws) + t && all == w + (" " + letters) && (ws == [] ==> letters == "")
    requires words == (if word then [w] else []) + ws && (word || w == "")
    ensures all == (if word then "" else " ") + Spelled(words) + if word && ws == [] then " " else t
  {
    if word {
      FirstSpelled(w, ws, t);
    } else {
      assert [] + ws == ws;
    }
  }

  lemma LettersStep(s: string)
    requires s != "" && !IsCapital(s[0])
    ensures Letters(s) == " " + Letters(s[OtherRun(s)..])
    ensures s[OtherRun(s)..] == "" || IsCapital(s[OtherRun(s)..][0])
    ensures |s[OtherRun(s)..]| < |s|
  {
  }

  lemma WordsStep(s: string)
    requires s != "" && IsCapital(s[0])
    ensures CapitalWords(s) == [s[..CapitalRun(s)]] + CapitalWords(s[CapitalRun(s)..])
  {
  }

  lemma NoLetters(s: string)
    ensures s == "" ==> Letters(s) == "" && CapitalWords(s) == []
    ensures s != "" && IsCapital(s[0]) ==> CapitalWords(s) != []
  {
  }

  lemma OneWordSpelled(w: string)
    ensures Spelled([w]) == w && Letters("") == "" && CapitalWords("") == []
  {
  }

  lemma FirstSpelled(w: string, ws: seq<string>, t: string)
    ensures ws != [] ==> w + (" " + ("" + Spelled(ws) + t)) == "" + Spelled([w] + ws) + t
    ensures ws == [] ==> w + (" " + "") == "" + Spelled([w] + ws) + " "
  {
    assert ([w] + ws)[1..] == ws;
  }

  lemma {:induction false} SpelledEnds(ws: seq<string>)
    requires AllCapitals(ws) && ws != []
    ensures Spelled(ws) != "" && 'A' <= Spelled(ws)[0] <= 'Z' && 'A' <= Spelled(ws)[|Spelled(ws)| - 1] <= 'Z'
  {
    assert Capitals(ws[0]);
    if |ws| > 1 {
      assert forall i :: 0 <= i < |ws[1..]| ==> ws[1..][i] == ws[i + 1];
      SpelledEnds(ws[1..]);
    }
  }

  lemma StripsTo(lead: string, body: string, tail: string)
    requires (lead == "" || lead == " ") && (tail == "" || tail == " ")
    requires body == "" || ('A' <= body[0] <= 'Z' && 'A' <= body[|body| - 1] <= 'Z')
    ensures Strip(lead + body + tail) == body
  {
    var s, inner := lead + body + tail, body + tail;
    assert s == lead + inner;
    LeadGoes(lead, inner);
    if body == "" {
      assert inner == tail;
      LeadGoes(tail, "");
      assert tail + "" == tail;
    } else {
      SpaceCharacters(body[0]);
      SpaceCharacters(body[|body| - 1]);
      assert inner[0] == body[0];
      TailGoes(body, tail);
    }
  }

  lemma LeadGoes(lead: string, rest: string)
    requires lead == "" || lead == " "
    ensures StripLeft(lead + rest) == StripLeft(rest)
  {
    if lead == "" { assert lead + rest == rest; } else { assert (lead + rest)[1..] == rest; }
  }

  lemma TailGoes(body: string, tail: string)
    requires body != "" && !IsSpace(body[|body| - 1]) && (tail == "" || tail == " ")
    ensures StripRight(body + tail) == body
  {
    var s := body + tail;
    if tail == "" { assert s == body; } else { assert s[..|s| - 1] == body; }
  }

  // A line reads as a section name exactly when, upper-cased, its runs of
  // capitals are the words of one of the two headings, whatever stands around
  // and between them.
  lemma SectionNameIff(line: string, u: Unicode)
    ensures IsSectionName(line, u) <==>
      CapitalWords(Upper(line, u)) == ["BALANCE", "TABLE"] || CapitalWords(Upper(line, u)) == ["SOURCES"]
  {
    var s := Upper(line, u);
    var lead, tail := LettersAre(s);
    WordsAreCapitals(s);
    var ws := CapitalWords(s);
    if ws != [] { SpelledEnds(ws); }
    StripsTo(lead, Spelled(ws), tail);
    SpelledReadsBack(ws);
    HeadingsSpelled();
    hide CapitalWords, Spelled, Letters, Upper;
  }

  lemma HeadingsSpelled()
    ensures Spelled(["BALANCE", "TABLE"]) == BALANCE_HEADING && CapitalWords(BALANCE_HEADING) == ["BALANCE", "TABLE"]
    ensures Spelled(["SOURCES"]) == SOURCES_HEADING && CapitalWords(SOURCES_HEADING) == ["SOURCES"]
  {
    var a, b, c := "BALANCE", "TABLE", "SOURCES";
    assert Capitals(a) && Capitals(b) && Capitals(c);
    assert a + (" " + b) == BALANCE_HEADING && c == SOURCES_HEADING;
    OneWordSpelled(c);
    TwoSpelled(a, b);
    assert AllCapitals([a, b]) && AllCapitals([c]);
    hide *;
    SpelledReadsBack([a, b]);
    SpelledReadsBack([c]);
  }

  lemma TwoSpelled(a: string, b: string)
    ensures Spelled([a, b]) == a + (" " + b)
  {
    assert [a, b][1..] == [b];
  }

  // ------------------------------------------------------------------
  // The kept lines
  // ------------------------------------------------------------------

  // These places, in order, are the lines that are no section name once cut
  // and stripped of heading marks.
  ghost predicate Unnamed(places: seq<nat>, lines: seq<string>, u: Unicode) {
    && (forall k :: 0 <= k < |places| ==> places[k] < |lines|)
    && (forall j, k :: 0 <= j < k < |places| ==> places[j] < places[k])
    && forall i: nat :: i < |lines| ==> (i in places <==> !IsSectionName(StripMarks(CutFences(u.nfkc(lines[i]))), u))
  }

  // Each kept line is such a line, normalised first, cut next, stripped last.
  ghost predicate CleanedAt(kept: seq<string>, places: seq<nat>, lines: seq<string>, u: Unicode) {
    |kept| == |places| && forall k :: 0 <= k < |places| ==>
      places[k] < |lines| && kept[k] == StripMarks(CutFences(u.nfkc(lines[places[k]])))
  }

  lemma UnnamedSnoc(places: seq<nat>, front: seq<string>, last: string, u: Unicode)
    requires Unnamed(places, front, u)
    ensures Unnamed(if IsSectionName(CleanLine(last, u), u) then places else places + [|front|], front + [last], u)
  {
    hide IsSectionName, StripMarks, CutFences;
    var n, all := |front|, front + [last];
    var more := if IsSectionName(CleanLine(last, u), u) then places else places + [n];
    assert all[n] == last && n !in places;
    forall i: nat | i < |all| ensures i in more <==> !IsSectionName(StripMarks(CutFences(u.nfkc(all[i]))), u) {
      if i < n { assert all[i] == front[i] && (i in more <==> i in places); }
    }
  }

  lemma CleanedSnoc(kept: seq<string>, places: seq<nat>, front: seq<string>, last: string, u: Unicode)
    requires CleanedAt(kept, places, front, u)
    ensures CleanedAt(kept + [CleanLine(last, u)], places + [|front|], front + [last], u)
    ensures CleanedAt(kept, places, front + [last], u)
  {
    hide StripMarks, CutFences;
  }

  lemma {:induction false} LinesKept(lines: seq<string>, u: Unicode) returns (places: seq<nat>)
    ensures Unnamed(places, lines, u) && CleanedAt(KeptLines(lines, u), places, lines, u)
  {
    hide CleanLine, IsSectionName, Unnamed, CleanedAt;
    if lines == [] {
      places := [];
      NothingKept(u);
    } else {
      var front, last := lines[..|lines| - 1], lines[|lines| - 1];
      assert front + [last] == lines;
      places := LinesKept(front, u);
      UnnamedSnoc(places, front, last, u);
      CleanedSnoc(KeptLines(front, u), places, front, last, u);
      places := if IsSectionName(CleanLine(last, u), u) then places else places + [|front|];
    }
  }

  lemma NothingKept(u: Unicode)
    ensures Unnamed([], [], u) && CleanedAt(KeptLines([], u), [], [], u)
  {
  }

  // A cleaned passage is exactly its lines that are no section name, cleaned
  // one by one, in their order, and the ends stripped.
  lemma PassageIsItsLines(text: string, u: Unicode) returns (places: seq<nat>, kept: seq<string>)
    ensures Unnamed(places, SplitLines(text), u) && CleanedAt(kept, places, SplitLines(text), u)
    ensures CleanPassage(text, u) == Strip(Join(kept))
  {
    kept := KeptLines(SplitLines(text), u);
    places := LinesKept(SplitLines(text), u);
  }
}
