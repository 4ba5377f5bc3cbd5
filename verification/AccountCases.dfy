// A real text that says the longer name twice running, and is found to name
// the shorter account too.
module AccountCases {
  import opened AccountNames
  import opened AccountMatching
  import opened AccountTurns
  import opened AccountExclusion

  lemma WordThen(w: string, s: string)
    requires IsWord(w) && (s == "" || !IsWordChar(s[0]))
    ensures WordsIn(w + s) == [w] + WordsIn(s)
  {
    RunBefore(w, s);
    hide RunLength;
    assert (w + s)[0] == w[0] && (w + s)[..|w|] == w && (w + s)[|w|..] == s;
  }

  lemma GapThen(c: char, s: string)
    requires !IsWordChar(c)
    ensures WordsIn([c] + s) == WordsIn(s)
  {
    assert ([c] + s)[1..] == s;
  }

  lemma TwoWords(x: string, y: string, s: string)
    requires IsWord(x) && IsWord(y) && (s == "" || !IsWordChar(s[0]))
    ensures WordsIn(x + ([' '] + (y + s))) == [x, y] + WordsIn(s)
  {
    hide WordsIn;
    WordThen(x, [' '] + (y + s));
    GapThen(' ', y + s);
    WordThen(y, s);
  }

  // The text says "x y" twice running.
  lemma RepeatStands(x: string, y: string, rest: Words)
    ensures var m := Mask([x, y, x, y] + rest, [x, y]); |m| >= 4 && RunAt(m, 2, [x])
  {
    var ws, ns := [x, y, x, y] + rest, [x, y];
    assert ws[..2] == ns;
    MaskMatchIs(ws, ns);
    MaskPlaces(ws, 2, Mask(ws, ns), Mask(ws[3..], ns));
    assert Mask(ws, ns)[2..3] == [x];
  }

  lemma ShorterIsSecond(names: seq<string>)
    requires |names| == 2 && |KeyOf(names[0])| < |KeyOf(names[1])|
    ensures Before(names, 0) == [1]
  {
    var keys := Keys(names);
    assert LongestFirst(keys, 0) == [];
    assert LongestFirst(keys, 1) == [0];
    assert [0][..0] == [] && Insert([], keys, 1) == [1] && Insert([0], keys, 1) == [1] + [0];
    assert LongestFirst(keys, 2) == [1, 0];
    assert [1, 0][1..] == [0];
    assert UpTo([0], 0) == [];
  }

  // Whatever the two words are: with "x" and "x y" in the table and a text
  // that begins "x y x y", the account "x" is found.
  lemma TwiceRunning(names: seq<string>, texts: seq<string>, x: string, y: string, rest: Words)
    requires |names| == 2 && |texts| == 1 && WordsIn(names[0]) == [x] && WordsIn(names[1]) == [x, y]
    requires WordsIn(texts[0]) == [x, y, x, y] + rest
    ensures Matches(names, texts, 0)
  {
    assert KeyOf(names[0]) == x && |KeyOf(names[1])| > |x|;
    ShorterIsSecond(names);
    assert [1][..0] == [];
    RepeatStands(x, y, rest);
    var masks := MasksAfter(names, texts, [1]);
    assert MasksAfter(names, texts, []) == Fresh(texts);
    assert masks == MaskAll(Fresh(texts), [x, y]);
    assert RunAt(masks[0], 2, [x]);
  }

  lemma MentionIs(ws: Words, p: nat, x: string, y: string, rest: Words)
    requires ws == [x, y, x, y] + rest && x != y && x !in rest && p < |ws| && ws[p] == x
    ensures p == 0 || p == 2
  {
    assert forall k :: 4 <= k < |ws| ==> ws[k] == rest[k - 4];
  }

  // And every mention of it there lies within a mention of "x y".
  lemma RepeatIsCovered(names: seq<string>, texts: seq<string>, x: string, y: string, rest: Words)
    requires |names| == 2 && |texts| == 1 && WordsIn(names[0]) == [x] && WordsIn(names[1]) == [x, y]
    requires WordsIn(texts[0]) == [x, y, x, y] + rest && x != y && x !in rest
    ensures AlwaysCovered(names, texts, 0)
  {
    var ws := WordsIn(texts[0]);
    assert KeyOf(names[0]) == x && |KeyOf(names[1])| > |x|;
    ShorterIsSecond(names);
    hide WordsIn, KeyOf, Before;
    forall j: nat, p: nat | NamedAt(names[0], texts, j, p) ensures Covered(names, texts, 0, j, p, 1, p) {
      assert ws[p..p + 1][0] == ws[p];
      MentionIs(ws, p, x, y, rest);
      assert ws[p..p + 2] == [x, y];
      OnlyMentions(names, texts, x, y, rest, p);
    }
  }

  lemma OnlyMentions(names: seq<string>, texts: seq<string>, x: string, y: string, rest: Words, q: nat)
    requires |names| == 2 && |texts| == 1 && WordsIn(names[1]) == [x, y] && Before(names, 0) == [1] && (q == 0 || q == 2)
    requires WordsIn(texts[0]) == [x, y, x, y] + rest && x != y && x !in rest
    ensures Own(names, texts, Before(names, 0), 0, q, [x, y])
  {
    var ws := WordsIn(texts[0]);
    forall k: nat | RunAt(ws, k, [x, y]) ensures k == 0 || k == 2 {
      assert ws[k] == ws[k..k + 2][0];
      MentionIs(ws, k, x, y, rest);
    }
  }

  const SHORT := "brokerage"
  const LONG := "brokerage two"
  const SAID := "brokerage two. brokerage two is larger"

  // Every mention of the shorter name lies within the longer one, and it is
  // found all the same.
  lemma ShorterIsFoundToo()
    ensures AlwaysCovered([SHORT, LONG], [SAID], 0) && Matches([SHORT, LONG], [SAID], 0)
  {
    var x, y := "brokerage", "two";
    assert IsWord(x) && IsWord(y);
    NamesInWords(x, y);
    TextInWords(x, y);
    LastWords(x);
    hide WordsIn, Matches, IsWord, AlwaysCovered;
    TwiceRunning([SHORT, LONG], [SAID], x, y, WordsIn(" is larger"));
    RepeatIsCovered([SHORT, LONG], [SAID], x, y, WordsIn(" is larger"));
  }

  lemma LastWords(x: string)
    requires x == "brokerage"
    ensures x !in WordsIn(" is larger")
  {
    var u, v := "is", "larger";
    assert " is larger" == [' '] + (u + ([' '] + (v + ""))) && IsWord(u) && IsWord(v);
    assert |x| != |u| && |x| != |v|;
    hide *;
    GapThenTwo(u, v);
    assert WordsIn(" is larger") == [u, v];
  }

  lemma GapThenTwo(u: string, v: string)
    requires IsWord(u) && IsWord(v)
    ensures WordsIn([' '] + (u + ([' '] + (v + "")))) == [u, v]
  {
    assert WordsIn("") == [];
    hide WordsIn, IsWord;
    GapThen(' ', u + ([' '] + (v + "")));
    TwoWords(u, v, "");
  }

  lemma NamesInWords(x: string, y: string)
    requires x == "brokerage" && y == "two" && IsWord(x) && IsWord(y)
    ensures WordsIn(SHORT) == [x] && WordsIn(LONG) == [x, y]
  {
    assert x + "" == SHORT && x + ([' '] + (y + "")) == LONG;
    assert WordsIn("") == [];
    hide WordsIn, IsWord;
    WordThen(x, "");
    TwoWords(x, y, "");
  }

  lemma TextInWords(x: string, y: string)
    requires x == "brokerage" && y == "two" && IsWord(x) && IsWord(y)
    ensures WordsIn(SAID) == [x, y, x, y] + WordsIn(" is larger")
  {
    assert SAID == x + ([' '] + (y + (['.'] + ([' '] + (x + ([' '] + (y + " is larger")))))));
    hide *;
    TwicePunctuated(x, y, " is larger");
  }

  lemma TwicePunctuated(x: string, y: string, s: string)
    requires IsWord(x) && IsWord(y) && s != "" && s[0] == ' '
    ensures WordsIn(x + ([' '] + (y + (['.'] + ([' '] + (x + ([' '] + (y + s)))))))) == [x, y, x, y] + WordsIn(s)
  {
    var last := x + ([' '] + (y + s));
    hide WordsIn, IsWord;
    TwoWords(x, y, s);
    GapThen(' ', last);
    GapThen('.', [' '] + last);
    TwoWords(x, y, ['.'] + ([' '] + last));
    assert [x, y] + ([x, y] + WordsIn(s)) == [x, y, x, y] + WordsIn(s);
  }
}
