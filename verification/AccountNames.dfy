// Finding which account names a text mentions: longest names first, each match
// blanked out so that a shorter name inside it does not match too. The source
// works on padded strings with find and replace; here those strings are shown
// to be lists of words, and the lists to be the original text with some
// positions masked.
module AccountNames {

  type Words = seq<string>

  const BAR := "|"

  predicate IsWordChar(c: char) {
    'a' <= c <= 'z' || '0' <= c <= '9'
  }

  predicate IsWord(w: string) {
    w != "" && forall i :: 0 <= i < |w| ==> IsWordChar(w[i])
  }

  predicate AllWords(ws: Words) {
    forall i :: 0 <= i < |ws| ==> IsWord(ws[i])
  }

  // A token is anything without a space: a word, a bar, or nothing.
  predicate Token(w: string) {
    forall i :: 0 <= i < |w| ==> w[i] != ' '
  }

  predicate Tokens(ws: Words) {
    forall i :: 0 <= i < |ws| ==> Token(ws[i])
  }

  function RunLength(s: string): (k: nat)
    ensures k <= |s| && forall i :: 0 <= i < k ==> IsWordChar(s[i])
    ensures k < |s| ==> !IsWordChar(s[k])
  {
    if s == "" || !IsWordChar(s[0]) then 0 else 1 + RunLength(s[1..])
  }

  // The maximal runs of letters and digits of a lower-cased text.
  function WordsIn(s: string): (ws: Words)
    ensures AllWords(ws)
    decreases |s|
  {
    if s == "" then [] else
    if IsWordChar(s[0]) then
      var k := RunLength(s);
      [s[..k]] + WordsIn(s[k..])
    else WordsIn(s[1..])
  }

  // ------------------------------------------------------------------
  // Padded strings, as the source builds, searches and rewrites them
  // ------------------------------------------------------------------

  function JoinSpaced(ws: Words): string {
    if ws == [] then "" else if |ws| == 1 then ws[0] else ws[0] + " " + JoinSpaced(ws[1..])
  }

  function PaddedText(s: string): string {
    " " + JoinSpaced(WordsIn(s)) + " "
  }

  predicate StartsWith<T(==)>(s: seq<T>, prefix: seq<T>) {
    |prefix| <= |s| && s[..|prefix|] == prefix
  }

  // needle in hay
  predicate Has<T(==)>(hay: seq<T>, needle: seq<T>) {
    StartsWith(hay, needle) || (hay != [] && Has(hay[1..], needle))
  }

  // hay.replace(needle, with): left to right, never overlapping.
  function Replace(hay: string, needle: string, with: string): string
    requires needle != ""
  {
    if StartsWith(hay, needle) then with + Replace(hay[|needle|..], needle, with)
    else if hay == "" then ""
    else [hay[0]] + Replace(hay[1..], needle, with)
  }

  // ------------------------------------------------------------------
  // Padded strings are lists of tokens
  // ------------------------------------------------------------------

  // Each token followed by a space.
  function Tail(ts: Words): string {
    if ts == [] then "" else ts[0] + (" " + Tail(ts[1..]))
  }

  function Spaced(ts: Words): string {
    " " + Tail(ts)
  }

  // A text without words pads to two spaces: one empty token.
  function TokensOf(s: string): Words {
    if WordsIn(s) == [] then [""] else WordsIn(s)
  }

  lemma {:induction false} JoinIsTail(ws: Words)
    requires ws != []
    ensures JoinSpaced(ws) + " " == Tail(ws)
  {
    if |ws| > 1 {
      JoinIsTail(ws[1..]);
      assert JoinSpaced(ws) + " " == ws[0] + (" " + (JoinSpaced(ws[1..]) + " "));
    } else {
      assert ws[1..] == [];
    }
  }

  lemma PaddedIsSpaced(s: string)
    ensures PaddedText(s) == Spaced(TokensOf(s)) && Tokens(TokensOf(s))
    ensures forall i :: 0 <= i < |TokensOf(s)| ==> TokensOf(s)[i] != BAR
  {
    var ws := WordsIn(s);
    forall i | 0 <= i < |ws| ensures Token(ws[i]) && ws[i] != BAR { WordIsToken(ws[i]); }
    if ws == [] {
      assert Tail([""]) == "" + (" " + Tail([])) by { assert [""][1..] == []; }
    } else {
      JoinIsTail(ws);
      assert PaddedText(s) == " " + (JoinSpaced(ws) + " ");
    }
  }

  lemma WordIsToken(w: string)
    requires IsWord(w)
    ensures Token(w) && w != BAR
  {
    assert forall i :: 0 <= i < |w| ==> IsWordChar(w[i]) && w[i] != ' ';
    assert IsWordChar(w[0]);
  }

  lemma SameFirstToken(a: string, x: string, b: string, y: string)
    requires Token(a) && Token(b) && StartsWith(b + (" " + y), a + (" " + x))
    ensures a == b && StartsWith(y, x)
  {
    var p, s := a + (" " + x), b + (" " + y);
    assert forall i :: 0 <= i < |p| ==> p[i] == s[i] by { assert s[..|p|] == p; }
    assert |a| == |b| by {
      assert p[|a|] == ' ' && s[|a|] == ' ';
      if |b| < |p| { assert s[|b|] == ' ' && p[|b|] == ' '; }
    }
    assert forall i :: 0 <= i < |a| ==> a[i] == p[i] == s[i] == b[i];
    assert x == p[|a| + 1..] && y == s[|a| + 1..];
    assert y[..|x|] == x;
  }

  lemma TailAppend(a: string, xs: Words, ys: Words)
    ensures a + (" " + (Tail(xs) + Tail(ys))) == Tail([a] + xs) + Tail(ys)
  {
    assert ([a] + xs)[1..] == xs;
  }

  lemma {:induction false} PrefixIsTokens(ns: Words, ts: Words)
    requires Tokens(ns) && Tokens(ts)
    ensures StartsWith(Tail(ts), Tail(ns)) <==> StartsWith(ts, ns)
    ensures StartsWith(ts, ns) ==> Tail(ts) == Tail(ns) + Tail(ts[|ns|..])
  {
    if ns == [] {
      assert ts[0..] == ts;
    } else if ts != [] {
      PrefixIsTokens(ns[1..], ts[1..]);
      if StartsWith(Tail(ts), Tail(ns)) {
        SameFirstToken(ns[0], Tail(ns[1..]), ts[0], Tail(ts[1..]));
        assert ts[..|ns|] == [ts[0]] + ts[1..][..|ns| - 1];
      }
      if StartsWith(ts, ns) {
        assert ts[1..][..|ns| - 1] == ns[1..] && ts[1..][|ns| - 1..] == ts[|ns|..];
        TailAppend(ts[0], ns[1..], ts[|ns|..]);
        assert [ts[0]] + ns[1..] == ns && Tail([ts[0]] + ts[1..]) == Tail(ts) by { assert [ts[0]] + ts[1..] == ts; }
      }
    }
  }

  lemma SpacedPrefix(ns: Words, ts: Words)
    requires Tokens(ns) && Tokens(ts)
    ensures StartsWith(Spaced(ts), Spaced(ns)) <==> StartsWith(ts, ns)
  {
    PrefixIsTokens(ns, ts);
    assert Spaced(ts)[1..] == Tail(ts) && Spaced(ns)[1..] == Tail(ns);
    if StartsWith(Spaced(ts), Spaced(ns)) {
      assert Tail(ts)[..|Tail(ns)|] == Spaced(ts)[..|Spaced(ns)|][1..];
    }
    if StartsWith(Tail(ts), Tail(ns)) {
      assert Spaced(ts)[..|Spaced(ns)|] == " " + Tail(ts)[..|Tail(ns)|];
    }
  }

  // Inside a token no needle starts, because a needle starts with a space.
  lemma {:induction false} SkipToken(w: string, rest: string, needle: string, with: string)
    requires Token(w) && needle != "" && needle[0] == ' '
    ensures Replace(w + rest, needle, with) == w + Replace(rest, needle, with)
    ensures Has(w + rest, needle) <==> Has(rest, needle)
  {
    if w == "" {
      assert w + rest == rest;
    } else {
      SkipToken(w[1..], rest, needle, with);
      OneStep(w + rest, needle, with);
      assert (w + rest)[1..] == w[1..] + rest && (w + rest)[0] == w[0];
      hide Replace, Has;
      assert [w[0]] + (w[1..] + Replace(rest, needle, with)) == w + Replace(rest, needle, with);
    }
  }

  lemma OneStep(s: string, needle: string, with: string)
    requires s != "" && needle != "" && s[0] != needle[0]
    ensures Replace(s, needle, with) == [s[0]] + Replace(s[1..], needle, with)
    ensures Has(s, needle) <==> Has(s[1..], needle)
  {
  }

  // Blanking on tokens. After a match the next token is taken over unread: the
  // space in front of it went with the match.
  function Blank(ts: Words, ns: Words): Words
    requires ns != []
  {
    if ts == [] then []
    else if StartsWith(ts, ns) then
      var rest := ts[|ns|..];
      [BAR] + (if rest == [] then [] else [rest[0]] + Blank(rest[1..], ns))
    else [ts[0]] + Blank(ts[1..], ns)
  }

  lemma SpacedCons(a: string, ts: Words)
    ensures Spaced([a] + ts) == " " + (a + Spaced(ts))
  {
    assert ([a] + ts)[1..] == ts;
  }

  // Replacing in the padded string is blanking in the list of tokens.
  lemma {:induction false} ReplaceIsBlank(ts: Words, ns: Words)
    requires Tokens(ts) && Tokens(ns) && ns != []
    ensures Replace(Spaced(ts), Spaced(ns), " | ") == Spaced(Blank(ts, ns))
    ensures Tokens(Blank(ts, ns))
    decreases |ts|
  {
    SpacedPrefix(ns, ts);
    if StartsWith(ts, ns) {
      var rest := ts[|ns|..];
      if rest != [] { ReplaceIsBlank(rest[1..], ns); }
      ReplaceMatch(ts, ns);
    } else if ts == [] {
      assert Spaced(ts)[1..] == "";
    } else {
      ReplaceIsBlank(ts[1..], ns);
      ReplaceMiss(ts, ns);
    }
  }

  lemma ReplaceAtMatch(ts: Words, ns: Words)
    requires Tokens(ts) && Tokens(ns) && StartsWith(ts, ns) && StartsWith(Spaced(ts), Spaced(ns))
    ensures Replace(Spaced(ts), Spaced(ns), " | ") == " | " + Replace(Tail(ts[|ns|..]), Spaced(ns), " | ")
  {
    PrefixIsTokens(ns, ts);
    hide Tail;
    assert Spaced(ts)[|Spaced(ns)|..] == Tail(ts[|ns|..]);
  }

  lemma ReplaceMatch(ts: Words, ns: Words)
    requires Tokens(ts) && Tokens(ns) && ns != [] && StartsWith(ts, ns)
    requires StartsWith(Spaced(ts), Spaced(ns))
    requires var rest := ts[|ns|..]; rest != [] ==>
      Replace(Spaced(rest[1..]), Spaced(ns), " | ") == Spaced(Blank(rest[1..], ns))
    ensures Replace(Spaced(ts), Spaced(ns), " | ") == Spaced(Blank(ts, ns))
  {
    var needle, rest := Spaced(ns), ts[|ns|..];
    ReplaceAtMatch(ts, ns);
    if rest == [] {
      SpacedCons(BAR, []);
      assert [BAR] + [] == [BAR] && Blank(ts, ns) == [BAR];
      assert Replace("", needle, " | ") == "";
    } else {
      var blanked := Blank(rest[1..], ns);
      assert Blank(ts, ns) == [BAR] + ([rest[0]] + blanked);
      assert Tail(rest) == rest[0] + Spaced(rest[1..]);
      hide Blank, Replace, Tail, StartsWith;
      SkipToken(rest[0], Spaced(rest[1..]), needle, " | ");
      SpacedCons(rest[0], blanked);
      SpacedCons(BAR, [rest[0]] + blanked);
      assert " " + (BAR + Spaced([rest[0]] + blanked)) == " | " + (rest[0] + Spaced(blanked));
    }
  }

  lemma ReplaceMiss(ts: Words, ns: Words)
    requires Tokens(ts) && Tokens(ns) && ns != [] && ts != [] && !StartsWith(ts, ns)
    requires !StartsWith(Spaced(ts), Spaced(ns))
    requires Replace(Spaced(ts[1..]), Spaced(ns), " | ") == Spaced(Blank(ts[1..], ns))
    ensures Replace(Spaced(ts), Spaced(ns), " | ") == Spaced(Blank(ts, ns))
  {
    assert Spaced(ts)[1..] == ts[0] + Spaced(ts[1..]);
    SkipToken(ts[0], Spaced(ts[1..]), Spaced(ns), " | ");
    SpacedCons(ts[0], Blank(ts[1..], ns));
  }

  lemma {:induction false} HasIsRun(ts: Words, ns: Words)
    requires Tokens(ts) && Tokens(ns) && ns != []
    ensures Has(Spaced(ts), Spaced(ns)) <==> Has(ts, ns)
  {
    SpacedPrefix(ns, ts);
    if ts == [] {
      assert Spaced(ts)[1..] == "";
    } else if !StartsWith(ts, ns) {
      assert Spaced(ts)[1..] == Tail(ts) == ts[0] + Spaced(ts[1..]);
      SkipToken(ts[0], Spaced(ts[1..]), Spaced(ns), "");
      HasIsRun(ts[1..], ns);
    }
  }

  // ------------------------------------------------------------------
  // What a word is
  // ------------------------------------------------------------------

  lemma {:induction false} RunBefore(w: string, s: string)
    requires AlphaNumeric(w) && (s == "" || !(('a' <= s[0] <= 'z') || ('0' <= s[0] <= '9')))
    ensures RunLength(w + s) == |w|
  {
    if w == "" {
      assert w + s == s;
    } else {
      RunBefore(w[1..], s);
      assert (w + s)[0] == w[0] && (w + s)[1..] == w[1..] + s;
    }
  }

  // Lower-case letters and digits, and nothing else.
  predicate AlphaNumeric(w: string) {
    forall i :: 0 <= i < |w| ==> 'a' <= w[i] <= 'z' || '0' <= w[i] <= '9'
  }

  // Words joined by spaces read back as those words.
  lemma {:induction false} WordsReadBack(ws: Words)
    requires forall i :: 0 <= i < |ws| ==> ws[i] != "" && AlphaNumeric(ws[i])
    ensures WordsIn(JoinSpaced(ws)) == ws
  {
    if ws != [] {
      var w, rest := ws[0], if |ws| == 1 then "" else " " + JoinSpaced(ws[1..]);
      WordsReadBack(ws[1..]);
      assert JoinSpaced(ws) == w + rest;
      RunBefore(w, rest);
      hide RunLength;
      assert (w + rest)[0] == w[0] && (w + rest)[..|w|] == w && (w + rest)[|w|..] == rest;
      if |ws| == 1 { assert ws[1..] == []; } else { assert rest[1..] == JoinSpaced(ws[1..]); }
    }
  }

  // Any other character only separates words.
  lemma {:induction false} SeparatorSplits(a: string, c: char, b: string)
    requires !(('a' <= c <= 'z') || ('0' <= c <= '9'))
    ensures WordsIn(a + [c] + b) == WordsIn(a) + WordsIn(b)
    decreases |a|
  {
    var s := a + [c] + b;
    hide WordsIn, RunLength;
    WordsStep(s);
    if a == "" {
      assert s[0] == c && s[1..] == b;
      NoWords();
    } else {
      WordsStep(a);
      var k := if IsWordChar(a[0]) then RunLength(a) else 1;
      if IsWordChar(a[0]) { RunStops(a, c, b); }
      SeparatorSplits(a[k..], c, b);
      assert s[0] == a[0] && s[..k] == a[..k] && s[k..] == a[k..] + [c] + b;
      if IsWordChar(a[0]) { AppendOne(a[..k], WordsIn(a[k..]), WordsIn(b)); }
    }
  }

  lemma NoWords()
    ensures WordsIn("") == []
  {
  }

  lemma AppendOne(w: string, x: Words, y: Words)
    ensures [w] + (x + y) == [w] + x + y
  {
  }

  lemma WordsStep(s: string)
    requires s != ""
    ensures IsWordChar(s[0]) ==> RunLength(s) > 0 && WordsIn(s) == [s[..RunLength(s)]] + WordsIn(s[RunLength(s)..])
    ensures !IsWordChar(s[0]) ==> WordsIn(s) == WordsIn(s[1..])
  {
  }

  lemma {:induction false} RunStops(a: string, c: char, b: string)
    requires !(('a' <= c <= 'z') || ('0' <= c <= '9'))
    ensures RunLength(a + [c] + b) == RunLength(a)
  {
    var s := a + [c] + b;
    if a != "" && IsWordChar(a[0]) {
      RunStops(a[1..], c, b);
      assert s[1..] == a[1..] + [c] + b;
    }
  }
}
