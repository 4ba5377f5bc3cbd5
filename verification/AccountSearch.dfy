// The account search itself: longest names first, over every text, in the
// padded strings the source searches and rewrites.
module AccountSearch {
  import opened AccountNames
  import opened AccountMatching
  import opened AccountTurns
  import opened AccountExclusion

  // Each haystack shows a masked copy of its text.
  ghost predicate Blanked(hay: string, m: Words, text: string) {
    && hay == Spaced(Visible(m)) && Tokens(Visible(m)) && WellMasked(m)
    && MaskedCopy(m, text)
  }

  lemma FreshIsBlanked(text: string)
    ensures Blanked(PaddedText(text), TokensOf(text), text)
  {
    PaddedIsSpaced(text);
    var m := TokensOf(text);
    forall i | 0 <= i < |m| ensures !Masked(m[i]) {
      if WordsIn(text) != [] { NotMasked(m[i]); }
    }
    NothingHidden(m);
  }

  lemma {:induction false} NothingHidden(m: Words)
    requires forall i :: 0 <= i < |m| ==> !Masked(m[i])
    ensures Visible(m) == m
  {
    if m != [] { NothingHidden(m[1..]); }
  }

  // Searching the haystack is searching the unmasked words.
  lemma SearchStep(hay: string, m: Words, text: string, name: string)
    requires Blanked(hay, m, text) && WordsIn(name) != []
    ensures PaddedText(name) == Spaced(WordsIn(name))
    ensures Has(hay, PaddedText(name)) <==> exists p :: 0 <= p <= |m| && RunAt(m, p, WordsIn(name))
    ensures Blanked(Replace(hay, PaddedText(name), " | "), Mask(m, WordsIn(name)), text)
  {
    var ns := WordsIn(name);
    PaddedIsSpaced(name);
    HasIsRun(Visible(m), ns);
    FoundIsRun(m, ns);
    ReplaceIsBlank(Visible(m), ns);
    MaskIsBlank(m, ns);
    MaskWellMasked(m, ns);
    MaskKeepsCopy(m, text, ns);
    hide Mask, Visible, Replace, Has, Blank, WordsIn, PaddedText;
  }

  ghost predicate AllBlanked(haystacks: seq<string>, masks: seq<Words>, texts: seq<string>) {
    && |haystacks| == |masks| == |texts|
    && forall j :: 0 <= j < |texts| ==> Blanked(haystacks[j], masks[j], texts[j])
  }

  lemma AtStart(haystacks: seq<string>, texts: seq<string>)
    requires |haystacks| == |texts| && forall j :: 0 <= j < |texts| ==> haystacks[j] == PaddedText(texts[j])
    ensures AllBlanked(haystacks, Fresh(texts), texts)
  {
    forall j | 0 <= j < |texts| ensures Blanked(haystacks[j], Fresh(texts)[j], texts[j]) { FreshIsBlanked(texts[j]); }
  }

  predicate AnyHas(haystacks: seq<string>, needle: string) {
    exists j :: 0 <= j < |haystacks| && Has(haystacks[j], needle)
  }

  function ReplaceAll(haystacks: seq<string>, needle: string): seq<string>
    requires needle != ""
  {
    seq(|haystacks|, j requires 0 <= j < |haystacks| => Replace(haystacks[j], needle, " | "))
  }

  lemma KeyEmptyIff(name: string)
    ensures KeyOf(name) == "" <==> WordsIn(name) == []
    ensures PaddedText(name) != ""
  {
    if WordsIn(name) != [] { assert IsWord(WordsIn(name)[0]); }
  }

  // The padded name is in a haystack exactly when its words stand unmasked.
  lemma FoundIffStands(haystacks: seq<string>, masks: seq<Words>, texts: seq<string>, name: string)
    requires AllBlanked(haystacks, masks, texts) && WordsIn(name) != []
    ensures AnyHas(haystacks, PaddedText(name)) <==> Stands(masks, WordsIn(name))
  {
    forall j | 0 <= j < |texts|
      ensures Has(haystacks[j], PaddedText(name)) <==> exists p: nat :: RunAt(masks[j], p, WordsIn(name))
    {
      SearchStep(haystacks[j], masks[j], texts[j], name);
      if p: nat :| RunAt(masks[j], p, WordsIn(name)) { assert 0 <= p <= |masks[j]|; }
    }
    hide AllBlanked, PaddedText, Has, RunAt;
  }

  lemma BlankingStays(haystacks: seq<string>, masks: seq<Words>, texts: seq<string>, name: string)
    requires AllBlanked(haystacks, masks, texts) && WordsIn(name) != [] && PaddedText(name) != ""
    ensures AllBlanked(ReplaceAll(haystacks, PaddedText(name)), MaskAll(masks, WordsIn(name)), texts)
  {
    forall j | 0 <= j < |texts|
      ensures Blanked(ReplaceAll(haystacks, PaddedText(name))[j], MaskAll(masks, WordsIn(name))[j], texts[j])
    {
      SearchStep(haystacks[j], masks[j], texts[j], name);
    }
  }

  // A name that does not stand leaves the masks as they are.
  lemma NothingToBlank(masks: seq<Words>, ns: Words)
    requires !Stands(masks, ns)
    ensures MaskAll(masks, ns) == masks
  {
    if ns != [] {
      forall j: nat | j < |masks| ensures Mask(masks[j], ns) == masks[j] { MaskNothing(masks[j], ns); }
    }
  }

  // ------------------------------------------------------------------
  // The loop
  // ------------------------------------------------------------------

  // After n turns: whose name stood at its turn, and nobody else.
  ghost predicate FoundSoFar(matched: set<nat>, names: seq<string>, texts: seq<string>, order: seq<nat>, n: nat)
    requires InRange(order, names) && n <= |order|
  {
    && (forall a: nat :: a in matched ==> a in order[..n])
    && forall i: nat :: i < n ==>
      (order[i] in matched <==> Stands(MasksAfter(names, texts, order[..i]), WordsIn(names[order[i]])))
  }

  // Tries every account, longest name first, blanking what it finds.
  method MatchAll(names: seq<string>, texts: seq<string>, keys: seq<string>, order: seq<nat>) returns (matched: set<nat>)
    requires keys == Keys(names) && InRange(order, names)
    requires forall i, j :: 0 <= i < j < |order| ==> order[i] != order[j]
    ensures FoundSoFar(matched, names, texts, order, |order|)
  {
    var haystacks: seq<string> := seq(|texts|, j requires 0 <= j < |texts| => PaddedText(texts[j]));
    AtStart(haystacks, texts);
    matched := {};
    assert order[..0] == [];
    hide AllBlanked, KeyOf, PaddedText, WordsIn;
    for n := 0 to |order|
      invariant AllBlanked(haystacks, MasksAfter(names, texts, order[..n]), texts)
      invariant FoundSoFar(matched, names, texts, order, n)
    {
      hide FoundSoFar, MasksAfter, AnyHas, ReplaceAll, Stands;
      var a := order[n];
      KeyEmptyIff(names[a]);
      var needle := PaddedText(names[a]);
      OneTurn(haystacks, names, texts, order, n);
      if keys[a] != "" && AnyHas(haystacks, needle) {
        OneFound(matched, names, texts, order, n);
        matched := matched + {a};
        haystacks := ReplaceAll(haystacks, needle);
      } else {
        OneNotFound(matched, names, texts, order, n);
      }
    }
  }

  lemma OneTurn(haystacks: seq<string>, names: seq<string>, texts: seq<string>, order: seq<nat>, n: nat)
    requires InRange(order, names) && n < |order| && PaddedText(names[order[n]]) != ""
    requires AllBlanked(haystacks, MasksAfter(names, texts, order[..n]), texts)
    ensures var name, next := names[order[n]], MasksAfter(names, texts, order[..n + 1]);
      if KeyOf(name) != "" && AnyHas(haystacks, PaddedText(name))
      then Stands(MasksAfter(names, texts, order[..n]), WordsIn(name))
           && AllBlanked(ReplaceAll(haystacks, PaddedText(name)), next, texts)
      else !Stands(MasksAfter(names, texts, order[..n]), WordsIn(name)) && AllBlanked(haystacks, next, texts)
  {
    var masks, name := MasksAfter(names, texts, order[..n]), names[order[n]];
    OneMoreTurn(names, texts, order, n);
    KeyEmptyIff(name);
    StandsNotEmpty(masks, WordsIn(name));
    hide AllBlanked, KeyOf, PaddedText, WordsIn, MasksAfter, AnyHas, ReplaceAll, Stands, MaskAll;
    if WordsIn(name) != [] { FoundIffStands(haystacks, masks, texts, name); }
    if Stands(masks, WordsIn(name)) {
      BlankingStays(haystacks, masks, texts, name);
    } else {
      NothingToBlank(masks, WordsIn(name));
    }
  }

  lemma OneFound(matched: set<nat>, names: seq<string>, texts: seq<string>, order: seq<nat>, n: nat)
    requires InRange(order, names) && n < |order| && FoundSoFar(matched, names, texts, order, n)
    requires forall i, j :: 0 <= i < j < |order| ==> order[i] != order[j]
    requires Stands(MasksAfter(names, texts, order[..n]), WordsIn(names[order[n]]))
    ensures FoundSoFar(matched + {order[n]}, names, texts, order, n + 1)
  {
    hide Stands, MasksAfter, WordsIn;
    assert order[..n + 1] == order[..n] + [order[n]];
  }

  lemma OneNotFound(matched: set<nat>, names: seq<string>, texts: seq<string>, order: seq<nat>, n: nat)
    requires InRange(order, names) && n < |order| && FoundSoFar(matched, names, texts, order, n)
    requires forall i, j :: 0 <= i < j < |order| ==> order[i] != order[j]
    requires !Stands(MasksAfter(names, texts, order[..n]), WordsIn(names[order[n]]))
    ensures FoundSoFar(matched, names, texts, order, n + 1)
  {
    hide Stands, MasksAfter, WordsIn;
    assert order[..n + 1] == order[..n] + [order[n]];
    assert order[n] !in order[..n];
  }

  lemma StandsNotEmpty(masks: seq<Words>, ns: Words)
    ensures Stands(masks, ns) ==> ns != []
  {
  }

  lemma OneMoreTurn(names: seq<string>, texts: seq<string>, order: seq<nat>, n: nat)
    requires InRange(order, names) && n < |order|
    ensures MasksAfter(names, texts, order[..n + 1])
         == MaskAll(MasksAfter(names, texts, order[..n]), WordsIn(names[order[n]]))
  {
    assert order[..n + 1][..n] == order[..n];
  }

  // What the whole loop found is what matches at its own turn.
  lemma FoundIsMatches(names: seq<string>, texts: seq<string>, order: seq<nat>, n: nat)
    requires order == LongestFirst(Keys(names), |names|) && InRange(order, names) && n < |order|
    requires forall i, j :: 0 <= i < j < |order| ==> order[i] != order[j]
    ensures Matches(names, texts, order[n]) <==> Stands(MasksAfter(names, texts, order[..n]), WordsIn(names[order[n]]))
  {
    UpToIs(order, n);
  }

  function InTableOrder(n: nat, matched: set<nat>): (r: seq<nat>)
    ensures forall a :: a in r <==> a in matched && a < n
    ensures forall i :: 0 <= i < |r| ==> r[i] < n
    ensures forall i, j :: 0 <= i < j < |r| ==> r[i] < r[j]
  {
    if n == 0 then [] else
    var before := InTableOrder(n - 1, matched);
    if n - 1 in matched then before + [n - 1] else before
  }

  // str.lower, text by text; what it does to a text is not fixed here.
  function Lowered(texts: seq<string>, lower: string -> string): (r: seq<string>)
    ensures |r| == |texts| && forall i :: 0 <= i < |texts| ==> r[i] == lower(texts[i])
  {
    seq(|texts|, i requires 0 <= i < |texts| => lower(texts[i]))
  }

  // Who is found, in full and in particular.
  ghost predicate Answers(found: seq<nat>, names: seq<string>, texts: seq<string>) {
    && (forall i, j :: 0 <= i < j < |found| ==> found[i] < found[j])
    // Exactly the accounts whose name stands unmasked at their turn.
    && (forall a: nat :: a in found <==> a < |names| && Matches(names, texts, a))
    // Sound: a whole-word run of an original text.
    && (forall a: nat :: a in found ==> exists j: nat, p: nat :: NamedAt(names[a], texts, j, p))
    // Complete: found when no account tried earlier touches one of its mentions.
    && (forall a: nat, j: nat, p: nat :: a < |names| && ClearAt(names, texts, a, j, p) ==> a in found)
    // Mentioned only within other names: found if and only if said twice running.
    && (forall a: nat :: a < |names| && AlwaysCovered(names, texts, a) ==> (a in found <==> SaidTwice(names, texts, a)))
  }

  method AccountsNamedIn(names: seq<string>, texts: seq<string>, lower: string -> string) returns (found: seq<nat>)
    ensures Answers(found, Lowered(names, lower), Lowered(texts, lower))
  {
    found := LoweredNamedIn(Lowered(names, lower), Lowered(texts, lower));
  }

  // The search on names and texts already lower-cased.
  method LoweredNamedIn(names: seq<string>, texts: seq<string>) returns (found: seq<nat>)
    ensures Answers(found, names, texts)
  {
    var keys := Keys(names);
    var order := LongestFirst(keys, |names|);
    LongestFirstIs(keys, |names|);
    DescendingIsDistinct(order, keys);
    var matched := MatchAll(names, texts, keys, order);
    found := InTableOrder(|names|, matched);
    forall a: nat ensures a in found <==> a < |names| && Matches(names, texts, a) {
      if a < |names| {
        assert a in order;
        var n: nat :| n < |order| && order[n] == a;
        FoundIsMatches(names, texts, order, n);
      }
    }
    MatchesAnswer(found, names, texts);
  }

  lemma DescendingIsDistinct(order: seq<nat>, keys: seq<string>)
    requires Descending(order, keys)
    ensures forall i, j :: 0 <= i < j < |order| ==> order[i] != order[j]
  {
  }

  lemma MatchesAnswer(found: seq<nat>, names: seq<string>, texts: seq<string>)
    requires forall i, j :: 0 <= i < j < |found| ==> found[i] < found[j]
    requires forall a: nat :: a in found <==> a < |names| && Matches(names, texts, a)
    ensures Answers(found, names, texts)
  {
    hide Matches, AlwaysCovered, SaidTwice, ClearAt, NamedAt;
    forall a: nat | a in found ensures exists j: nat, p: nat :: NamedAt(names[a], texts, j, p) {
      MatchIsNamed(names, texts, a);
    }
    forall a: nat, j: nat, p: nat | a < |names| && ClearAt(names, texts, a, j, p) ensures a in found {
      ClearMatches(names, texts, a, j, p);
    }
    forall a: nat | a < |names| && AlwaysCovered(names, texts, a) ensures a in found <==> SaidTwice(names, texts, a) {
      ExcludedIff(names, texts, a);
    }
  }
}
