// When a name inside a longer one is found as well. The longer name is blanked
// first, but a search-and-replace takes the space behind a match with it and
// so misses a second match that follows at once.
module AccountExclusion {
  import opened AccountNames
  import opened AccountMatching
  import opened AccountTurns

  // ------------------------------------------------------------------
  // The statement
  // ------------------------------------------------------------------

  // Every account of these that touches the words at q has them for its name.
  ghost predicate Own(names: seq<string>, texts: seq<string>, tried: seq<nat>, j: nat, q: nat, ns: Words)
    requires InRange(tried, names)
  {
    forall c: nat, k: nat ::
      (c in tried && NamedAt(names[c], texts, j, k) && Overlap(q, |ns|, k, |WordsIn(names[c])|))
      ==> k == q && WordsIn(names[c]) == ns
  }

  // The mention of a at p lies within a mention of b at q, b tried before a.
  ghost predicate Covered(names: seq<string>, texts: seq<string>, a: nat, j: nat, p: nat, b: nat, q: nat)
    requires a < |names|
  {
    && NamedAt(names[a], texts, j, p)
    && b in Before(names, a) && NamedAt(names[b], texts, j, q)
    && q <= p && p + |WordsIn(names[a])| <= q + |WordsIn(names[b])|
    && Own(names, texts, Before(names, a), j, q, WordsIn(names[b]))
  }

  ghost predicate AlwaysCovered(names: seq<string>, texts: seq<string>, a: nat)
    requires a < |names|
  {
    forall j: nat, p: nat :: NamedAt(names[a], texts, j, p) ==> exists b: nat, q: nat :: Covered(names, texts, a, j, p, b, q)
  }

  // Some text says b's name twice running, and no other account has b's name.
  ghost predicate SaidTwice(names: seq<string>, texts: seq<string>, a: nat)
    requires a < |names|
  {
    exists j: nat, p: nat, b: nat, q: nat ::
      && Covered(names, texts, a, j, p, b, q)
      && Turns(names, Before(names, a), WordsIn(names[b])) == 1
      && q >= |WordsIn(names[b])| && NamedAt(names[b], texts, j, q - |WordsIn(names[b])|)
  }

  // How many of these accounts have this name.
  function Turns(names: seq<string>, tried: seq<nat>, ns: Words): nat
    requires InRange(tried, names)
  {
    if tried == [] then 0 else
    var n := |tried| - 1;
    Turns(names, tried[..n], ns) + if WordsIn(names[tried[n]]) == ns then 1 else 0
  }

  // ------------------------------------------------------------------
  // What becomes of one mention, turn by turn
  // ------------------------------------------------------------------

  ghost predicate Behind(ws: Words, m: Words, q: nat, ns: Words) {
    q >= |ns| && RunAt(ws, q - |ns|, ns) && !RunAt(m, q - |ns|, ns)
  }

  // Before its name's turn it stands. After one turn it is masked, unless the
  // same name ended where it starts and that mention was masked instead.
  // After two it is masked.
  ghost predicate Fate(ws: Words, m: Words, q: nat, ns: Words, turns: nat) {
    && (turns == 0 ==> RunAt(m, q, ns))
    && (turns >= 1 ==> AllMasked(m, q, |ns|) || (RunAt(m, q, ns) && Behind(ws, m, q, ns)))
    && (turns >= 2 ==> AllMasked(m, q, |ns|))
  }

  lemma MaskedStays(m: Words, q: nat, n: nat, other: Words)
    requires AllMasked(m, q, n) && other != []
    ensures AllMasked(Mask(m, other), q, n)
  {
    forall i: nat | i < |m| { MaskChanges(m, other, i); }
  }

  // Masking makes no run.
  lemma NoNewRun(m: Words, q: nat, ns: Words, other: Words)
    requires AllWords(ns) && other != [] && RunAt(Mask(m, other), q, ns)
    ensures RunAt(m, q, ns)
  {
    var r := Mask(m, other);
    forall i | 0 <= i < |ns| ensures m[q + i] == ns[i] {
      NotMasked(ns[i]);
      assert r[q..q + |ns|][i] == r[q + i];
      MaskChanges(m, other, q + i);
    }
    assert m[q..q + |ns|] == ns;
  }

  lemma MaskedNoRun(m: Words, q: nat, ns: Words)
    requires AllMasked(m, q, |ns|) && AllWords(ns) && ns != []
    ensures !RunAt(m, q, ns)
  {
    NotMasked(ns[0]);
  }

  lemma OtherTurn(m: Words, text: string, q: nat, ns: Words, turns: nat, other: Words)
    requires MaskedCopy(m, text) && AllWords(ns) && ns != [] && AllWords(other) && other != []
    requires Fate(WordsIn(text), m, q, ns, turns)
    requires forall k: nat :: RunAt(WordsIn(text), k, other) ==> !Overlap(q, |ns|, k, |other|)
    ensures Fate(WordsIn(text), Mask(m, other), q, ns, turns)
  {
    if AllMasked(m, q, |ns|) { MaskedStays(m, q, |ns|, other); }
    if RunAt(m, q, ns) { ClearStays(m, text, q, ns, other); }
    if q >= |ns| && RunAt(Mask(m, other), q - |ns|, ns) { NoNewRun(m, q - |ns|, ns, other); }
    if turns == 0 && AllMasked(m, q, |ns|) { MaskedNoRun(m, q, ns); }
  }

  lemma LoneInCopy(m: Words, text: string, q: nat, ns: Words)
    requires MaskedCopy(m, text) && AllWords(ns) && ns != [] && Lone(WordsIn(text), q, ns)
    ensures Lone(m, q, ns)
  {
    forall k: nat | RunAt(m, k, ns) && Overlap(q, |ns|, k, |ns|) ensures k == q { RunIsOriginal(m, text, k, ns); }
  }

  lemma OwnTurn(m: Words, text: string, q: nat, ns: Words, turns: nat)
    requires MaskedCopy(m, text) && AllWords(ns) && ns != [] && Lone(WordsIn(text), q, ns)
    requires Fate(WordsIn(text), m, q, ns, turns)
    ensures Fate(WordsIn(text), Mask(m, ns), q, ns, turns + 1)
  {
    if AllMasked(m, q, |ns|) {
      MaskedStays(m, q, |ns|, ns);
    } else {
      LoneInCopy(m, text, q, ns);
      LoneTaken(m, ns, q);
      LoneAfter(m, ns, q);
      if !Takes(m, ns, q) { TakenBehind(m, text, q, ns); }
    }
  }

  lemma TakenBehind(m: Words, text: string, q: nat, ns: Words)
    requires MaskedCopy(m, text) && AllWords(ns) && ns != [] && Takes(m, ns, q - |ns|)
    ensures RunAt(m, q - |ns|, ns) && Behind(WordsIn(text), Mask(m, ns), q, ns)
  {
    var k := q - |ns|;
    TakenIsRun(m, ns, k);
    RunIsOriginal(m, text, k, ns);
    forall i | k <= i < k + |ns| ensures Masked(Mask(m, ns)[i]) {
      MaskTakes(m, ns, i);
      assert InTaken(m, ns, i);
    }
    MaskedNoRun(Mask(m, ns), k, ns);
  }

  lemma {:induction false} FateAfter(names: seq<string>, texts: seq<string>, tried: seq<nat>, j: nat, q: nat, ns: Words)
    requires InRange(tried, names) && j < |texts| && AllWords(ns) && ns != []
    requires RunAt(WordsIn(texts[j]), q, ns) && Lone(WordsIn(texts[j]), q, ns) && Own(names, texts, tried, j, q, ns)
    ensures Fate(WordsIn(texts[j]), MasksAfter(names, texts, tried)[j], q, ns, Turns(names, tried, ns))
  {
    if tried == [] {
      FreshRun(texts, j, q, ns);
    } else {
      var front, c := tried[..|tried| - 1], tried[|tried| - 1];
      FateAfter(names, texts, front, j, q, ns);
      CopyStays(names, texts, front, j);
      var m, other := MasksAfter(names, texts, front)[j], WordsIn(names[c]);
      hide Fate, Lone, MaskedCopy;
      if other == ns {
        OwnTurn(m, texts[j], q, ns, Turns(names, front, ns));
      } else if other != [] {
        forall k: nat | RunAt(WordsIn(texts[j]), k, other) ensures !Overlap(q, |ns|, k, |other|) {
          assert NamedAt(names[c], texts, j, k);
        }
        OtherTurn(m, texts[j], q, ns, Turns(names, front, ns), other);
      }
    }
  }

  // ------------------------------------------------------------------
  // The exclusion and its limit
  // ------------------------------------------------------------------

  lemma CoverFate(names: seq<string>, texts: seq<string>, all: seq<nat>, b: nat, tried: seq<nat>, j: nat, q: nat)
    requires InRange(all, names) && b in all && b < |names| && NamedAt(names[b], texts, j, q)
    requires Own(names, texts, all, j, q, WordsIn(names[b]))
    requires InRange(tried, names) && forall c :: c in tried ==> c in all
    ensures var ns := WordsIn(names[b]);
      && Lone(WordsIn(texts[j]), q, ns)
      && Fate(WordsIn(texts[j]), MasksAfter(names, texts, tried)[j], q, ns, Turns(names, tried, ns))
  {
    var ns := WordsIn(names[b]);
    forall k: nat | RunAt(WordsIn(texts[j]), k, ns) && Overlap(q, |ns|, k, |ns|) ensures k == q {
      assert NamedAt(names[b], texts, j, k);
    }
    hide Fate, Overlap;
    FateAfter(names, texts, tried, j, q, ns);
  }

  lemma {:induction false} TurnsSplit(names: seq<string>, tried: seq<nat>, i: nat, ns: Words)
    requires InRange(tried, names) && i <= |tried|
    ensures Turns(names, tried, ns) == Turns(names, tried[..i], ns) + Turns(names, tried[i..], ns)
  {
    var n := |tried| - 1;
    if i == |tried| {
      assert tried[..i] == tried && tried[i..] == [];
    } else {
      TurnsSplit(names, tried[..n], i, ns);
      assert tried[..n][..i] == tried[..i];
      var rest := tried[i..];
      assert rest[..n - i] == tried[..n][i..];
      assert rest[n - i] == tried[n];
      hide WordsIn;
    }
  }

  lemma {:induction false} NoTurn(names: seq<string>, tried: seq<nat>, ns: Words, c: nat)
    requires InRange(tried, names) && Turns(names, tried, ns) == 0 && c in tried
    ensures WordsIn(names[c]) != ns
  {
    var i: nat :| i < |tried| && tried[i] == c;
    TurnsSplit(names, tried, i, ns);
    assert tried[i..] == [c] + tried[i + 1..];
    TurnsSplit(names, tried[i..], 1, ns);
    assert tried[i..][..1] == [c] && [c][..0] == [];
    assert Turns(names, [c], ns) == Turns(names, [], ns) + if WordsIn(names[c]) == ns then 1 else 0;
  }

  lemma OutsideMask(m: Words, p: nat, ns: Words, q: nat, n: nat)
    requires AllWords(ns) && ns != [] && RunAt(m, p, ns) && q <= p && p + |ns| <= q + n
    ensures !AllMasked(m, q, n)
  {
    NotMasked(ns[0]);
    assert m[p..p + |ns|][0] == m[p];
  }

  lemma FoundNeedsTwice(names: seq<string>, texts: seq<string>, a: nat)
    requires a < |names| && AlwaysCovered(names, texts, a) && Matches(names, texts, a)
    ensures SaidTwice(names, texts, a)
  {
    var tried, ns := Before(names, a), WordsIn(names[a]);
    var masks := MasksAfter(names, texts, tried);
    var j: nat, p: nat :| j < |masks| && RunAt(masks[j], p, ns);
    CopyStays(names, texts, tried, j);
    RunIsOriginal(masks[j], texts[j], p, ns);
    assert NamedAt(names[a], texts, j, p);
    var b: nat, q: nat :| Covered(names, texts, a, j, p, b, q);
    var bs := WordsIn(names[b]);
    CoverFate(names, texts, tried, b, tried, j, q);
    if Turns(names, tried, bs) == 0 { NoTurn(names, tried, bs, b); }
    OutsideMask(masks[j], p, ns, q, |bs|);
    assert NamedAt(names[b], texts, j, q - |bs|);
  }

  // Of two mentions running, one stands after the name's only turn.
  lemma OneOfTwoStands(m: Words, text: string, q: nat, ns: Words) returns (k: nat)
    requires MaskedCopy(m, text) && AllWords(ns) && ns != [] && q >= |ns|
    requires RunAt(m, q, ns) && Lone(WordsIn(text), q, ns)
    requires RunAt(m, q - |ns|, ns) && Lone(WordsIn(text), q - |ns|, ns)
    ensures (k == q || k == q - |ns|) && RunAt(Mask(m, ns), k, ns)
  {
    LoneInCopy(m, text, q, ns);
    LoneInCopy(m, text, q - |ns|, ns);
    LoneTaken(m, ns, q);
    LoneAfter(m, ns, q);
    LoneAfter(m, ns, q - |ns|);
    k := if Takes(m, ns, q) then q - |ns| else q;
  }

  lemma InnerRun(m: Words, q: nat, outer: Words, d: nat, inner: Words)
    requires RunAt(m, q, outer) && RunAt(outer, d, inner)
    ensures RunAt(m, q + d, inner)
  {
    var start := q + d;
    forall i | 0 <= i < |inner| ensures m[start + i] == inner[i] {
      assert m[q..q + |outer|][d + i] == m[start + i];
      assert outer[d..d + |inner|][i] == outer[d + i];
    }
    assert m[start..start + |inner|] == inner;
  }

  lemma InnerWords(ws: Words, q: nat, outer: Words, p: nat, inner: Words)
    requires RunAt(ws, q, outer) && RunAt(ws, p, inner) && q <= p && p + |inner| <= q + |outer|
    ensures RunAt(outer, p - q, inner)
  {
    var d := p - q;
    forall i | 0 <= i < |inner| ensures outer[d + i] == inner[i] {
      assert ws[q..q + |outer|][d + i] == ws[p + i];
      assert ws[p..p + |inner|][i] == ws[p + i];
    }
    assert outer[d..d + |inner|] == inner;
  }

  lemma CoverHolds(names: seq<string>, texts: seq<string>, a: nat, j: nat, p: nat, b: nat, q: nat)
    requires a < |names| && Covered(names, texts, a, j, p, b, q)
    ensures q <= p && RunAt(WordsIn(names[b]), p - q, WordsIn(names[a]))
  {
    hide RunAt, Own;
    InnerWords(WordsIn(texts[j]), q, WordsIn(names[b]), p, WordsIn(names[a]));
  }

  // The mention before a covered one is as solitary as it.
  lemma TwinIsOwn(names: seq<string>, texts: seq<string>, a: nat, j: nat, p: nat, b: nat, q: nat, k: nat)
    requires a < |names| && AlwaysCovered(names, texts, a) && Covered(names, texts, a, j, p, b, q)
    requires NamedAt(names[b], texts, j, k)
    ensures Own(names, texts, Before(names, a), j, k, WordsIn(names[b]))
  {
    var d := p - q;
    CoverHolds(names, texts, a, j, p, b, q);
    InnerRun(WordsIn(texts[j]), k, WordsIn(names[b]), d, WordsIn(names[a]));
    assert NamedAt(names[a], texts, j, k + d);
    var c: nat, r: nat :| Covered(names, texts, a, j, k + d, c, r);
    hide RunAt, Before;
    assert Overlap(r, |WordsIn(names[c])|, k, |WordsIn(names[b])|);
  }

  lemma TwiceIsFound(names: seq<string>, texts: seq<string>, a: nat)
    requires a < |names| && AlwaysCovered(names, texts, a) && SaidTwice(names, texts, a)
    ensures Matches(names, texts, a)
  {
    var j: nat, p: nat, b: nat, q: nat :|
      && Covered(names, texts, a, j, p, b, q)
      && Turns(names, Before(names, a), WordsIn(names[b])) == 1
      && q >= |WordsIn(names[b])| && NamedAt(names[b], texts, j, q - |WordsIn(names[b])|);
    CoverHolds(names, texts, a, j, p, b, q);
    TwinIsOwn(names, texts, a, j, p, b, q, q - |WordsIn(names[b])|);
    hide AlwaysCovered, SaidTwice, Own, Turns, Before, RunAt, MasksAfter, WordsIn;
    var i := TurnOf(Before(names, a), b);
    var k := AfterOnlyTurn(names, texts, Before(names, a), i, j, q);
    InnerRun(MasksAfter(names, texts, Before(names, a))[j], k, WordsIn(names[b]), p - q, WordsIn(names[a]));
  }

  lemma TurnOf(tried: seq<nat>, b: nat) returns (i: nat)
    requires b in tried
    ensures i < |tried| && tried[i] == b
  {
    i :| i < |tried| && tried[i] == b;
  }

  lemma AfterOnlyTurn(names: seq<string>, texts: seq<string>, tried: seq<nat>, i: nat, j: nat, q: nat) returns (k: nat)
    requires InRange(tried, names) && i < |tried|
    requires var name := names[tried[i]];
      var n := |WordsIn(name)|;
      && NamedAt(name, texts, j, q) && Own(names, texts, tried, j, q, WordsIn(name))
      && q >= n && NamedAt(name, texts, j, q - n) && Own(names, texts, tried, j, q - n, WordsIn(name))
      && Turns(names, tried, WordsIn(name)) == 1
    ensures RunAt(MasksAfter(names, texts, tried)[j], k, WordsIn(names[tried[i]]))
  {
    var b, front, through, rest := tried[i], tried[..i], tried[..i + 1], tried[i + 1..];
    var bs := WordsIn(names[b]);
    assert through[..i] == front && through[i] == b && through + rest == tried;
    OnlyTurn(names, tried, i);
    assert forall c :: c in front ==> c in tried;
    assert forall c :: c in rest ==> c in tried;
    hide RunAt, Turns, Lone, MaskedCopy, Own, Untouched;
    k := OnTurn(names, texts, tried, front, b, j, q);
    assert MasksAfter(names, texts, through) == MaskAll(MasksAfter(names, texts, front), bs);
    OthersTouchNot(names, texts, tried, rest, j, k, bs);
    UntouchedStays(names, texts, through, rest, j, k, bs);
  }

  lemma OnTurn(names: seq<string>, texts: seq<string>, tried: seq<nat>, front: seq<nat>, b: nat, j: nat, q: nat)
    returns (k: nat)
    requires InRange(tried, names) && InRange(front, names) && b in tried && b < |names|
    requires forall c :: c in front ==> c in tried
    requires var n := |WordsIn(names[b])|;
      && NamedAt(names[b], texts, j, q) && Own(names, texts, tried, j, q, WordsIn(names[b]))
      && q >= n && NamedAt(names[b], texts, j, q - n) && Own(names, texts, tried, j, q - n, WordsIn(names[b]))
      && Turns(names, front, WordsIn(names[b])) == 0
    ensures RunAt(MaskAll(MasksAfter(names, texts, front), WordsIn(names[b]))[j], k, WordsIn(names[b]))
    ensures Own(names, texts, tried, j, k, WordsIn(names[b]))
  {
    hide Own, RunAt, Lone, MaskedCopy, Turns, MasksAfter;
    var bs := WordsIn(names[b]);
    CoverFate(names, texts, tried, b, front, j, q);
    CoverFate(names, texts, tried, b, front, j, q - |bs|);
    CopyStays(names, texts, front, j);
    k := OneOfTwoStands(MasksAfter(names, texts, front)[j], texts[j], q, bs);
  }

  lemma OnlyTurn(names: seq<string>, tried: seq<nat>, i: nat)
    requires InRange(tried, names) && i < |tried| && Turns(names, tried, WordsIn(names[tried[i]])) == 1
    ensures Turns(names, tried[..i], WordsIn(names[tried[i]])) == 0
    ensures Turns(names, tried[i + 1..], WordsIn(names[tried[i]])) == 0
  {
    var bs := WordsIn(names[tried[i]]);
    TurnsSplit(names, tried, i + 1, bs);
    assert tried[..i + 1][..i] == tried[..i] && tried[..i + 1][i] == tried[i];
    assert Turns(names, tried[..i + 1], bs) == Turns(names, tried[..i], bs) + 1;
  }

  lemma OthersTouchNot(names: seq<string>, texts: seq<string>, tried: seq<nat>, rest: seq<nat>, j: nat, k: nat, ns: Words)
    requires InRange(tried, names) && InRange(rest, names) && forall c :: c in rest ==> c in tried
    requires Own(names, texts, tried, j, k, ns) && Turns(names, rest, ns) == 0
    ensures Untouched(names, texts, rest, j, k, |ns|)
  {
    forall c: nat, r: nat | c in rest && NamedAt(names[c], texts, j, r) ensures !Overlap(k, |ns|, r, |WordsIn(names[c])|) {
      NoTurn(names, rest, ns, c);
    }
  }

  // An account whose every mention lies within a mention of a longer name, or
  // of an equal one earlier in the table, is found if and only if some text
  // says that name twice running and only one account tried before has it.
  lemma ExcludedIff(names: seq<string>, texts: seq<string>, a: nat)
    requires a < |names| && AlwaysCovered(names, texts, a)
    ensures Matches(names, texts, a) <==> SaidTwice(names, texts, a)
  {
    if Matches(names, texts, a) { FoundNeedsTwice(names, texts, a); }
    if SaidTwice(names, texts, a) { TwiceIsFound(names, texts, a); }
  }

  // The second of two accounts with one name is such an account.
  lemma EqualNameIsCovered(names: seq<string>, texts: seq<string>, a: nat, b: nat)
    requires b < a < |names| && WordsIn(names[b]) == WordsIn(names[a])
    requires forall j: nat, p: nat :: NamedAt(names[a], texts, j, p) ==>
      Own(names, texts, Before(names, a), j, p, WordsIn(names[a]))
    ensures AlwaysCovered(names, texts, a)
  {
    BeforeIs(names, a, b);
    hide WordsIn, Before, Own;
    forall j: nat, p: nat | NamedAt(names[a], texts, j, p) ensures exists c: nat, q: nat :: Covered(names, texts, a, j, p, c, q) {
      assert Covered(names, texts, a, j, p, b, p);
    }
  }
}
