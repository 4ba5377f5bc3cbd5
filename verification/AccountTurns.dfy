// Whose turn comes when, what each turn blanks, and who is found at its turn:
// functions of the names and the texts alone.
module AccountTurns {
  import opened AccountNames
  import opened AccountMatching

  // The normalised name, its words joined by single spaces.
  function KeyOf(name: string): string {
    JoinSpaced(WordsIn(name))
  }

  // Longest first; equal lengths stay in table order.
  function Insert(order: seq<nat>, keys: seq<string>, a: nat): (r: seq<nat>)
    requires a < |keys| && forall i :: 0 <= i < |order| ==> order[i] < |keys|
    ensures forall i :: 0 <= i < |r| ==> r[i] < |keys|
  {
    if order == [] then [a]
    else if |keys[order[|order| - 1]]| >= |keys[a]| then order + [a]
    else Insert(order[..|order| - 1], keys, a) + [order[|order| - 1]]
  }

  function LongestFirst(keys: seq<string>, n: nat): (order: seq<nat>)
    requires n <= |keys|
    ensures forall i :: 0 <= i < |order| ==> order[i] < |keys|
  {
    if n == 0 then [] else
    Insert(LongestFirst(keys, n - 1), keys, n - 1)
  }

  predicate Precedes(keys: seq<string>, a: nat, b: nat)
    requires a < |keys| && b < |keys|
  {
    |keys[a]| > |keys[b]| || (|keys[a]| == |keys[b]| && a < b)
  }

  ghost predicate Descending(order: seq<nat>, keys: seq<string>) {
    && (forall i :: 0 <= i < |order| ==> order[i] < |keys|)
    && (forall i, j :: 0 <= i < j < |order| ==> Precedes(keys, order[i], order[j]))
  }

  lemma {:induction false} InsertMembers(order: seq<nat>, keys: seq<string>, a: nat, x: nat)
    requires a < |keys| && forall i :: 0 <= i < |order| ==> order[i] < |keys|
    ensures x in Insert(order, keys, a) <==> x == a || x in order
  {
    if order != [] && |keys[order[|order| - 1]]| < |keys[a]| {
      InsertMembers(order[..|order| - 1], keys, a, x);
      assert order == order[..|order| - 1] + [order[|order| - 1]];
    }
  }

  lemma {:induction false} InsertDescends(order: seq<nat>, keys: seq<string>, a: nat)
    requires a < |keys| && Descending(order, keys) && forall i :: 0 <= i < |order| ==> order[i] < a
    ensures Descending(Insert(order, keys, a), keys)
  {
    if order != [] && |keys[order[|order| - 1]]| < |keys[a]| {
      var front, last := order[..|order| - 1], order[|order| - 1];
      assert order == front + [last];
      InsertDescends(front, keys, a);
      var r := Insert(front, keys, a);
      hide Insert, Descending;
      forall i | 0 <= i < |r| ensures r[i] == a || r[i] in front {
        InsertMembers(front, keys, a, r[i]);
      }
      LastStaysLast(front, last, keys, a, r);
    }
  }

  lemma LastStaysLast(front: seq<nat>, last: nat, keys: seq<string>, a: nat, r: seq<nat>)
    requires last < |keys| && a < |keys| && |keys[last]| < |keys[a]|
    requires Descending(front + [last], keys)
    requires Descending(r, keys) && forall i :: 0 <= i < |r| ==> r[i] == a || r[i] in front
    ensures Descending(r + [last], keys)
  {
    assert (front + [last])[|front|] == last;
    forall i | 0 <= i < |r| ensures r[i] < |keys| && Precedes(keys, r[i], last) {
      if r[i] != a {
        var k :| 0 <= k < |front| && front[k] == r[i];
        assert (front + [last])[k] == r[i];
      }
    }
  }

  lemma {:induction false} LongestFirstHas(keys: seq<string>, n: nat, x: nat)
    requires n <= |keys|
    ensures x in LongestFirst(keys, n) <==> x < n
  {
    if n > 0 {
      LongestFirstHas(keys, n - 1, x);
      InsertMembers(LongestFirst(keys, n - 1), keys, n - 1, x);
    }
  }

  lemma {:induction false} LongestFirstDescends(keys: seq<string>, n: nat)
    requires n <= |keys|
    ensures Descending(LongestFirst(keys, n), keys)
  {
    hide *;
    if n == 0 {
      NoAccounts(keys);
    } else {
      LongestFirstDescends(keys, n - 1);
      NextDescends(keys, n, LongestFirst(keys, n - 1));
    }
  }

  lemma NextDescends(keys: seq<string>, n: nat, before: seq<nat>)
    requires 0 < n <= |keys| && before == LongestFirst(keys, n - 1) && Descending(before, keys)
    ensures Descending(LongestFirst(keys, n), keys)
  {
    hide *;
    forall i | 0 <= i < |before| ensures before[i] < n - 1 { LongestFirstHas(keys, n - 1, before[i]); }
    OneMoreAccount(keys, n);
    InsertDescends(before, keys, n - 1);
  }

  lemma NoAccounts(keys: seq<string>)
    ensures Descending(LongestFirst(keys, 0), keys)
  {
  }

  lemma OneMoreAccount(keys: seq<string>, n: nat)
    requires 0 < n <= |keys|
    ensures LongestFirst(keys, n) == Insert(LongestFirst(keys, n - 1), keys, n - 1)
  {
    hide Insert;
  }

  // Every account once, longest key first, equal lengths in table order.
  lemma LongestFirstIs(keys: seq<string>, n: nat)
    requires n <= |keys|
    ensures forall a: nat :: a in LongestFirst(keys, n) <==> a < n
    ensures Descending(LongestFirst(keys, n), keys)
  {
    hide *;
    LongestFirstDescends(keys, n);
    forall a: nat ensures a in LongestFirst(keys, n) <==> a < n {
      LongestFirstHas(keys, n, a);
    }
  }

  function Keys(names: seq<string>): (keys: seq<string>)
    ensures |keys| == |names| && forall a :: 0 <= a < |names| ==> keys[a] == KeyOf(names[a])
  {
    seq(|names|, a requires 0 <= a < |names| => KeyOf(names[a]))
  }

  // The accounts tried before a, in order.
  function Before(names: seq<string>, a: nat): (tried: seq<nat>)
    requires a < |names|
    ensures InRange(tried, names)
  {
    var order := LongestFirst(Keys(names), |names|);
    var tried := UpTo(order, a);
    assert forall i :: 0 <= i < |tried| ==> tried[i] in order;
    tried
  }

  predicate InRange(tried: seq<nat>, names: seq<string>) {
    forall i :: 0 <= i < |tried| ==> tried[i] < |names|
  }

  function UpTo(order: seq<nat>, a: nat): (front: seq<nat>)
    ensures forall x :: x in front ==> x in order
  {
    if order == [] || order[0] == a then [] else [order[0]] + UpTo(order[1..], a)
  }

  lemma {:induction false} UpToIs(order: seq<nat>, n: nat)
    requires n < |order| && forall i :: 0 <= i < n ==> order[i] != order[n]
    ensures UpTo(order, order[n]) == order[..n]
  {
    if n > 0 { UpToIs(order[1..], n - 1); }
  }

  // Exactly the accounts with a longer key, or one as long and earlier in the table.
  lemma BeforeIs(names: seq<string>, a: nat, b: nat)
    requires a < |names|
    ensures b in Before(names, a) <==> b < |names| && Precedes(Keys(names), b, a)
  {
    var keys := Keys(names);
    LongestFirstIs(keys, |names|);
    hide LongestFirst;
    UpToPrecedes(LongestFirst(keys, |names|), keys, a, b);
  }

  lemma UpToPrecedes(order: seq<nat>, keys: seq<string>, a: nat, b: nat)
    requires Descending(order, keys) && a in order && (b in order <==> b < |keys|)
    ensures b in UpTo(order, a) <==> b < |keys| && Precedes(keys, b, a)
  {
    var n: nat :| n < |order| && order[n] == a;
    forall i | 0 <= i < n ensures order[i] != a { assert Precedes(keys, order[i], order[n]); }
    UpToIs(order, n);
    if b in order {
      var k: nat :| k < |order| && order[k] == b;
      if k < n { assert order[..n][k] == b; }
      if b in order[..n] { assert Precedes(keys, b, a); }
    }
  }

  // ------------------------------------------------------------------
  // What is blanked, and who is found
  // ------------------------------------------------------------------

  function Fresh(texts: seq<string>): (masks: seq<Words>)
    ensures |masks| == |texts| && forall j :: 0 <= j < |texts| ==> masks[j] == TokensOf(texts[j])
  {
    seq(|texts|, j requires 0 <= j < |texts| => TokensOf(texts[j]))
  }

  ghost function MaskAll(masks: seq<Words>, ns: Words): (r: seq<Words>)
    ensures |r| == |masks|
  {
    if ns == [] then masks else seq(|masks|, j requires 0 <= j < |masks| => Mask(masks[j], ns))
  }

  // The words of every text after these accounts' turns, blanked ones masked.
  ghost function MasksAfter(names: seq<string>, texts: seq<string>, tried: seq<nat>): (masks: seq<Words>)
    requires InRange(tried, names)
    ensures |masks| == |texts|
  {
    if tried == [] then Fresh(texts) else
    MaskAll(MasksAfter(names, texts, tried[..|tried| - 1]), WordsIn(names[tried[|tried| - 1]]))
  }

  ghost predicate Stands(masks: seq<Words>, ns: Words) {
    ns != [] && exists j: nat, p: nat :: j < |masks| && RunAt(masks[j], p, ns)
  }

  // At its turn the whole name stands somewhere among the unmasked words.
  ghost predicate Matches(names: seq<string>, texts: seq<string>, a: nat)
    requires a < |names|
  {
    Stands(MasksAfter(names, texts, Before(names, a)), WordsIn(names[a]))
  }

  // The whole name stands as a run of words of one of the texts.
  ghost predicate NamedAt(name: string, texts: seq<string>, j: nat, p: nat) {
    && j < |texts| && WordsIn(name) != [] && RunAt(WordsIn(texts[j]), p, WordsIn(name))
  }

  // ------------------------------------------------------------------
  // Masks and the original words
  // ------------------------------------------------------------------

  ghost predicate MaskedCopy(m: Words, text: string) {
    |m| == |TokensOf(text)| && forall i :: 0 <= i < |m| ==> m[i] == TokensOf(text)[i] || Masked(m[i])
  }

  lemma MaskKeepsCopy(m: Words, text: string, ns: Words)
    requires MaskedCopy(m, text) && ns != []
    ensures MaskedCopy(Mask(m, ns), text)
  {
    forall i: nat | i < |m| ensures Mask(m, ns)[i] == m[i] || Masked(Mask(m, ns)[i]) { MaskChanges(m, ns, i); }
  }

  lemma {:induction false} CopyStays(names: seq<string>, texts: seq<string>, tried: seq<nat>, j: nat)
    requires InRange(tried, names) && j < |texts|
    ensures MaskedCopy(MasksAfter(names, texts, tried)[j], texts[j])
  {
    if tried != [] {
      var n := |tried| - 1;
      CopyStays(names, texts, tried[..n], j);
      var ns := WordsIn(names[tried[n]]);
      hide MaskedCopy;
      if ns != [] { MaskKeepsCopy(MasksAfter(names, texts, tried[..n])[j], texts[j], ns); }
    }
  }

  // An unmasked run is a run of the original text.
  lemma RunIsOriginal(m: Words, text: string, p: nat, ns: Words)
    requires MaskedCopy(m, text) && AllWords(ns) && ns != [] && RunAt(m, p, ns)
    ensures RunAt(WordsIn(text), p, ns)
  {
    forall i | 0 <= i < |ns| ensures TokensOf(text)[p + i] == ns[i] && ns[i] != "" {
      NotMasked(ns[i]);
      assert m[p + i] == m[p..p + |ns|][i];
    }
    assert TokensOf(text)[p + 0] == ns[0];
    assert WordsIn(text)[p..p + |ns|] == ns;
  }

  // A run nothing of another name touches survives that name's turn.
  lemma ClearStays(m: Words, text: string, p: nat, ns: Words, other: Words)
    requires MaskedCopy(m, text) && RunAt(m, p, ns) && AllWords(other) && other != []
    requires forall q: nat :: RunAt(WordsIn(text), q, other) ==> !Overlap(p, |ns|, q, |other|)
    ensures RunAt(Mask(m, other), p, ns)
  {
    forall i | p <= i < p + |ns| ensures Mask(m, other)[i] == m[i] {
      MaskChanges(m, other, i);
      if Mask(m, other)[i] != m[i] {
        var q :| 0 <= q <= i < q + |other| && RunAt(m, q, other);
        RunIsOriginal(m, text, q, other);
        assert false;
      }
    }
    assert Mask(m, other)[p..p + |ns|] == m[p..p + |ns|];
  }

  // No account of these touches the run.
  ghost predicate Untouched(names: seq<string>, texts: seq<string>, tried: seq<nat>, j: nat, p: nat, n: nat)
    requires InRange(tried, names)
  {
    forall c: nat, q: nat ::
      c in tried && NamedAt(names[c], texts, j, q) ==> !Overlap(p, n, q, |WordsIn(names[c])|)
  }

  // A run standing when some turns begin stands when they end, if no account
  // whose turn it was touches it.
  lemma {:induction false} UntouchedStays(names: seq<string>, texts: seq<string>, before: seq<nat>, turns: seq<nat>,
                                          j: nat, p: nat, ns: Words)
    requires InRange(before, names) && InRange(turns, names) && InRange(before + turns, names) && j < |texts|
    requires RunAt(MasksAfter(names, texts, before)[j], p, ns) && Untouched(names, texts, turns, j, p, |ns|)
    ensures RunAt(MasksAfter(names, texts, before + turns)[j], p, ns)
  {
    var n := |turns| - 1;
    if turns == [] {
      assert before + turns == before;
    } else {
      var front, all := turns[..n], before + turns;
      assert all[..|all| - 1] == before + front && all[|all| - 1] == turns[n];
      UntouchedStays(names, texts, before, front, j, p, ns);
      var m, other := MasksAfter(names, texts, before + front)[j], WordsIn(names[turns[n]]);
      CopyStays(names, texts, before + front, j);
      hide MaskedCopy, Overlap, RunAt;
      if other != [] {
        forall q: nat | RunAt(WordsIn(texts[j]), q, other) ensures !Overlap(p, |ns|, q, |other|) {
          assert NamedAt(names[turns[n]], texts, j, q);
        }
        ClearStays(m, texts[j], p, ns, other);
      }
    }
  }

  lemma FreshRun(texts: seq<string>, j: nat, p: nat, ns: Words)
    requires j < |texts| && ns != [] && RunAt(WordsIn(texts[j]), p, ns)
    ensures RunAt(Fresh(texts)[j], p, ns)
  {
  }

  // ------------------------------------------------------------------
  // Sound and complete
  // ------------------------------------------------------------------

  lemma MatchIsNamed(names: seq<string>, texts: seq<string>, a: nat)
    requires a < |names| && Matches(names, texts, a)
    ensures exists j: nat, p: nat :: NamedAt(names[a], texts, j, p)
  {
    var tried, ns := Before(names, a), WordsIn(names[a]);
    var masks := MasksAfter(names, texts, tried);
    var j: nat, p: nat :| j < |masks| && RunAt(masks[j], p, ns);
    CopyStays(names, texts, tried, j);
    RunIsOriginal(masks[j], texts[j], p, ns);
    assert NamedAt(names[a], texts, j, p);
  }

  // An occurrence that no occurrence of an account tried earlier touches.
  ghost predicate ClearAt(names: seq<string>, texts: seq<string>, a: nat, j: nat, p: nat)
    requires a < |names|
  {
    NamedAt(names[a], texts, j, p) && Untouched(names, texts, Before(names, a), j, p, |WordsIn(names[a])|)
  }

  lemma ClearMatches(names: seq<string>, texts: seq<string>, a: nat, j: nat, p: nat)
    requires a < |names| && ClearAt(names, texts, a, j, p)
    ensures Matches(names, texts, a)
  {
    var tried, ns := Before(names, a), WordsIn(names[a]);
    assert [] + tried == tried;
    FreshRun(texts, j, p, ns);
    hide RunAt, Untouched;
    UntouchedStays(names, texts, [], tried, j, p, ns);
  }
}
