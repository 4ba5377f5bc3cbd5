// The matching loop, proved on positions of the original texts: a blanked text
// is the original with some positions masked, and a position is masked only
// where a longer or equally long name really stood.
module AccountMatching {
  import opened AccountNames

  // A masked position: the first of a blanked run shows as a bar, the others
  // show as nothing.
  const CONT := "||"

  predicate Masked(w: string) {
    w == BAR || w == CONT
  }

  predicate RunAt(ts: Words, p: nat, ns: Words) {
    p + |ns| <= |ts| && ts[p..p + |ns|] == ns
  }

  // What the haystack shows of a masked text.
  function Visible(m: Words): Words {
    if m == [] then [] else
    if m[0] == CONT then Visible(m[1..]) else [m[0]] + Visible(m[1..])
  }

  // Hidden positions only ever continue a masked run.
  predicate WellMasked(m: Words) {
    forall i :: 0 < i < |m| && m[i] == CONT ==> Masked(m[i - 1])
  }

  function Conts(n: nat): (r: Words)
    ensures |r| == n && forall i :: 0 <= i < n ==> r[i] == CONT
  {
    seq(n, i => CONT)
  }

  // Blanking, position by position.
  function Mask(m: Words, ns: Words): (r: Words)
    requires ns != []
    ensures |r| == |m|
  {
    if m == [] then []
    else if StartsWith(m, ns) then
      var rest := m[|ns|..];
      [BAR] + Conts(|ns| - 1) + (if rest == [] then [] else [rest[0]] + Mask(rest[1..], ns))
    else [m[0]] + Mask(m[1..], ns)
  }

  lemma {:induction false} VisiblePrefix(m: Words, ns: Words)
    requires AllWords(ns) && WellMasked(m) && (m == [] || m[0] != CONT)
    ensures StartsWith(Visible(m), ns) <==> StartsWith(m, ns)
    ensures StartsWith(m, ns) ==> Visible(m)[|ns|..] == Visible(m[|ns|..])
    ensures StartsWith(m, ns) && ns != [] && |ns| < |m| ==> m[|ns|] != CONT
  {
    if ns == [] {
      assert m[0..] == m && Visible(m)[0..] == Visible(m);
    } else if m != [] {
      NotMasked(ns[0]);
      if m[0] == ns[0] {
        VisiblePrefix(m[1..], ns[1..]);
        assert Visible(m)[1..] == Visible(m[1..]);
        Peel(m, ns);
        Peel(Visible(m), ns);
      }
    }
  }

  lemma NotMasked(w: string)
    requires IsWord(w)
    ensures !Masked(w) && w[0] != BAR[0]
  {
    assert IsWordChar(w[0]);
  }

  lemma Peel(s: Words, ns: Words)
    requires s != [] && ns != [] && s[0] == ns[0]
    ensures StartsWith(s, ns) <==> StartsWith(s[1..], ns[1..])
    ensures StartsWith(s, ns) ==> s[|ns|..] == s[1..][|ns| - 1..]
  {
    if StartsWith(s, ns) { assert s[1..][..|ns| - 1] == s[..|ns|][1..]; }
    if StartsWith(s[1..], ns[1..]) { assert s[..|ns|] == [s[0]] + s[1..][..|ns| - 1]; }
  }

  lemma {:induction false} VisibleConts(n: nat, rest: Words)
    ensures Visible(Conts(n) + rest) == Visible(rest)
  {
    if n == 0 {
      assert Conts(0) + rest == rest;
    } else {
      VisibleConts(n - 1, rest);
      assert (Conts(n) + rest)[0] == CONT && (Conts(n) + rest)[1..] == Conts(n - 1) + rest;
    }
  }

  // Masking a match keeps the first token's visibility.
  lemma MaskHead(m: Words, ns: Words)
    requires AllWords(ns) && ns != [] && m != []
    ensures Mask(m, ns)[0] == CONT <==> m[0] == CONT
  {
    NotMasked(ns[0]);
  }

  // Masking positions shows as blanking tokens.
  lemma {:induction false} MaskIsBlank(m: Words, ns: Words)
    requires AllWords(ns) && ns != [] && WellMasked(m)
    ensures Visible(Mask(m, ns)) == Blank(Visible(m), ns)
    decreases |m|
  {
    NotMasked(ns[0]);
    if m == [] {
    } else if m[0] == CONT {
      MaskIsBlank(m[1..], ns);
      assert Mask(m, ns)[1..] == Mask(m[1..], ns);
    } else {
      VisiblePrefix(m, ns);
      if StartsWith(m, ns) {
        if |ns| < |m| { MaskIsBlank(m[|ns| + 1..], ns); }
        MaskMatch(m, ns);
      } else {
        MaskIsBlank(m[1..], ns);
        assert Mask(m, ns)[1..] == Mask(m[1..], ns);
        assert Visible(m)[1..] == Visible(m[1..]);
      }
    }
  }

  lemma MaskMatch(m: Words, ns: Words)
    requires AllWords(ns) && ns != [] && StartsWith(m, ns) && StartsWith(Visible(m), ns)
    requires Visible(m)[|ns|..] == Visible(m[|ns|..])
    requires |ns| < |m| ==> m[|ns|] != CONT
    requires |ns| < |m| ==> Visible(Mask(m[|ns| + 1..], ns)) == Blank(Visible(m[|ns| + 1..]), ns)
    ensures Visible(Mask(m, ns)) == Blank(Visible(m), ns)
  {
    var n, v := |ns|, Visible(m);
    MaskMatchIs(m, ns);
    BlankMatchIs(v, ns);
    if n == |m| {
      assert m[n..] == [] && v[n..] == [];
      VisibleMatch(n - 1, []);
    } else {
      var w, rest := m[n], m[n + 1..];
      assert m[n..] == [w] + rest;
      VisibleCons(w, rest);
      assert v[n..][0] == w && v[n..][1..] == Visible(rest);
      hide Mask, Blank, Visible, StartsWith, AllWords, Conts;
      VisibleMatch(n - 1, [w] + Mask(rest, ns));
      VisibleCons(w, Mask(rest, ns));
    }
  }

  lemma VisibleMatch(n: nat, end: Words)
    ensures Visible([BAR] + Conts(n) + end) == [BAR] + Visible(end)
  {
    assert [BAR] + Conts(n) + end == [BAR] + (Conts(n) + end);
    VisibleCons(BAR, Conts(n) + end);
    VisibleConts(n, end);
  }

  lemma BlankMatchIs(ts: Words, ns: Words)
    requires ns != [] && StartsWith(ts, ns)
    ensures var rest := ts[|ns|..];
      Blank(ts, ns) == [BAR] + (if rest == [] then [] else [rest[0]] + Blank(rest[1..], ns))
  {
  }

  lemma VisibleCons(w: string, m: Words)
    requires w != CONT
    ensures Visible([w] + m) == [w] + Visible(m)
  {
    assert ([w] + m)[1..] == m;
  }

  // Where each position of a masked text comes from.
  lemma MaskPlaces(m: Words, n: nat, r: Words, later: Words)
    requires 0 < n <= |m| && |later| == if n < |m| then |m| - n - 1 else 0
    requires r == [BAR] + Conts(n - 1) + (if n == |m| then [] else [m[n]] + later)
    ensures |r| == |m| && r[0] == BAR && forall i :: 0 < i < n ==> r[i] == CONT
    ensures n < |m| ==> r[n] == m[n] && forall i :: n < i < |m| ==> r[i] == later[i - n - 1]
  {
    var front, end := [BAR] + Conts(n - 1), if n == |m| then [] else [m[n]] + later;
    assert forall i :: 0 < i < n ==> front[i] == Conts(n - 1)[i - 1];
  }

  lemma MaskMatchIs(m: Words, ns: Words)
    requires ns != [] && StartsWith(m, ns)
    ensures Mask(m, ns) == [BAR] + Conts(|ns| - 1) + (if |ns| == |m| then [] else [m[|ns|]] + Mask(m[|ns| + 1..], ns))
  {
    if |ns| < |m| { assert m[|ns|..][1..] == m[|ns| + 1..]; }
  }

  lemma MaskAtMiss(m: Words, ns: Words)
    requires ns != [] && m != [] && !StartsWith(m, ns)
    ensures Mask(m, ns)[0] == m[0] && forall i :: 0 < i < |m| ==> Mask(m, ns)[i] == Mask(m[1..], ns)[i - 1]
  {
  }

  lemma WellMaskedRest(m: Words, k: nat)
    requires WellMasked(m) && k <= |m|
    ensures WellMasked(m[k..])
  {
  }

  lemma {:induction false} MaskWellMasked(m: Words, ns: Words)
    requires AllWords(ns) && ns != [] && WellMasked(m)
    ensures WellMasked(Mask(m, ns))
    decreases |m|
  {
    hide Mask;
    var n, r := |ns|, Mask(m, ns);
    NotMasked(ns[0]);
    NotMasked(ns[n - 1]);
    if m == [] {
    } else if StartsWith(m, ns) {
      var later := if n < |m| then Mask(m[n + 1..], ns) else [];
      MaskMatchIs(m, ns);
      MaskPlaces(m, n, Mask(m, ns), later);
      assert m[n - 1] == ns[n - 1];
      if n < |m| {
        var rest := m[n + 1..];
        WellMaskedRest(m, n + 1);
        MaskWellMasked(rest, ns);
        if rest != [] { MaskHead(rest, ns); assert rest[0] == m[n + 1]; }
      }
    } else {
      MaskAtMiss(m, ns);
      WellMaskedRest(m, 1);
      MaskWellMasked(m[1..], ns);
      if |m| > 1 { MaskHead(m[1..], ns); }
    }
  }

  lemma RunShift(m: Words, k: nat, p: nat, ns: Words)
    requires k <= |m|
    ensures RunAt(m[k..], p, ns) <==> RunAt(m, p + k, ns)
  {
    if p + k + |ns| <= |m| { assert m[p + k..p + k + |ns|] == m[k..][p..p + |ns|]; }
  }

  // The left-to-right scan blanks the run that starts at q.
  ghost predicate Takes(m: Words, ns: Words, q: int)
    requires ns != []
    decreases |m|
  {
    && 0 <= q < |m|
    && if StartsWith(m, ns) then q == 0 || (q > |ns| && Takes(m[|ns| + 1..], ns, q - |ns| - 1))
       else Takes(m[1..], ns, q - 1)
  }

  lemma {:induction false} TakenIsRun(m: Words, ns: Words, q: nat)
    requires ns != [] && Takes(m, ns, q)
    ensures RunAt(m, q, ns)
    decreases |m|
  {
    if q > 0 {
      var k := Stride(m, ns);
      assert Takes(m[k..], ns, q - k);
      hide Takes, RunAt, StartsWith;
      TakenIsRun(m[k..], ns, q - k);
      RunShift(m, k, q - k, ns);
    }
  }

  // How far the scan moves on.
  function Stride(m: Words, ns: Words): (k: nat)
    ensures k > 0
  {
    if StartsWith(m, ns) then |ns| + 1 else 1
  }

  ghost predicate InTaken(m: Words, ns: Words, i: nat)
    requires ns != []
  {
    exists q: nat :: q <= i < q + |ns| && Takes(m, ns, q)
  }

  // Masking masks the runs the scan takes, and no position beside them.
  lemma {:induction false} MaskTakes(m: Words, ns: Words, i: nat)
    requires ns != [] && i < |m|
    ensures if InTaken(m, ns, i) then Masked(Mask(m, ns)[i]) else Mask(m, ns)[i] == m[i]
    decreases |m|
  {
    hide Mask;
    var n := |ns|;
    if StartsWith(m, ns) {
      var later := if n < |m| then Mask(m[n + 1..], ns) else [];
      MaskMatchIs(m, ns);
      MaskPlaces(m, n, Mask(m, ns), later);
      if i < n {
        assert Takes(m, ns, 0);
      } else if i == n {
        NoneTakenAfter(m, ns);
      } else {
        MaskTakes(m[n + 1..], ns, i - n - 1);
        TakenLater(m, ns, i, n + 1);
      }
    } else {
      MaskAtMiss(m, ns);
      if i > 0 {
        MaskTakes(m[1..], ns, i - 1);
        TakenLater(m, ns, i, 1);
      } else {
        assert !Takes(m, ns, 0);
      }
    }
  }

  // The token after a match is taken over unread.
  lemma NoneTakenAfter(m: Words, ns: Words)
    requires ns != [] && StartsWith(m, ns)
    ensures !InTaken(m, ns, |ns|)
  {
  }

  lemma TakesOn(m: Words, ns: Words, q: nat)
    requires ns != [] && q < |m| && !(q == 0 && StartsWith(m, ns))
    ensures var k := Stride(m, ns); Takes(m, ns, q) <==> q >= k && Takes(m[k..], ns, q - k)
  {
    if StartsWith(m, ns) {
      assert Stride(m, ns) == |ns| + 1;
    } else {
      assert Stride(m, ns) == 1;
    }
  }

  lemma TakenLater(m: Words, ns: Words, i: nat, k: nat)
    requires ns != [] && m != [] && k == Stride(m, ns) && k <= i < |m|
    ensures InTaken(m, ns, i) <==> InTaken(m[k..], ns, i - k)
  {
    if InTaken(m, ns, i) {
      var q: nat :| q <= i < q + |ns| && Takes(m, ns, q);
      TakesOn(m, ns, q);
      assert q - k <= i - k < q - k + |ns| && InTaken(m[k..], ns, i - k);
    }
    if InTaken(m[k..], ns, i - k) {
      var q: nat :| q <= i - k < q + |ns| && Takes(m[k..], ns, q);
      TakesOn(m, ns, q + k);
      assert q + k <= i < q + k + |ns|;
    }
  }

  // No other run of these words overlaps the one at q.
  ghost predicate Lone(m: Words, q: nat, ns: Words) {
    forall k: nat :: RunAt(m, k, ns) && Overlap(q, |ns|, k, |ns|) ==> k == q
  }

  predicate Overlap(p: nat, n: nat, q: nat, k: nat) {
    p < q + k && q < p + n
  }

  // A lone run is taken unless the run ending where it starts was.
  lemma {:induction false} LoneTaken(m: Words, ns: Words, q: nat)
    requires ns != [] && RunAt(m, q, ns) && Lone(m, q, ns)
    ensures Takes(m, ns, q) <==> !Takes(m, ns, q - |ns|)
    decreases |m|
  {
    var k := Stride(m, ns);
    assert StartsWith(m, ns) <==> RunAt(m, 0, ns);
    assert RunAt(m, 0, ns) && q < |ns| ==> q == 0 by { assert Overlap(q, |ns|, 0, |ns|) <==> q < |ns|; }
    if q >= k { LoneTakenLater(m, ns, q, k); }
  }

  lemma {:induction false} LoneTakenLater(m: Words, ns: Words, q: nat, k: nat)
    requires ns != [] && RunAt(m, q, ns) && Lone(m, q, ns) && 0 < k <= q
    ensures Takes(m[k..], ns, q - k) <==> !Takes(m[k..], ns, q - k - |ns|)
    decreases |m|, 0
  {
    RunShift(m, k, q - k, ns);
    forall j: nat | RunAt(m[k..], j, ns) && Overlap(q - k, |ns|, j, |ns|) ensures j == q - k {
      RunShift(m, k, j, ns);
      assert Overlap(q, |ns|, j + k, |ns|);
    }
    LoneTaken(m[k..], ns, q - k);
  }

  ghost predicate AllMasked(m: Words, q: nat, n: nat) {
    q + n <= |m| && forall i :: q <= i < q + n ==> Masked(m[i])
  }

  // What masking leaves of a lone run: all of it, or nothing.
  lemma LoneAfter(m: Words, ns: Words, q: nat)
    requires ns != [] && RunAt(m, q, ns) && Lone(m, q, ns)
    ensures if Takes(m, ns, q) then AllMasked(Mask(m, ns), q, |ns|) else RunAt(Mask(m, ns), q, ns)
  {
    var r := Mask(m, ns);
    forall i | q <= i < q + |ns| ensures if Takes(m, ns, q) then Masked(r[i]) else r[i] == m[i] {
      MaskTakes(m, ns, i);
      if !Takes(m, ns, q) && InTaken(m, ns, i) {
        var k: nat :| k <= i < k + |ns| && Takes(m, ns, k);
        TakenIsRun(m, ns, k);
        assert false;
      }
    }
    hide Mask, Takes;
    if !Takes(m, ns, q) { assert r[q..q + |ns|] == m[q..q + |ns|]; }
  }

  // A position changes only inside a match.
  lemma MaskChanges(m: Words, ns: Words, i: nat)
    requires ns != [] && i < |m|
    ensures Mask(m, ns)[i] == m[i] || (Masked(Mask(m, ns)[i]) && exists p :: 0 <= p <= i < p + |ns| && RunAt(m, p, ns))
  {
    MaskTakes(m, ns, i);
    if q: nat :| q <= i < q + |ns| && Takes(m, ns, q) { TakenIsRun(m, ns, q); }
  }

  // Without a run there is nothing to mask.
  lemma MaskNothing(m: Words, ns: Words)
    requires ns != [] && forall p :: 0 <= p <= |m| ==> !RunAt(m, p, ns)
    ensures Mask(m, ns) == m
  {
    forall i: nat | i < |m| ensures Mask(m, ns)[i] == m[i] { MaskChanges(m, ns, i); }
  }

  // A needle is found exactly when its words stand unmasked somewhere.
  lemma {:induction false} FoundIsRun(m: Words, ns: Words)
    requires AllWords(ns) && ns != [] && WellMasked(m)
    ensures Has(Visible(m), ns) <==> exists p :: 0 <= p <= |m| && RunAt(m, p, ns)
  {
    NotMasked(ns[0]);
    if m != [] {
      FoundIsRun(m[1..], ns);
      ShiftRuns(m, ns);
      if m[0] == CONT {
        assert !RunAt(m, 0, ns);
      } else {
        VisiblePrefix(m, ns);
        assert Visible(m)[1..] == Visible(m[1..]);
        assert StartsWith(m, ns) <==> RunAt(m, 0, ns);
      }
    }
  }

  lemma ShiftRuns(m: Words, ns: Words)
    requires m != []
    ensures (exists p :: 0 <= p <= |m| && RunAt(m, p, ns))
       <==> RunAt(m, 0, ns) || exists p :: 0 <= p <= |m| - 1 && RunAt(m[1..], p, ns)
  {
    forall p: nat | p < |m| { RunShift(m, 1, p, ns); }
    if p :| 0 < p <= |m| && RunAt(m, p, ns) { RunShift(m, 1, p - 1, ns); }
    if p :| 0 <= p <= |m| - 1 && RunAt(m[1..], p, ns) { RunShift(m, 1, p, ns); }
  }
}
