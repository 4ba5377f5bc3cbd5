// Searching several collections: each answers with its own best points, and
// the merged list is cut to the best of them all.
module Search {
  import opened Sets
  import opened Texts

  const FAMILY := "family-docs"
  const TAX_LAW := "tax-law"

  // What a payload says about confidentiality; Unclear is a missing field or
  // one that is not a boolean.
  datatype Flag = Confidential | Open | Unclear

  datatype Point = Point(id: string, score: real, text: string, flag: Flag, entityId: Option<string>)

  // A point of a collection.
  datatype Hit = Hit(collection: string, point: Point)

  datatype Request = Request(
    includeConfidential: bool, entityIds: Option<seq<string>>, collections: seq<string>, topK: nat)

  // ------------------------------------------------------------------
  // The filter
  // ------------------------------------------------------------------

  datatype Condition = NotConfidential | EntityIn(ids: seq<string>)

  predicate Meets(condition: Condition, p: Point) {
    match condition
    case NotConfidential => p.flag == Open
    case EntityIn(ids) => p.entityId.Some? && p.entityId.value in ids
  }

  // Every condition must hold; without conditions every point matches.
  predicate Matches(must: seq<Condition>, p: Point) {
    forall i :: 0 <= i < |must| ==> Meets(must[i], p)
  }

  function FamilyDocsFilter(includeConfidential: bool, entityIds: Option<seq<string>>): seq<Condition> {
    (if includeConfidential then [] else [NotConfidential])
    + if entityIds.Some? && entityIds.value != [] then [EntityIn(entityIds.value)] else []
  }

  function FilterFor(r: Request, collection: string): seq<Condition> {
    if collection == FAMILY then FamilyDocsFilter(r.includeConfidential, r.entityIds) else []
  }

  // A point passes when the viewer may see it and its entity was asked for.
  lemma FilterMeans(r: Request, p: Point)
    ensures Matches(FilterFor(r, FAMILY), p) <==>
      (r.includeConfidential || p.flag == Open)
      && (r.entityIds.Some? && r.entityIds.value != [] ==> p.entityId.Some? && p.entityId.value in r.entityIds.value)
    ensures Matches(FilterFor(r, TAX_LAW), p)
  {
    var must := FilterFor(r, FAMILY);
    if !r.includeConfidential { assert must[0] == NotConfidential; }
    if r.entityIds.Some? && r.entityIds.value != [] { assert must[|must| - 1] == EntityIn(r.entityIds.value); }
  }

  function DropConfidential(points: seq<Point>): seq<Point> {
    if points == [] then [] else
    (if points[0].flag == Open then [points[0]] else []) + DropConfidential(points[1..])
  }

  // The second check changes nothing when the first one ran, and otherwise
  // still lets only open points through.
  lemma {:induction false} DropConfidentialIs(points: seq<Point>)
    ensures (forall p :: p in points ==> p.flag == Open) ==> DropConfidential(points) == points
    ensures forall p :: p in DropConfidential(points) <==> p in points && p.flag == Open
  {
    if points != [] { DropConfidentialIs(points[1..]); }
  }

  // ------------------------------------------------------------------
  // Top k
  // ------------------------------------------------------------------

  ghost predicate Sorted(hits: seq<Hit>) {
    forall i, j :: 0 <= i < j < |hits| ==> hits[i].point.score >= hits[j].point.score
  }

  ghost predicate Distinct(hits: seq<Hit>) {
    forall i, j :: 0 <= i < j < |hits| ==> hits[i] != hits[j]
  }

  function Members(hits: seq<Hit>): set<Hit> {
    set h | h in hits
  }

  // The k best of the eligible, best first; ties may fall either way.
  ghost predicate IsTopK(hits: seq<Hit>, eligible: set<Hit>, k: nat) {
    && Sorted(hits) && Distinct(hits) && Members(hits) <= eligible
    && |hits| == (if |eligible| < k then |eligible| else k)
    && forall h, e :: h in hits && e in eligible && e !in hits ==> h.point.score >= e.point.score
  }

  function AtLeast(hits: set<Hit>, score: real): set<Hit> {
    set h | h in hits && h.point.score >= score
  }

  // Whatever eligible hit is not a candidate, k candidates are as good.
  ghost predicate Covers(candidates: set<Hit>, eligible: set<Hit>, k: nat) {
    && candidates <= eligible
    && forall e :: e in eligible && e !in candidates ==> |AtLeast(candidates, e.point.score)| >= k
  }

  lemma {:induction false} MembersCount(hits: seq<Hit>)
    requires Distinct(hits)
    ensures |Members(hits)| == |hits|
  {
    if hits != [] {
      var front, last := hits[..|hits| - 1], hits[|hits| - 1];
      MembersCount(front);
      assert Members(hits) == Members(front) + {last};
      assert last !in front;
    }
  }

  // A collection's own top k covers it.
  lemma TopKCovers(hits: seq<Hit>, eligible: set<Hit>, k: nat)
    requires IsTopK(hits, eligible, k)
    ensures Covers(Members(hits), eligible, k)
  {
    MembersCount(hits);
    SubsetSize(Members(hits), eligible);
    forall e | e in eligible && e !in Members(hits) ensures |AtLeast(Members(hits), e.point.score)| >= k {
      assert AtLeast(Members(hits), e.point.score) == Members(hits);
    }
  }

  // Candidates of two collections together cover both.
  lemma CoversUnion(c0: set<Hit>, e0: set<Hit>, c1: set<Hit>, e1: set<Hit>, k: nat)
    requires Covers(c0, e0, k) && Covers(c1, e1, k)
    ensures Covers(c0 + c1, e0 + e1, k)
  {
    forall e | e in e0 + e1 && e !in c0 + c1 ensures |AtLeast(c0 + c1, e.point.score)| >= k {
      if e in e0 {
        SubsetSize(AtLeast(c0, e.point.score), AtLeast(c0 + c1, e.point.score));
      } else {
        SubsetSize(AtLeast(c1, e.point.score), AtLeast(c0 + c1, e.point.score));
      }
    }
  }

  // Pigeonhole: in a sorted list, fewer than k hits can be better than one
  // of the first k.
  lemma BetterComeFirst(hits: seq<Hit>, j: nat, score: real)
    requires Sorted(hits) && Distinct(hits) && j < |hits| && hits[j].point.score < score
    ensures |AtLeast(Members(hits), score)| <= j
  {
    var front := hits[..j];
    MembersCount(front);
    forall h | h in AtLeast(Members(hits), score) ensures h in Members(front) {
      var i :| 0 <= i < |hits| && hits[i] == h;
      assert i < j;
      assert front[i] == h;
    }
    SubsetSize(AtLeast(Members(hits), score), Members(front));
  }

  function Cut(hits: seq<Hit>, k: nat): (cut: seq<Hit>)
    ensures |cut| == (if |hits| <= k then |hits| else k) && cut == hits[..|cut|]
  {
    if |hits| <= k then hits else hits[..k]
  }

  lemma CutSize(hits: seq<Hit>, eligible: set<Hit>, k: nat)
    requires Distinct(hits) && Covers(Members(hits), eligible, k)
    ensures |Cut(hits, k)| == if |eligible| < k then |eligible| else k
  {
    MembersCount(hits);
    SubsetSize(Members(hits), eligible);
    if Members(hits) != eligible {
      var e :| e in eligible && e !in Members(hits);
      SubsetSize(AtLeast(Members(hits), e.point.score), Members(hits));
    }
  }

  lemma InCut(hits: seq<Hit>, k: nat, i: nat)
    requires i < |hits|
    ensures i < |Cut(hits, k)| ==> hits[i] in Cut(hits, k)
  {
    if i < |Cut(hits, k)| { assert Cut(hits, k)[i] == hits[i]; }
  }

  lemma CutBeats(hits: seq<Hit>, eligible: set<Hit>, k: nat, j: nat, e: Hit)
    requires Sorted(hits) && Distinct(hits) && Covers(Members(hits), eligible, k)
    requires j < |Cut(hits, k)| && e in eligible && e !in Cut(hits, k)
    ensures hits[j].point.score >= e.point.score
  {
    hide Distinct, Covers;
    if e in Members(hits) {
      var i: nat :| i < |hits| && hits[i] == e;
      InCut(hits, k, i);
    } else {
      assert |AtLeast(Members(hits), e.point.score)| >= k by { CoversMeans(Members(hits), eligible, k, e); }
      if hits[j].point.score < e.point.score { BetterComeFirst(hits, j, e.point.score); }
    }
  }

  lemma CoversMeans(candidates: set<Hit>, eligible: set<Hit>, k: nat, e: Hit)
    requires Covers(candidates, eligible, k) && e in eligible && e !in candidates
    ensures |AtLeast(candidates, e.point.score)| >= k
  {
  }

  // The first k of the sorted candidates are a top k of everything covered.
  lemma CutIsTopK(hits: seq<Hit>, eligible: set<Hit>, k: nat)
    requires Sorted(hits) && Distinct(hits) && Covers(Members(hits), eligible, k)
    ensures IsTopK(Cut(hits, k), eligible, k)
  {
    var cut := Cut(hits, k);
    CutSize(hits, eligible, k);
    CutStays(hits, k);
    assert Members(cut) <= eligible by { assert Members(cut) <= Members(hits); }
    hide Sorted, Distinct, Covers;
    forall h, e | h in cut && e in eligible && e !in cut ensures h.point.score >= e.point.score {
      var j: nat :| j < |cut| && cut[j] == h;
      CutBeats(hits, eligible, k, j, e);
    }
  }

  lemma CutStays(hits: seq<Hit>, k: nat)
    requires Sorted(hits) && Distinct(hits)
    ensures Sorted(Cut(hits, k)) && Distinct(Cut(hits, k))
  {
  }

  // ------------------------------------------------------------------
  // Sorting
  // ------------------------------------------------------------------

  // A stable sort, best score first.
  function SortDown(hits: seq<Hit>): seq<Hit> {
    if hits == [] then [] else Place(SortDown(hits[..|hits| - 1]), hits[|hits| - 1])
  }

  function Place(sorted: seq<Hit>, h: Hit): seq<Hit> {
    if sorted == [] || sorted[|sorted| - 1].point.score >= h.point.score then sorted + [h]
    else Place(sorted[..|sorted| - 1], h) + [sorted[|sorted| - 1]]
  }

  lemma {:induction false} PlaceKeeps(sorted: seq<Hit>, h: Hit)
    ensures multiset(Place(sorted, h)) == multiset(sorted) + multiset{h}
  {
    if sorted != [] && sorted[|sorted| - 1].point.score < h.point.score {
      PlaceKeeps(sorted[..|sorted| - 1], h);
      assert sorted == sorted[..|sorted| - 1] + [sorted[|sorted| - 1]];
    }
  }

  lemma PlaceStep(sorted: seq<Hit>, h: Hit)
    requires sorted != [] && sorted[|sorted| - 1].point.score < h.point.score
    ensures Place(sorted, h) == Place(sorted[..|sorted| - 1], h) + [sorted[|sorted| - 1]]
  {
  }

  lemma {:induction false} PlaceIs(sorted: seq<Hit>, h: Hit)
    requires Sorted(sorted)
    ensures Sorted(Place(sorted, h))
  {
    if sorted != [] && sorted[|sorted| - 1].point.score < h.point.score {
      var front, last := sorted[..|sorted| - 1], sorted[|sorted| - 1];
      PlaceIs(front, h);
      PlaceStep(sorted, h);
      PlaceKeeps(front, h);
      hide Place, Sorted;
      assert sorted == front + [last];
      LastInFront(front, last);
      WorstLast(Place(front, h), last);
    }
  }

  lemma LastInFront(front: seq<Hit>, last: Hit)
    requires Sorted(front + [last])
    ensures forall x :: x in multiset(front) ==> x.point.score >= last.point.score
  {
    var all := front + [last];
    assert all[|front|] == last;
    forall x | x in multiset(front) ensures x.point.score >= last.point.score {
      var i :| 0 <= i < |front| && front[i] == x;
      assert all[i] == x;
    }
  }

  lemma WorstLast(r: seq<Hit>, last: Hit)
    requires Sorted(r) && forall x :: x in multiset(r) ==> x.point.score >= last.point.score
    ensures Sorted(r + [last])
  {
    forall i | 0 <= i < |r| ensures r[i].point.score >= last.point.score {
      assert r[i] in multiset(r);
    }
  }

  lemma {:induction false} SortDownIs(hits: seq<Hit>)
    ensures Sorted(SortDown(hits)) && multiset(SortDown(hits)) == multiset(hits)
  {
    if hits != [] {
      var front, last := hits[..|hits| - 1], hits[|hits| - 1];
      SortDownIs(front);
      PlaceIs(SortDown(front), last);
      PlaceKeeps(SortDown(front), last);
      assert hits == front + [last];
    }
  }

  lemma DistinctBySize(a: seq<Hit>)
    requires forall h :: multiset(a)[h] <= 1
    ensures Distinct(a)
  {
    forall i, j | 0 <= i < j < |a| ensures a[i] != a[j] {
      var front, back := a[..j], a[j..];
      assert a == front + back;
      assert front[i] == a[i] && back[0] == a[j];
      assert multiset(a)[a[j]] == multiset(front)[a[j]] + multiset(back)[a[j]];
      assert back[0] in multiset(back) && front[i] in multiset(front);
    }
  }

  lemma {:induction false} CountsOfDistinct(a: seq<Hit>, h: Hit)
    requires Distinct(a)
    ensures multiset(a)[h] <= 1
  {
    if a != [] {
      var front, last := a[..|a| - 1], a[|a| - 1];
      CountsOfDistinct(front, h);
      assert a == front + [last];
      assert last !in front;
    }
  }

  lemma SortKeepsMembers(hits: seq<Hit>)
    requires Distinct(hits)
    ensures Distinct(SortDown(hits)) && Members(SortDown(hits)) == Members(hits)
  {
    SortDownIs(hits);
    var r := SortDown(hits);
    forall h ensures multiset(r)[h] <= 1 {
      CountsOfDistinct(hits, h);
    }
    DistinctBySize(r);
    forall h ensures h in r <==> h in hits {
      assert h in multiset(r) <==> h in multiset(hits);
    }
  }

  function WithScore(hits: seq<Hit>, score: real): seq<Hit> {
    if hits == [] then [] else
    WithScore(hits[..|hits| - 1], score) + if hits[|hits| - 1].point.score == score then [hits[|hits| - 1]] else []
  }

  lemma WithScoreSnoc(hits: seq<Hit>, h: Hit, score: real)
    ensures WithScore(hits + [h], score) == WithScore(hits, score) + if h.point.score == score then [h] else []
  {
    assert (hits + [h])[..|hits|] == hits;
  }

  lemma {:induction false} PlaceKeepsTies(sorted: seq<Hit>, h: Hit, score: real)
    ensures WithScore(Place(sorted, h), score) == WithScore(sorted, score) + if h.point.score == score then [h] else []
  {
    if sorted == [] || sorted[|sorted| - 1].point.score >= h.point.score {
      WithScoreSnoc(sorted, h, score);
    } else {
      var front, last := sorted[..|sorted| - 1], sorted[|sorted| - 1];
      PlaceKeepsTies(front, h, score);
      PlaceStep(sorted, h);
      assert sorted == front + [last];
      hide Place, WithScore;
      WithScoreSnoc(Place(front, h), last, score);
      WithScoreSnoc(front, last, score);
    }
  }

  // Equal scores stay in the order the collections answered in.
  lemma {:induction false} SortKeepsTies(hits: seq<Hit>, score: real)
    ensures WithScore(SortDown(hits), score) == WithScore(hits, score)
  {
    if hits != [] {
      SortKeepsTies(hits[..|hits| - 1], score);
      PlaceKeepsTies(SortDown(hits[..|hits| - 1]), hits[|hits| - 1], score);
    }
  }

  // ------------------------------------------------------------------
  // One search
  // ------------------------------------------------------------------

  // Each collection once, in the order first asked for.
  function Wanted(collections: seq<string>): seq<string> {
    if collections == [] then [] else
    var before, last := Wanted(collections[..|collections| - 1]), collections[|collections| - 1];
    if last in before then before else before + [last]
  }

  function HitsOf(collection: string, points: seq<Point>): (hits: seq<Hit>)
    ensures |hits| == |points| && forall i :: 0 <= i < |points| ==> hits[i] == Hit(collection, points[i])
  {
    seq(|points|, i requires 0 <= i < |points| => Hit(collection, points[i]))
  }

  function Checked(r: Request, collection: string, points: seq<Point>): seq<Point> {
    if collection == FAMILY && !r.includeConfidential then DropConfidential(points) else points
  }

  // What the index answers: the points of each existing collection's query.
  type Answers = map<string, seq<Point>>

  function Gathered(r: Request, wanted: seq<string>, answers: Answers): seq<Hit> {
    if wanted == [] then [] else
    var last := wanted[|wanted| - 1];
    Gathered(r, wanted[..|wanted| - 1], answers)
    + if last in answers then HitsOf(last, Checked(r, last, answers[last])) else []
  }

  function Missing(wanted: seq<string>, answers: Answers): seq<string> {
    if wanted == [] then [] else
    var last := wanted[|wanted| - 1];
    Missing(wanted[..|wanted| - 1], answers) + if last in answers then [] else [last]
  }

  // None: no requested collection exists.
  function Found(r: Request, answers: Answers): Option<(seq<Hit>, seq<string>)> {
    var wanted := Wanted(r.collections);
    var missing := Missing(wanted, answers);
    if |missing| == |wanted| then None
    else Some((Cut(SortDown(Gathered(r, wanted, answers)), r.topK), missing))
  }

  method Run(r: Request, answers: Answers) returns (found: Option<(seq<Hit>, seq<string>)>)
    ensures found == Found(r, answers)
  {
    hide Checked, SortDown, Wanted;
    var results: seq<Hit>, missing: seq<string> := [], [];
    var wanted := Wanted(r.collections);
    for n := 0 to |wanted|
      invariant results == Gathered(r, wanted[..n], answers) && missing == Missing(wanted[..n], answers)
    {
      var collection := wanted[n];
      assert wanted[..n + 1][..n] == wanted[..n];
      if collection !in answers {
        missing := missing + [collection];
        continue;
      }
      results := results + HitsOf(collection, Checked(r, collection, answers[collection]));
    }
    assert wanted[..|wanted|] == wanted;
    if |missing| == |wanted| { return None; }
    results := SortDown(results);
    found := Some((Cut(results, r.topK), missing));
  }

  // The points of an existing collection that this caller may be shown.
  function Eligible(r: Request, collection: string, stored: set<Point>): set<Hit> {
    set p | p in stored && Matches(FilterFor(r, collection), p) :: Hit(collection, p)
  }

  function EligibleIn(r: Request, wanted: seq<string>, store: map<string, set<Point>>): set<Hit> {
    if wanted == [] then {} else
    var last := wanted[|wanted| - 1];
    EligibleIn(r, wanted[..|wanted| - 1], store) + if last in store then Eligible(r, last, store[last]) else {}
  }

  // The index keeps to its filter and its limit.
  ghost predicate Answering(r: Request, store: map<string, set<Point>>, answers: Answers) {
    && answers.Keys == store.Keys
    && forall c :: c in store ==> IsTopK(HitsOf(c, answers[c]), Eligible(r, c, store[c]), r.topK)
  }

  lemma CheckChangesNothing(r: Request, c: string, store: map<string, set<Point>>, answers: Answers)
    requires Answering(r, store, answers) && c in store
    ensures Checked(r, c, answers[c]) == answers[c]
  {
    if c == FAMILY && !r.includeConfidential {
      var hits := HitsOf(c, answers[c]);
      forall p | p in answers[c] ensures p.flag == Open {
        var i :| 0 <= i < |answers[c]| && answers[c][i] == p;
        assert hits[i] in Members(hits);
        assert Hit(c, p) in Eligible(r, c, store[c]);
        FilterMeans(r, p);
      }
      DropConfidentialIs(answers[c]);
    }
  }

  lemma OtherCollection(r: Request, wanted: seq<string>, store: map<string, set<Point>>, h: Hit)
    requires h in EligibleIn(r, wanted, store)
    ensures h.collection in wanted
  {
    if wanted != [] {
      var last := wanted[|wanted| - 1];
      if h !in (if last in store then Eligible(r, last, store[last]) else {}) {
        OtherCollection(r, wanted[..|wanted| - 1], store, h);
      }
    }
  }

  ghost predicate NoRepeats(wanted: seq<string>) {
    forall i, j :: 0 <= i < j < |wanted| ==> wanted[i] != wanted[j]
  }

  lemma {:induction false} WantedIs(collections: seq<string>)
    ensures NoRepeats(Wanted(collections)) && forall c :: c in Wanted(collections) <==> c in collections
  {
    if collections != [] {
      WantedIs(collections[..|collections| - 1]);
      assert collections == collections[..|collections| - 1] + [collections[|collections| - 1]];
    }
  }

  lemma DistinctPlus(a: seq<Hit>, b: seq<Hit>)
    requires Distinct(a) && Distinct(b) && Members(a) !! Members(b)
    ensures Distinct(a + b) && Members(a + b) == Members(a) + Members(b)
  {
    forall i, j | 0 <= i < j < |a + b| ensures (a + b)[i] != (a + b)[j] {
      if i < |a| <= j { assert a[i] in Members(a) && b[j - |a|] in Members(b); }
    }
  }

  lemma NothingCovers(k: nat)
    ensures Distinct([]) && Covers(Members([]), {}, k)
  {
  }

  lemma CoversMore(c: set<Hit>, e: set<Hit>, k: nat)
    requires Covers(c, e, k)
    ensures c <= e
  {
  }

  lemma {:induction false} GatheredCovers(
    r: Request, wanted: seq<string>, store: map<string, set<Point>>, answers: Answers)
    requires Answering(r, store, answers) && NoRepeats(wanted)
    ensures Distinct(Gathered(r, wanted, answers))
    ensures Covers(Members(Gathered(r, wanted, answers)), EligibleIn(r, wanted, store), r.topK)
  {
    if wanted == [] {
      NothingCovers(r.topK);
    } else {
      var front, last := wanted[..|wanted| - 1], wanted[|wanted| - 1];
      GatheredCovers(r, front, store, answers);
      if last in store {
        var more, eligible := HitsOf(last, answers[last]), Eligible(r, last, store[last]);
        CheckChangesNothing(r, last, store, answers);
        TopKCovers(more, eligible, r.topK);
        hide Checked, Covers;
        var before := Gathered(r, front, answers);
        CoversMore(Members(before), EligibleIn(r, front, store), r.topK);
        forall h | h in Members(before) ensures h !in Members(more) {
          OtherCollection(r, front, store, h);
        }
        DistinctPlus(before, more);
        CoversUnion(Members(before), EligibleIn(r, front, store), Members(more), eligible, r.topK);
      } else {
        assert last !in answers.Keys;
        assert Gathered(r, wanted, answers) == Gathered(r, front, answers);
        assert EligibleIn(r, wanted, store) == EligibleIn(r, front, store);
      }
    }
  }

  // Eligible is every point of a requested collection that exists, if the
  // caller may see it and, in the family's, its entity was asked for.
  lemma {:induction false} EligibleIs(r: Request, wanted: seq<string>, store: map<string, set<Point>>, h: Hit)
    ensures h in EligibleIn(r, wanted, store) <==>
      && h.collection in wanted && h.collection in store && h.point in store[h.collection]
      && (h.collection == FAMILY ==>
        && (r.includeConfidential || h.point.flag == Open)
        && (r.entityIds.Some? && r.entityIds.value != [] ==>
              h.point.entityId.Some? && h.point.entityId.value in r.entityIds.value))
  {
    if wanted != [] {
      var front, last := wanted[..|wanted| - 1], wanted[|wanted| - 1];
      EligibleIs(r, front, store, h);
      assert wanted == front + [last];
      FilterMeans(r, h.point);
      hide FamilyDocsFilter;
      if last in store { OneEligible(r, last, store[last], h); }
    }
  }

  lemma OneEligible(r: Request, collection: string, stored: set<Point>, h: Hit)
    ensures h in Eligible(r, collection, stored) <==>
      h.collection == collection && h.point in stored && (collection == FAMILY ==> Matches(FilterFor(r, FAMILY), h.point))
  {
  }

  // When each collection answers with its own top k, the search returns a top
  // k of every eligible point of the requested collections that exist.
  lemma SearchIsTopK(r: Request, store: map<string, set<Point>>, answers: Answers)
    requires Answering(r, store, answers) && Found(r, answers).Some?
    ensures IsTopK(Found(r, answers).value.0, EligibleIn(r, Wanted(r.collections), store), r.topK)
  {
    var wanted := Wanted(r.collections);
    WantedIs(r.collections);
    hide Answering, IsTopK, Covers, Distinct;
    GatheredCovers(r, wanted, store, answers);
    var hits := Gathered(r, wanted, answers);
    SortDownIs(hits);
    SortKeepsMembers(hits);
    CutIsTopK(SortDown(hits), EligibleIn(r, wanted, store), r.topK);
  }

  lemma {:induction false} MissingIs(wanted: seq<string>, answers: Answers)
    ensures forall c :: c in Missing(wanted, answers) <==> c in wanted && c !in answers
    ensures |Missing(wanted, answers)| <= |wanted|
    ensures |Missing(wanted, answers)| == |wanted| <==> forall c :: c in wanted ==> c !in answers
  {
    if wanted != [] {
      var front, last := wanted[..|wanted| - 1], wanted[|wanted| - 1];
      MissingIs(front, answers);
      assert wanted == front + [last];
    }
  }

  // A search fails exactly when no requested collection exists, and otherwise
  // names those that do not.
  lemma FailsIffAllMissing(r: Request, answers: Answers)
    ensures Found(r, answers).None? <==> forall c :: c in r.collections ==> c !in answers
    ensures Found(r, answers).Some? ==>
      forall c :: c in Found(r, answers).value.1 <==> c in r.collections && c !in answers
  {
    WantedIs(r.collections);
    MissingIs(Wanted(r.collections), answers);
    hide Wanted, Missing, Gathered, SortDown, Cut;
  }

  lemma {:induction false} GatheredIsOpen(r: Request, wanted: seq<string>, answers: Answers, h: Hit)
    requires !r.includeConfidential && h in Gathered(r, wanted, answers) && h.collection == FAMILY
    ensures h.point.flag == Open
  {
    var front, last := wanted[..|wanted| - 1], wanted[|wanted| - 1];
    if h in Gathered(r, front, answers) {
      GatheredIsOpen(r, front, answers, h);
    } else {
      var kept := Checked(r, last, answers[last]);
      var i :| 0 <= i < |kept| && HitsOf(last, kept)[i] == h;
      DropConfidentialIs(answers[last]);
      assert kept[i] in kept;
    }
  }

  // Whatever the index answers, filter or no filter, a viewer is shown no
  // family point that is not flagged false.
  lemma ViewersSeeOnlyOpen(r: Request, answers: Answers, h: Hit)
    requires !r.includeConfidential && Found(r, answers).Some?
    requires h in Found(r, answers).value.0 && h.collection == FAMILY
    ensures h.point.flag == Open
  {
    var hits := Gathered(r, Wanted(r.collections), answers);
    SortDownIs(hits);
    var i :| 0 <= i < |Found(r, answers).value.0| && Found(r, answers).value.0[i] == h;
    assert SortDown(hits)[i] == h && h in multiset(SortDown(hits));
    GatheredIsOpen(r, Wanted(r.collections), answers, h);
  }
}
