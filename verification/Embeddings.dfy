// The embedding client: batches of texts, bounded retries, and answers put
// back in input order.
module Embeddings {
  import opened Sets
  import opened Texts

  const DIMENSIONS := 1024
  const MAX_DELAY := 30.0
  const RETRYABLE: set<nat> := {429, 502, 503, 504}

  // A vector of finite numbers; scores are opaque, so numbers are reals.
  type Vector = seq<real>

  // One entry of the answer's data list. Unusable covers a malformed entry
  // and one whose vector is not all finite numbers.
  datatype Entry = Entry(index: int, vector: Vector) | Unusable

  // Unreadable is an HTTP date or a value that is not finite.
  datatype RetryAfter = NoHeader | Seconds(s: real) | Unreadable

  // None in data is a body without a data list.
  datatype Response =
    | Answer(status: nat, data: Option<seq<Entry>>, retryAfter: RetryAfter)
    | Lost(transient: bool)

  datatype Failure = Failure(retryable: bool)

  // ------------------------------------------------------------------
  // Reading an answer
  // ------------------------------------------------------------------

  predicate AllUsable(entries: seq<Entry>) {
    forall i :: 0 <= i < |entries| ==> entries[i].Entry?
  }

  function SortByIndex(entries: seq<Entry>): (r: seq<Entry>)
    requires AllUsable(entries)
    ensures |r| == |entries| && AllUsable(r)
  {
    if entries == [] then [] else Place(SortByIndex(entries[..|entries| - 1]), entries[|entries| - 1])
  }

  function Place(sorted: seq<Entry>, e: Entry): (r: seq<Entry>)
    requires AllUsable(sorted) && e.Entry?
    ensures |r| == |sorted| + 1 && AllUsable(r)
  {
    if sorted == [] || sorted[|sorted| - 1].index <= e.index then sorted + [e]
    else Place(sorted[..|sorted| - 1], e) + [sorted[|sorted| - 1]]
  }

  predicate InPlace(sorted: seq<Entry>)
    requires AllUsable(sorted)
  {
    forall i :: 0 <= i < |sorted| ==> sorted[i].index == i
  }

  function VectorsOf(entries: seq<Entry>): (vectors: seq<Vector>)
    requires AllUsable(entries)
    ensures |vectors| == |entries| && forall i :: 0 <= i < |entries| ==> vectors[i] == entries[i].vector
  {
    seq(|entries|, i requires 0 <= i < |entries| => entries[i].vector)
  }

  predicate FullSize(entries: seq<Entry>)
    requires AllUsable(entries)
  {
    forall i :: 0 <= i < |entries| ==> |entries[i].vector| == DIMENSIONS
  }

  function ParseResponse(response: Response, expected: nat): Result<seq<Vector>, Failure>
    requires response.Answer?
  {
    if response.status != 200 then Err(Failure(response.status in RETRYABLE))
    else if response.data.None? || !AllUsable(response.data.value) then Err(Failure(false))
    else if |response.data.value| != expected then Err(Failure(false))
    else if !InPlace(SortByIndex(response.data.value)) then Err(Failure(false))
    else if !FullSize(response.data.value) then Err(Failure(false))
    else Ok(VectorsOf(SortByIndex(response.data.value)))
  }

  lemma {:induction false} PlaceKeeps(sorted: seq<Entry>, e: Entry)
    requires AllUsable(sorted) && e.Entry?
    ensures multiset(Place(sorted, e)) == multiset(sorted) + multiset{e}
  {
    if sorted != [] && sorted[|sorted| - 1].index > e.index {
      PlaceKeeps(sorted[..|sorted| - 1], e);
      assert sorted == sorted[..|sorted| - 1] + [sorted[|sorted| - 1]];
    }
  }

  lemma {:induction false} SortKeeps(entries: seq<Entry>)
    requires AllUsable(entries)
    ensures multiset(SortByIndex(entries)) == multiset(entries)
  {
    if entries != [] {
      var front, last := entries[..|entries| - 1], entries[|entries| - 1];
      SortKeeps(front);
      PlaceKeeps(SortByIndex(front), last);
      assert entries == front + [last];
    }
  }

  ghost predicate Ascending(entries: seq<Entry>)
    requires AllUsable(entries)
  {
    forall i, j :: 0 <= i < j < |entries| ==> entries[i].index <= entries[j].index
  }

  lemma {:induction false} PlaceSorts(sorted: seq<Entry>, e: Entry)
    requires AllUsable(sorted) && e.Entry? && Ascending(sorted)
    ensures Ascending(Place(sorted, e))
  {
    if sorted != [] && sorted[|sorted| - 1].index > e.index {
      var front, last := sorted[..|sorted| - 1], sorted[|sorted| - 1];
      PlaceSorts(front, e);
      PlaceKeeps(front, e);
      var r := Place(front, e);
      hide Place;
      forall i | 0 <= i < |r| ensures r[i].index <= last.index {
        assert r[i] in multiset(r);
        assert r[i] in front || r[i] == e;
      }
    }
  }

  lemma {:induction false} SortSorts(entries: seq<Entry>)
    requires AllUsable(entries)
    ensures Ascending(SortByIndex(entries))
  {
    if entries != [] {
      SortSorts(entries[..|entries| - 1]);
      PlaceSorts(SortByIndex(entries[..|entries| - 1]), entries[|entries| - 1]);
    }
  }

  // Every position has an entry.
  ghost predicate Complete(entries: seq<Entry>, expected: nat)
    requires AllUsable(entries)
  {
    forall i :: 0 <= i < expected ==> HasIndex(entries, i)
  }

  ghost predicate HasIndex(entries: seq<Entry>, i: int)
    requires AllUsable(entries)
  {
    exists k :: 0 <= k < |entries| && entries[k].index == i
  }

  function Range(n: nat): (r: set<int>)
    ensures |r| == n && forall i :: i in r <==> 0 <= i < n
  {
    if n == 0 then {} else Range(n - 1) + {n - 1}
  }

  function IndexesOf(entries: seq<Entry>): set<int>
    requires AllUsable(entries)
  {
    set k | 0 <= k < |entries| :: entries[k].index
  }

  lemma {:induction false} IndexesCount(entries: seq<Entry>)
    requires AllUsable(entries)
    ensures |IndexesOf(entries)| <= |entries|
    ensures |IndexesOf(entries)| == |entries| ==>
      forall i, j :: 0 <= i < j < |entries| ==> entries[i].index != entries[j].index
  {
    if entries != [] {
      var front, last := entries[..|entries| - 1], entries[|entries| - 1];
      IndexesCount(front);
      assert IndexesOf(entries) == IndexesOf(front) + {last.index};
      if |IndexesOf(entries)| == |entries| {
        assert last.index !in IndexesOf(front);
        forall i, j | 0 <= i < j < |entries| ensures entries[i].index != entries[j].index {
          assert front[i].index in IndexesOf(front);
          if j < |front| { assert front[i].index != front[j].index; }
        }
      }
    }
  }

  // Pigeonhole: as many entries as positions, and none unfilled, so no index
  // is repeated or outside the range.
  lemma CompleteIsExact(entries: seq<Entry>, expected: nat)
    requires AllUsable(entries) && |entries| == expected && Complete(entries, expected)
    ensures forall i, j :: 0 <= i < j < |entries| ==> entries[i].index != entries[j].index
    ensures forall i :: 0 <= i < |entries| ==> 0 <= entries[i].index < expected
  {
    forall i | i in Range(expected) ensures i in IndexesOf(entries) {
      assert HasIndex(entries, i);
    }
    SubsetSize(Range(expected), IndexesOf(entries));
    IndexesCount(entries);
    forall i | 0 <= i < |entries| ensures 0 <= entries[i].index < expected {
      assert entries[i].index in IndexesOf(entries);
    }
  }

  lemma {:induction false} AscendingFills(sorted: seq<Entry>, n: nat)
    requires AllUsable(sorted) && Ascending(sorted) && n <= |sorted|
    requires forall i, j :: 0 <= i < j < |sorted| ==> sorted[i].index != sorted[j].index
    requires forall i :: 0 <= i < |sorted| ==> 0 <= sorted[i].index < |sorted|
    ensures forall i :: 0 <= i < n ==> sorted[i].index >= i
  {
    if n > 0 {
      AscendingFills(sorted, n - 1);
      if n > 1 { assert sorted[n - 2].index < sorted[n - 1].index; }
    }
  }

  lemma {:induction false} AscendingFits(sorted: seq<Entry>, n: nat)
    requires AllUsable(sorted) && Ascending(sorted) && n <= |sorted|
    requires forall i, j :: 0 <= i < j < |sorted| ==> sorted[i].index != sorted[j].index
    requires forall i :: 0 <= i < |sorted| ==> 0 <= sorted[i].index < |sorted|
    ensures forall i :: |sorted| - n <= i < |sorted| ==> sorted[i].index <= i
  {
    if n > 0 {
      AscendingFits(sorted, n - 1);
      var i := |sorted| - n;
      if n > 1 { assert sorted[i].index < sorted[i + 1].index; }
    }
  }

  lemma SameMembers(a: seq<Entry>, b: seq<Entry>, i: nat) returns (k: nat)
    requires multiset(a) == multiset(b) && i < |a|
    ensures k < |b| && b[k] == a[i]
  {
    assert a[i] in multiset(a);
    assert a[i] in b;
    k :| k < |b| && b[k] == a[i];
  }

  // Sorted entries sit at their own positions exactly when every position
  // has an entry.
  lemma InPlaceIff(entries: seq<Entry>)
    requires AllUsable(entries)
    ensures InPlace(SortByIndex(entries)) <==> Complete(entries, |entries|)
  {
    var sorted := SortByIndex(entries);
    SortKeeps(entries);
    SortSorts(entries);
    hide SortByIndex, InPlace, Complete, Ascending;
    if Complete(entries, |entries|) {
      CompleteSorted(entries, sorted);
    }
    if InPlace(sorted) {
      InPlaceComplete(entries, sorted);
    }
  }

  lemma CompleteSorted(entries: seq<Entry>, sorted: seq<Entry>)
    requires AllUsable(entries) && AllUsable(sorted) && multiset(sorted) == multiset(entries)
    requires |entries| == |sorted| && Ascending(sorted) && Complete(entries, |entries|)
    ensures InPlace(sorted)
  {
    forall i | 0 <= i < |sorted| ensures HasIndex(sorted, i) {
      assert HasIndex(entries, i);
      var k :| 0 <= k < |entries| && entries[k].index == i;
      var m := SameMembers(entries, sorted, k);
    }
    CompleteIsExact(sorted, |sorted|);
    AscendingFills(sorted, |sorted|);
    AscendingFits(sorted, |sorted|);
  }

  lemma InPlaceComplete(entries: seq<Entry>, sorted: seq<Entry>)
    requires AllUsable(entries) && AllUsable(sorted) && multiset(sorted) == multiset(entries)
    requires |entries| == |sorted| && InPlace(sorted)
    ensures Complete(entries, |entries|)
  {
    forall i | 0 <= i < |entries| ensures HasIndex(entries, i) {
      var k := SameMembers(sorted, entries, i);
      assert entries[k].index == i;
    }
  }

  // An answer is accepted exactly when it is a 200 whose entries are all
  // usable and full size, one for each text.
  lemma ParseAcceptsIff(response: Response, expected: nat)
    requires response.Answer?
    ensures ParseResponse(response, expected).Ok? <==>
      && response.status == 200 && response.data.Some? && AllUsable(response.data.value)
      && |response.data.value| == expected && Complete(response.data.value, expected)
      && forall i :: 0 <= i < expected ==> |response.data.value[i].vector| == 1024
  {
    if response.data.Some? && AllUsable(response.data.value) { InPlaceIff(response.data.value); }
    hide SortByIndex, Complete, InPlace;
  }

  // Each vector stands at the position its entry names, whatever the order
  // of the entries.
  lemma ParsePutsInOrder(response: Response, expected: nat, k: nat)
    requires response.Answer? && ParseResponse(response, expected).Ok? && k < |response.data.value|
    ensures |ParseResponse(response, expected).value| == expected
    ensures 0 <= response.data.value[k].index < expected
    ensures ParseResponse(response, expected).value[response.data.value[k].index] == response.data.value[k].vector
  {
    var entries := response.data.value;
    SortKeeps(entries);
    var m := SameMembers(entries, SortByIndex(entries), k);
    assert SortByIndex(entries)[m].index == m;
  }

  // ------------------------------------------------------------------
  // Retrying
  // ------------------------------------------------------------------

  function Backoff(attempt: nat): (d: real)
    requires attempt >= 1
    ensures d >= 1.0
  {
    if attempt == 1 then 1.0 else 2.0 * Backoff(attempt - 1)
  }

  function RetryDelay(header: RetryAfter, attempt: nat): (delay: real)
    requires attempt >= 1
    ensures 0.0 <= delay <= MAX_DELAY
    ensures header.Seconds? && header.s >= 0.0 ==> delay <= header.s
  {
    var delay := if header.Seconds? && header.s >= 0.0 then header.s else Backoff(attempt);
    if delay > MAX_DELAY then MAX_DELAY else delay
  }

  // Seconds the service gives are used as they are up to the cap; otherwise
  // the delay starts at a second and doubles up to the cap.
  lemma RetryDelayDoubles(header: RetryAfter, attempt: nat)
    requires attempt >= 1
    ensures header.Seconds? && 0.0 <= header.s <= MAX_DELAY ==> RetryDelay(header, attempt) == header.s
    ensures header.Seconds? && header.s > MAX_DELAY ==> RetryDelay(header, attempt) == MAX_DELAY
    ensures !(header.Seconds? && header.s >= 0.0) ==>
      && RetryDelay(header, 1) == 1.0
      && RetryDelay(header, attempt + 1) ==
           if 2.0 * RetryDelay(header, attempt) < MAX_DELAY then 2.0 * RetryDelay(header, attempt) else MAX_DELAY
  {
  }

  // The answer to the n-th request, for a given batch: any behaviour.
  datatype World = World(answer: (nat, seq<string>) -> Response)

  datatype Tally = Tally(requests: nat, waited: real)

  function Outcome(response: Response, expected: nat): Result<seq<Vector>, Failure> {
    if response.Lost? then Err(Failure(response.transient)) else ParseResponse(response, expected)
  }

  function HeaderOf(response: Response): RetryAfter {
    if response.Lost? then NoHeader else response.retryAfter
  }

  function Attempt(w: World, batch: seq<string>, attempt: nat, most: nat, t: Tally): (Option<seq<Vector>>, Tally)
    requires 1 <= attempt <= most
    decreases most - attempt
  {
    var response := w.answer(t.requests, batch);
    var sent := t.(requests := t.requests + 1);
    match Outcome(response, |batch|)
    case Ok(vectors) => (Some(vectors), sent)
    case Err(failure) =>
      if attempt == most || !failure.retryable then (None, sent)
      else Attempt(w, batch, attempt + 1, most, sent.(waited := t.waited + RetryDelay(HeaderOf(response), attempt)))
  }

  function Embed(w: World, texts: seq<string>, size: nat, most: nat, t: Tally): (Option<seq<Vector>>, Tally)
    requires size >= 1 && most >= 1
    decreases |texts|
  {
    if texts == [] then (Some([]), t) else
    var n := if |texts| < size then |texts| else size;
    var (vectors, next) := Attempt(w, texts[..n], 1, most, t);
    if vectors.None? then (None, next) else
    var (more, last) := Embed(w, texts[n..], size, most, next);
    (if more.None? then None else Some(vectors.value + more.value), last)
  }

  class EmbeddingClient {
    const world: World
    const batchSize: nat
    const maxAttempts: nat
    var requests: nat
    var waited: real

    ghost predicate Valid() {
      batchSize >= 1 && maxAttempts >= 1
    }

    constructor (world: World, batchSize: nat, maxAttempts: nat)
      requires batchSize >= 1 && maxAttempts >= 1
      ensures Valid() && this.world == world && this.batchSize == batchSize && this.maxAttempts == maxAttempts
      ensures requests == 0 && waited == 0.0
    {
      this.world, this.batchSize, this.maxAttempts := world, batchSize, maxAttempts;
      requests, waited := 0, 0.0;
    }

    method EmbedBatch(texts: seq<string>) returns (vectors: Option<seq<Vector>>)
      requires Valid()
      modifies this
      ensures (vectors, Tally(requests, waited)) == Attempt(world, texts, 1, maxAttempts, old(Tally(requests, waited)))
    {
      hide ParseResponse, RetryDelay;
      var attempt := 1;
      while true
        invariant 1 <= attempt <= maxAttempts
        invariant Attempt(world, texts, attempt, maxAttempts, Tally(requests, waited))
               == Attempt(world, texts, 1, maxAttempts, old(Tally(requests, waited)))
        decreases maxAttempts - attempt
      {
        var response := world.answer(requests, texts);
        var outcome := Outcome(response, |texts|);
        requests := requests + 1;
        if outcome.Ok? { return Some(outcome.value); }
        if attempt >= maxAttempts || !outcome.error.retryable { return None; }
        waited := waited + RetryDelay(HeaderOf(response), attempt);
        attempt := attempt + 1;
      }
    }

    method EmbedDocuments(texts: seq<string>) returns (vectors: Option<seq<Vector>>)
      requires Valid()
      modifies this
      ensures (vectors, Tally(requests, waited))
           == Embed(world, texts, batchSize, maxAttempts, old(Tally(requests, waited)))
    {
      hide Attempt;
      var done: seq<Vector> := [];
      var start := 0;
      assert texts[0..] == texts;
      PrependNothing(Embed(world, texts, batchSize, maxAttempts, Tally(requests, waited)));
      while start < |texts|
        invariant start <= |texts|
        invariant Prepend(done, Embed(world, texts[start..], batchSize, maxAttempts, Tally(requests, waited)))
               == Embed(world, texts, batchSize, maxAttempts, old(Tally(requests, waited)))
        decreases |texts| - start
      {
        var end := if start + batchSize < |texts| then start + batchSize else |texts|;
        ghost var before := Tally(requests, waited);
        NextBatch(world, texts[start..], batchSize, maxAttempts, before, end - start);
        assert texts[start..][..end - start] == texts[start..end] && texts[start..][end - start..] == texts[end..];
        var more := EmbedBatch(texts[start..end]);
        if more.None? { return None; }
        PrependTwice(done, more.value, Embed(world, texts[end..], batchSize, maxAttempts, Tally(requests, waited)));
        done := done + more.value;
        start := end;
      }
      assert texts[start..] == [] && done + [] == done;
      vectors := Some(done);
    }
  }

  lemma PrependNothing(r: (Option<seq<Vector>>, Tally))
    ensures Prepend([], r) == r
  {
    if r.0.Some? { assert [] + r.0.value == r.0.value; }
  }

  function Prepend(front: seq<Vector>, r: (Option<seq<Vector>>, Tally)): (Option<seq<Vector>>, Tally) {
    (if r.0.None? then None else Some(front + r.0.value), r.1)
  }

  lemma PrependTwice(a: seq<Vector>, b: seq<Vector>, r: (Option<seq<Vector>>, Tally))
    ensures Prepend(a, Prepend(b, r)) == Prepend(a + b, r)
  {
    if r.0.Some? { assert a + (b + r.0.value) == a + b + r.0.value; }
  }

  lemma NextBatch(w: World, texts: seq<string>, size: nat, most: nat, t: Tally, n: nat)
    requires size >= 1 && most >= 1 && texts != [] && n == if |texts| < size then |texts| else size
    ensures var (vectors, next) := Attempt(w, texts[..n], 1, most, t);
      Embed(w, texts, size, most, t)
        == if vectors.None? then (None, next) else Prepend(vectors.value, Embed(w, texts[n..], size, most, next))
  {
    hide Attempt;
  }

  // ------------------------------------------------------------------
  // What a client gets
  // ------------------------------------------------------------------

  // A service that gives each text its own vector, in any order of entries,
  // whatever else it does in between.
  ghost predicate Faithful(w: World, vectorOf: string -> Vector) {
    forall n: nat, batch: seq<string> :: Truthful(w.answer(n, batch), batch, vectorOf)
  }

  ghost predicate Truthful(response: Response, batch: seq<string>, vectorOf: string -> Vector) {
    response.Answer? && response.data.Some? ==>
      forall k :: 0 <= k < |response.data.value| ==>
        (var entry := response.data.value[k];
         entry.Entry? && 0 <= entry.index < |batch| ==> entry.vector == vectorOf(batch[entry.index]))
  }

  function Each(texts: seq<string>, vectorOf: string -> Vector): seq<Vector> {
    seq(|texts|, i requires 0 <= i < |texts| => vectorOf(texts[i]))
  }

  lemma ParseIsTruthful(response: Response, batch: seq<string>, vectorOf: string -> Vector)
    requires response.Answer? && Truthful(response, batch, vectorOf) && ParseResponse(response, |batch|).Ok?
    ensures ParseResponse(response, |batch|).value == Each(batch, vectorOf)
  {
    var entries := response.data.value;
    ParseAcceptsIff(response, |batch|);
    hide ParseResponse, Truthful;
    forall i | 0 <= i < |batch|
      ensures |ParseResponse(response, |batch|).value| == |batch|
      ensures ParseResponse(response, |batch|).value[i] == vectorOf(batch[i])
    {
      assert HasIndex(entries, i);
      var k: nat :| k < |entries| && entries[k].index == i;
      ParsePutsInOrder(response, |batch|, k);
      OneTrue(response, batch, vectorOf, k);
    }
    if batch == [] { NoVectors(response); }
  }

  lemma NoVectors(response: Response)
    requires response.Answer? && ParseResponse(response, 0).Ok?
    ensures ParseResponse(response, 0).value == []
  {
  }

  lemma OneTrue(response: Response, batch: seq<string>, vectorOf: string -> Vector, k: nat)
    requires response.Answer? && response.data.Some? && Truthful(response, batch, vectorOf)
    requires k < |response.data.value| && response.data.value[k].Entry?
    requires 0 <= response.data.value[k].index < |batch|
    ensures response.data.value[k].vector == vectorOf(batch[response.data.value[k].index])
  {
  }

  lemma {:induction false} AttemptIsTruthful(
    w: World, batch: seq<string>, attempt: nat, most: nat, t: Tally, vectorOf: string -> Vector)
    requires 1 <= attempt <= most && Faithful(w, vectorOf) && Attempt(w, batch, attempt, most, t).0.Some?
    ensures Attempt(w, batch, attempt, most, t).0.value == Each(batch, vectorOf)
    decreases most - attempt
  {
    hide ParseResponse, RetryDelay, Truthful;
    var response := w.answer(t.requests, batch);
    assert Truthful(response, batch, vectorOf);
    var outcome := Outcome(response, |batch|);
    if outcome.Ok? {
      ParseIsTruthful(response, batch, vectorOf);
    } else {
      var delay := RetryDelay(HeaderOf(response), attempt);
      AttemptIsTruthful(w, batch, attempt + 1, most, Tally(t.requests + 1, t.waited + delay), vectorOf);
    }
  }

  // One vector for each text, in order, whatever the batch size, the order of
  // the entries in an answer and the retries on the way.
  lemma {:induction false} EmbedIsTruthful(
    w: World, texts: seq<string>, size: nat, most: nat, t: Tally, vectorOf: string -> Vector)
    requires size >= 1 && most >= 1 && Faithful(w, vectorOf) && Embed(w, texts, size, most, t).0.Some?
    ensures Embed(w, texts, size, most, t).0.value == Each(texts, vectorOf)
    decreases |texts|
  {
    if texts != [] {
      hide Attempt, Faithful;
      var n := if |texts| < size then |texts| else size;
      var (vectors, next) := Attempt(w, texts[..n], 1, most, t);
      AttemptIsTruthful(w, texts[..n], 1, most, t, vectorOf);
      EmbedIsTruthful(w, texts[n..], size, most, next, vectorOf);
      assert Each(texts, vectorOf) == Each(texts[..n], vectorOf) + Each(texts[n..], vectorOf);
    }
  }

  // ------------------------------------------------------------------
  // Bounds
  // ------------------------------------------------------------------

  lemma {:induction false} AttemptIsBounded(w: World, batch: seq<string>, attempt: nat, most: nat, t: Tally)
    requires 1 <= attempt <= most
    ensures t.requests < Attempt(w, batch, attempt, most, t).1.requests <= t.requests + most - attempt + 1
    ensures Attempt(w, batch, attempt, most, t).1.waited <= t.waited + MAX_DELAY * (most - attempt) as real
    decreases most - attempt
  {
    hide ParseResponse, RetryDelay;
    var response := w.answer(t.requests, batch);
    var outcome := Outcome(response, |batch|);
    if outcome.Err? && outcome.error.retryable && attempt < most {
      var delay := RetryDelay(HeaderOf(response), attempt);
      AttemptIsBounded(w, batch, attempt + 1, most, Tally(t.requests + 1, t.waited + delay));
    }
  }

  ghost predicate Transient(w: World, batch: seq<string>, request: nat) {
    var outcome := Outcome(w.answer(request, batch), |batch|);
    outcome.Err? && outcome.error.retryable
  }

  // The waits after so many failures in a row, each as its answer's header or
  // its attempt says.
  ghost function Delays(w: World, batch: seq<string>, request: nat, attempt: nat, n: nat): real
    requires attempt >= 1
    decreases n
  {
    if n == 0 then 0.0 else
    RetryDelay(HeaderOf(w.answer(request, batch)), attempt) + Delays(w, batch, request + 1, attempt + 1, n - 1)
  }

  // The requests for a batch go on through transient failures and stop at the
  // first answer that is none, or at the last attempt; that answer decides.
  lemma {:induction false} AttemptEndsAt(w: World, batch: seq<string>, attempt: nat, most: nat, t: Tally) returns (n: nat)
    requires 1 <= attempt <= most
    ensures n <= most - attempt && Attempt(w, batch, attempt, most, t).1.requests == t.requests + n + 1
    ensures Attempt(w, batch, attempt, most, t).1.waited == t.waited + Delays(w, batch, t.requests, attempt, n)
    ensures forall i :: t.requests <= i < t.requests + n ==> Transient(w, batch, i)
    ensures n < most - attempt ==> !Transient(w, batch, t.requests + n)
    ensures var outcome := Outcome(w.answer(t.requests + n, batch), |batch|);
      Attempt(w, batch, attempt, most, t).0 == if outcome.Ok? then Some(outcome.value) else None
    decreases most - attempt
  {
    hide ParseResponse, RetryDelay;
    var response := w.answer(t.requests, batch);
    if Transient(w, batch, t.requests) && attempt < most {
      var delay := RetryDelay(HeaderOf(response), attempt);
      var k := AttemptEndsAt(w, batch, attempt + 1, most, Tally(t.requests + 1, t.waited + delay));
      n := k + 1;
    } else {
      n := 0;
    }
  }

  function Batches(n: nat, size: nat): nat
    requires size >= 1
  {
    if n == 0 then 0 else 1 + Batches(if n < size then 0 else n - size, size)
  }

  // As few batches as hold all the texts.
  lemma {:induction false} BatchesIsCeiling(n: nat, size: nat)
    requires size >= 1 && n > 0
    ensures (Batches(n, size) - 1) * size < n <= Batches(n, size) * size
  {
    if n > size {
      BatchesIsCeiling(n - size, size);
      var k := Batches(n - size, size);
      assert (k + 1) * size == k * size + size;
      assert (k - 1) * size == k * size - size;
    } else {
      assert Batches(n, size) == 1;
    }
  }

  // At most every attempt of every batch.
  lemma {:induction false} EmbedIsBounded(w: World, texts: seq<string>, size: nat, most: nat, t: Tally)
    requires size >= 1 && most >= 1
    ensures Embed(w, texts, size, most, t).1.requests <= t.requests + Batches(|texts|, size) * most
    decreases |texts|
  {
    if texts != [] {
      hide Attempt;
      var n := if |texts| < size then |texts| else size;
      var (vectors, next) := Attempt(w, texts[..n], 1, most, t);
      AttemptIsBounded(w, texts[..n], 1, most, t);
      var rest := Batches(|texts| - n, size);
      assert Batches(|texts|, size) == 1 + rest;
      hide Batches;
      assert Batches(|texts|, size) * most == most + rest * most;
      if vectors.Some? { EmbedIsBounded(w, texts[n..], size, most, next); }
    }
  }

  // ------------------------------------------------------------------
  // What a failure means
  // ------------------------------------------------------------------

  // The requests for this batch, from this one on: so many transient failures
  // and then an answer that was a failure too, the last one allowed or one not
  // worth repeating.
  ghost predicate GaveUp(w: World, batch: seq<string>, first: nat, n: nat, most: nat) {
    && n < most && (forall i :: first <= i < first + n ==> Transient(w, batch, i))
    && Outcome(w.answer(first + n, batch), |batch|).Err?
    && (n + 1 < most ==> !Transient(w, batch, first + n))
  }

  // A client fails only because a batch did, and on its last request.
  lemma {:induction false} EmbedFailsOnABatch(w: World, texts: seq<string>, size: nat, most: nat, t: Tally)
    returns (start: nat, end: nat, first: nat, n: nat)
    requires size >= 1 && most >= 1 && Embed(w, texts, size, most, t).0.None?
    ensures start < end <= |texts| && end - start <= size && (end - start == size || end == |texts|)
    ensures GaveUp(w, texts[start..end], first, n, most)
    ensures Embed(w, texts, size, most, t).1.requests == first + n + 1
    decreases |texts|
  {
    var k := if |texts| < size then |texts| else size;
    var (vectors, next) := Attempt(w, texts[..k], 1, most, t);
    if vectors.None? {
      start, end, first := 0, k, t.requests;
      n := AttemptEndsAt(w, texts[..k], 1, most, t);
      assert texts[0..k] == texts[..k];
    } else {
      hide Attempt, GaveUp;
      start, end, first, n := EmbedFailsOnABatch(w, texts[k..], size, most, next);
      assert texts[k..][start..end] == texts[start + k..end + k];
      start, end := start + k, end + k;
    }
  }

  // A service that never fails is asked once for each batch and never waited for.
  lemma {:induction false} GoodServiceEmbeds(w: World, texts: seq<string>, size: nat, most: nat, t: Tally)
    requires size >= 1 && most >= 1
    requires forall n: nat, batch: seq<string> :: Outcome(w.answer(n, batch), |batch|).Ok?
    ensures Embed(w, texts, size, most, t).0.Some?
    ensures Embed(w, texts, size, most, t).1 == Tally(t.requests + Batches(|texts|, size), t.waited)
    decreases |texts|
  {
    if texts != [] {
      hide ParseResponse;
      var k := if |texts| < size then |texts| else size;
      assert Outcome(w.answer(t.requests, texts[..k]), |texts[..k]|).Ok?;
      GoodServiceEmbeds(w, texts[k..], size, most, Tally(t.requests + 1, t.waited));
    }
  }
}
