// What the points of a document can look like after any history of full and
// interrupted writes, and why one point and two counts settle whether the
// document is complete.
module DocumentPoints {
  import opened Sets
  import opened Texts
  import opened ChunkSets
  import opened PointStore

  // ------------------------------------------------------------------
  // Invariants of every reachable collection
  // ------------------------------------------------------------------

  ghost predicate Shows(p: Point, c: Chunk, digest: Digest) {
    && p.body.payload == c.payload && p.body.text == c.text
    && p.body.embeddingModel == digest.model && p.body.indexDigest == digest
    && p.chunkCount == |digest.chunks|
  }

  // Every point is named after its document and position, and shows the chunk
  // at that position of the set its digest was computed from.
  ghost predicate PointOk(id: string, p: Point) {
    && id == PointName(p.documentId, p.body.payload.chunkIndex)
    && Increasing(p.body.indexDigest.chunks)
    && exists i :: 0 <= i < |p.body.indexDigest.chunks|
         && p.body.indexDigest.chunks[i].index == p.body.payload.chunkIndex
         && Shows(p, p.body.indexDigest.chunks[i], p.body.indexDigest)
  }

  ghost predicate Sound(store: Store) {
    forall id :: id in store ==> PointOk(id, store[id])
  }

  // No point of a tax return without consent.
  ghost predicate Permitted(store: Store) {
    forall id :: id in store ==> store[id].body.payload.consentOnFile || !store[id].body.payload.isTaxReturn
  }

  // Every other document's points are the same points.
  ghost predicate SameElsewhere(a: Store, b: Store, documentId: string) {
    && (forall id :: id in a && a[id].documentId != documentId ==> id in b && b[id] == a[id])
    && (forall id :: id in b && b[id].documentId != documentId ==> id in a && a[id] == b[id])
  }

  function Names(documentId: string, chunks: seq<Chunk>): set<string> {
    set i | 0 <= i < |chunks| :: PointName(documentId, chunks[i].index)
  }

  // The document's points are exactly the positions and payloads of one set.
  ghost predicate Exactly(store: Store, documentId: string, chunks: seq<Chunk>, model: string) {
    && PointsOf(store, documentId) == Names(documentId, chunks)
    && forall i :: 0 <= i < |chunks| ==>
         && PointName(documentId, chunks[i].index) in store
         && Shows(store[PointName(documentId, chunks[i].index)], chunks[i], Digest(model, chunks))
  }

  // ------------------------------------------------------------------
  // Complete means exact
  // ------------------------------------------------------------------

  lemma {:induction false} NamesCount(documentId: string, chunks: seq<Chunk>)
    requires Increasing(chunks)
    ensures |Names(documentId, chunks)| == |chunks|
  {
    if chunks != [] {
      var n := |chunks| - 1;
      NamesCount(documentId, chunks[..n]);
      forall i | 0 <= i < n ensures PointName(documentId, chunks[i].index) != PointName(documentId, chunks[n].index) {
        DistinctNames(documentId, chunks, i, n);
      }
      NamesSnoc(documentId, chunks, n);
      assert chunks[..n + 1] == chunks;
    }
  }

  // Positions may have gaps, so completeness is a counting argument: as many
  // distinct names as chunks, all of them names of chunks.
  lemma CompleteMeansExact(store: Store, pick: string)
    requires Sound(store) && pick in store
    ensures var digest := store[pick].body.indexDigest;
            StoredAt(store, pick).Complete() ==>
              Exactly(store, store[pick].documentId, digest.chunks, digest.model)
  {
    var d, digest := store[pick].documentId, store[pick].body.indexDigest;
    var points, names := PointsOf(store, d), Names(d, digest.chunks);
    var same := set id | id in points && store[id].body.indexDigest == digest;
    if StoredAt(store, pick).Complete() {
      assert PointOk(pick, store[pick]);
      SubsetSize(same, points);
      SameDigestNamed(store, d, digest, points, names);
      NamesCount(d, digest.chunks);
      SubsetSize(points, names);
      forall i | 0 <= i < |digest.chunks|
        ensures PointName(d, digest.chunks[i].index) in store
        ensures Shows(store[PointName(d, digest.chunks[i].index)], digest.chunks[i], digest)
      {
        var id := PointName(d, digest.chunks[i].index);
        assert id in names && id in same && PointOk(id, store[id]);
        ShowsAtName(store[id], d, digest.chunks[i].index);
      }
    }
  }

  lemma SameDigestNamed(store: Store, d: string, digest: Digest, points: set<string>, names: set<string>)
    requires Sound(store) && points == PointsOf(store, d) && names == Names(d, digest.chunks)
    requires forall id :: id in points ==> store[id].body.indexDigest == digest
    ensures points <= names
  {
    forall id | id in points ensures id in names {
      assert PointOk(id, store[id]);
    }
  }

  lemma ShowsAtName(p: Point, d: string, index: nat)
    requires PointOk(PointName(d, index), p)
    ensures p.documentId == d && p.body.payload.chunkIndex == index
    ensures forall i :: 0 <= i < |p.body.indexDigest.chunks| && p.body.indexDigest.chunks[i].index == index
              ==> Shows(p, p.body.indexDigest.chunks[i], p.body.indexDigest)
  {
    PointNameInjective(d, index, p.documentId, p.body.payload.chunkIndex);
  }

  lemma ExactMeansComplete(store: Store, documentId: string, chunks: seq<Chunk>, model: string, pick: string)
    requires Exactly(store, documentId, chunks, model) && Increasing(chunks)
    requires pick in PointsOf(store, documentId)
    ensures StoredAt(store, pick).Complete()
    ensures store[pick].body.indexDigest == Digest(model, chunks)
  {
    NamesCount(documentId, chunks);
    var points := PointsOf(store, documentId);
    forall id | id in points ensures store[id].body.indexDigest == Digest(model, chunks) && store[id].chunkCount == |chunks| {
      assert id in Names(documentId, chunks);
    }
    assert points == set id | id in points && store[id].body.indexDigest == store[pick].body.indexDigest;
  }

  // Whichever point the server returns, the verdict is the same.
  lemma VerdictDoesNotDependOnPick(store: Store, a: string, b: string)
    requires Sound(store) && a in store && b in store && store[a].documentId == store[b].documentId
    ensures StoredAt(store, a).Complete() <==> StoredAt(store, b).Complete()
    ensures StoredAt(store, a).Complete() ==> store[a].body.indexDigest == store[b].body.indexDigest
  {
    forall x, y | x in {a, b} && y in {a, b} && StoredAt(store, x).Complete()
      ensures StoredAt(store, y).Complete() && store[x].body.indexDigest == store[y].body.indexDigest
    {
      CompleteMeansExact(store, x);
      var digest := store[x].body.indexDigest;
      assert PointOk(x, store[x]);
      ExactMeansComplete(store, store[x].documentId, digest.chunks, digest.model, y);
    }
  }

  // ------------------------------------------------------------------
  // Steps of a write
  // ------------------------------------------------------------------

  function PointsFor(cs: ChunkSet, model: string, vectors: seq<Vector>, at: string): (r: seq<DensePoint>)
    requires |vectors| == |cs.chunks|
    ensures |r| == |cs.chunks|
  {
    seq(|cs.chunks|, i requires 0 <= i < |cs.chunks| =>
      DensePoint(cs.chunks[i].index, vectors[i],
                 Body(cs.chunks[i].payload, cs.chunks[i].text, model, at, Digest(model, cs.chunks))))
  }

  // A batch of one document's new points.
  ghost predicate BatchOf(batch: seq<(string, Point)>, cs: ChunkSet, model: string) {
    && |batch| <= |cs.chunks|
    && forall i :: 0 <= i < |batch| ==>
         && batch[i].0 == PointName(cs.documentId, cs.chunks[i].index)
         && batch[i].1.documentId == cs.documentId
         && Shows(batch[i].1, cs.chunks[i], Digest(model, cs.chunks))
  }

  // The i-th point of the batch carries the i-th vector.
  ghost predicate BatchCarries(batch: seq<(string, Point)>, vectors: seq<Vector>, at: string) {
    && |batch| == |vectors|
    && forall i :: 0 <= i < |batch| ==> batch[i].1.vector == vectors[i] && batch[i].1.body.embeddedAt == at
  }

  // Every chunk's point carries that chunk's vector.
  ghost predicate Carries(store: Store, cs: ChunkSet, vectors: seq<Vector>, at: string)
    requires |vectors| == |cs.chunks|
  {
    forall i :: 0 <= i < |cs.chunks| ==>
      (var id := PointName(cs.documentId, cs.chunks[i].index);
       id in store && store[id].vector == vectors[i] && store[id].body.embeddedAt == at)
  }

  lemma StructsAreBatch(cs: ChunkSet, model: string, vectors: seq<Vector>, at: string)
    requires WellFormed(cs) && |vectors| == |cs.chunks|
    ensures BatchOf(Structs(cs.documentId, PointsFor(cs, model, vectors, at)), cs, model)
    ensures Ids(cs.documentId, PointsFor(cs, model, vectors, at)) == Names(cs.documentId, cs.chunks)
    ensures BatchCarries(Structs(cs.documentId, PointsFor(cs, model, vectors, at)), vectors, at)
    ensures (forall i :: 0 <= i < |vectors| ==> |vectors[i]| == EMBEDDING_DIMENSIONS)
            <==> Writable(cs.documentId, PointsFor(cs, model, vectors, at))
  {
    var points := PointsFor(cs, model, vectors, at);
    var structs := Structs(cs.documentId, points);
    forall i | 0 <= i < |structs|
      ensures structs[i].0 == PointName(cs.documentId, cs.chunks[i].index)
      ensures structs[i].1.documentId == cs.documentId && Shows(structs[i].1, cs.chunks[i], Digest(model, cs.chunks))
    {
      assert structs[i] == Struct(cs.documentId, |points|, points[i]);
      assert cs.chunks[i].payload.documentId == cs.documentId;
    }
    NamesCount(cs.documentId, cs.chunks);
    assert forall i :: 0 <= i < |points| ==> points[i].vector == vectors[i] && points[i].chunkIndex == cs.chunks[i].index;
    assert Ids(cs.documentId, points) == Names(cs.documentId, cs.chunks);
    assert forall i :: 0 <= i < |points| ==> points[i].body.payload == cs.chunks[i].payload;
  }

  // One upserted point of a new set.
  lemma OneUpsert(store: Store, p: Point, cs: ChunkSet, model: string, n: nat)
    requires Sound(store) && WellFormed(cs) && n < |cs.chunks| && p.documentId == cs.documentId
    requires Shows(p, cs.chunks[n], Digest(model, cs.chunks))
    ensures var id := PointName(cs.documentId, cs.chunks[n].index);
      && Kept(store, store[id := p], cs.documentId, cs.MayBeIndexed())
      && PointsOf(store[id := p], cs.documentId) == PointsOf(store, cs.documentId) + {id}
  {
    var id := PointName(cs.documentId, cs.chunks[n].index);
    NewPointOk(p, cs, model, n);
    if id in store {
      assert PointOk(id, store[id]);
      ShowsAtName(store[id], cs.documentId, cs.chunks[n].index);
    }
  }

  lemma NamesSnoc(documentId: string, chunks: seq<Chunk>, n: nat)
    requires n < |chunks|
    ensures Names(documentId, chunks[..n + 1]) == Names(documentId, chunks[..n]) + {PointName(documentId, chunks[n].index)}
  {
    assert forall i :: 0 <= i < n ==> chunks[..n][i] == chunks[..n + 1][i];
    assert chunks[..n + 1][n] == chunks[n];
  }

  lemma DistinctNames(documentId: string, chunks: seq<Chunk>, i: nat, j: nat)
    requires Increasing(chunks) && i < j < |chunks|
    ensures PointName(documentId, chunks[i].index) != PointName(documentId, chunks[j].index)
  {
    if PointName(documentId, chunks[i].index) == PointName(documentId, chunks[j].index) {
      PointNameInjective(documentId, chunks[i].index, documentId, chunks[j].index);
    }
  }

  lemma BatchFront(batch: seq<(string, Point)>, cs: ChunkSet, model: string)
    requires BatchOf(batch, cs, model) && batch != []
    ensures var n := |batch| - 1;
      && n < |cs.chunks| && BatchOf(batch[..n], cs, model)
      && batch[n].0 == PointName(cs.documentId, cs.chunks[n].index)
      && batch[n].1.documentId == cs.documentId && Shows(batch[n].1, cs.chunks[n], Digest(model, cs.chunks))
  {
  }

  // A step on one document's points, seen from the whole collection.
  ghost predicate Kept(store: Store, after: Store, documentId: string, allowed: bool) {
    && Sound(after) && SameElsewhere(store, after, documentId)
    && (Permitted(store) && allowed ==> Permitted(after))
  }

  lemma KeptIsSound(a: Store, b: Store, documentId: string, allowed: bool)
    requires Kept(a, b, documentId, allowed)
    ensures Sound(b) && (Permitted(a) && allowed ==> Permitted(b))
  {
  }

  lemma KeptTwice(a: Store, b: Store, c: Store, documentId: string, allowed: bool)
    requires Kept(a, b, documentId, allowed) && Kept(b, c, documentId, allowed)
    ensures Kept(a, c, documentId, allowed)
  {
    hide Sound, Permitted;
  }

  // Upserting part of a new set: other documents keep every point and this one
  // gains exactly the names written.
  lemma {:induction false} UpsertKeeps(store: Store, batch: seq<(string, Point)>, cs: ChunkSet, model: string)
    requires Sound(store) && WellFormed(cs) && BatchOf(batch, cs, model)
    ensures Kept(store, UpsertAll(store, batch), cs.documentId, cs.MayBeIndexed())
    ensures PointsOf(UpsertAll(store, batch), cs.documentId)
         == PointsOf(store, cs.documentId) + Names(cs.documentId, cs.chunks[..|batch|])
  {
    if batch == [] {
      assert cs.chunks[..0] == [] && Names(cs.documentId, []) == {};
    } else {
      hide Sound, Permitted, WellFormed, PointsOf, SameElsewhere, Shows, Names, Kept, BatchOf, Increasing;
      var n := |batch| - 1;
      BatchFront(batch, cs, model);
      UpsertKeeps(store, batch[..n], cs, model);
      UpsertNext(store, UpsertAll(store, batch[..n]), batch[n].1, cs, model, n);
    }
  }

  lemma UpsertNext(store: Store, before: Store, p: Point, cs: ChunkSet, model: string, n: nat)
    requires WellFormed(cs) && n < |cs.chunks| && p.documentId == cs.documentId
    requires Shows(p, cs.chunks[n], Digest(model, cs.chunks))
    requires Kept(store, before, cs.documentId, cs.MayBeIndexed())
    requires PointsOf(before, cs.documentId) == PointsOf(store, cs.documentId) + Names(cs.documentId, cs.chunks[..n])
    ensures var after := before[PointName(cs.documentId, cs.chunks[n].index) := p];
      && Kept(store, after, cs.documentId, cs.MayBeIndexed())
      && PointsOf(after, cs.documentId) == PointsOf(store, cs.documentId) + Names(cs.documentId, cs.chunks[..n + 1])
  {
    hide Sound, Permitted, WellFormed, PointsOf, SameElsewhere, Shows, Names, Kept, Increasing;
    KeptIsSound(store, before, cs.documentId, cs.MayBeIndexed());
    OneUpsert(before, p, cs, model, n);
    NamesSnoc(cs.documentId, cs.chunks, n);
    KeptTwice(store, before, before[PointName(cs.documentId, cs.chunks[n].index) := p], cs.documentId, cs.MayBeIndexed());
  }

  // Every point of the batch is stored as written.
  lemma {:induction false} UpsertWrites(store: Store, batch: seq<(string, Point)>, cs: ChunkSet, model: string)
    requires WellFormed(cs) && BatchOf(batch, cs, model)
    ensures forall i :: 0 <= i < |batch| ==>
              batch[i].0 in UpsertAll(store, batch) && UpsertAll(store, batch)[batch[i].0] == batch[i].1
  {
    if batch != [] {
      var n := |batch| - 1;
      BatchFront(batch, cs, model);
      UpsertWrites(store, batch[..n], cs, model);
      forall i | 0 <= i < n ensures batch[i].0 != batch[n].0 && batch[..n][i] == batch[i] {
        DistinctNames(cs.documentId, cs.chunks, i, n);
      }
    }
  }

  lemma NewPointOk(p: Point, cs: ChunkSet, model: string, n: nat)
    requires WellFormed(cs) && n < |cs.chunks| && p.documentId == cs.documentId
    requires Shows(p, cs.chunks[n], Digest(model, cs.chunks))
    ensures PointOk(PointName(cs.documentId, cs.chunks[n].index), p)
    ensures cs.MayBeIndexed() ==> p.body.payload.consentOnFile || !p.body.payload.isTaxReturn
  {
    assert cs.chunks[n].payload.chunkIndex == cs.chunks[n].index;
  }

  lemma DeleteKeeps(store: Store, documentId: string, keep: set<string>, allowed: bool)
    requires Sound(store)
    ensures var after := PointStore.Without(store, documentId, keep);
      && Kept(store, after, documentId, allowed)
      && PointsOf(after, documentId) == PointsOf(store, documentId) * keep
  {
  }

  // ------------------------------------------------------------------
  // Any prefix of a plan
  // ------------------------------------------------------------------

  lemma {:induction false} UpsertAllSplit(store: Store, a: seq<(string, Point)>, b: seq<(string, Point)>)
    ensures UpsertAll(UpsertAll(store, a), b) == UpsertAll(store, a + b)
  {
    if b == [] {
      assert a + b == a;
    } else {
      UpsertAllSplit(store, a, b[..|b| - 1]);
      assert (a + b)[..|a + b| - 1] == a + b[..|b| - 1];
    }
  }

  lemma {:induction false} ApplyAllSplit(store: Store, a: seq<ClientCall>, b: seq<ClientCall>)
    ensures ApplyAll(store, a + b) == ApplyAll(ApplyAll(store, a), b)
  {
    if b == [] {
      assert a + b == a;
    } else {
      ApplyAllSplit(store, a, b[..|b| - 1]);
      assert (a + b)[..|a + b| - 1] == a + b[..|b| - 1];
    }
  }

  // Stopping between batches leaves a prefix of the points written.
  lemma {:induction false} BatchPrefix(store: Store, structs: seq<(string, Point)>, k: nat) returns (m: nat)
    requires k <= |Batches(structs)|
    ensures m <= |structs| && ApplyAll(store, Batches(structs)[..k]) == UpsertAll(store, structs[..m])
    ensures k == |Batches(structs)| ==> m == |structs|
    decreases |structs|
  {
    if structs == [] || k == 0 {
      m := 0;
      assert Batches(structs)[..k] == [] && structs[..0] == [];
    } else {
      var n := if |structs| <= UPSERT_BATCH_SIZE then |structs| else UPSERT_BATCH_SIZE;
      var rest := Batches(structs[n..]);
      assert structs[..|structs|] == structs;
      assert Batches(structs) == [Upsert(structs[..n])] + rest;
      assert Batches(structs)[..k] == [Upsert(structs[..n])] + rest[..k - 1];
      ApplyAllSplit(store, [Upsert(structs[..n])], rest[..k - 1]);
      OneCall(store, Upsert(structs[..n]));
      var r := BatchPrefix(UpsertAll(store, structs[..n]), structs[n..], k - 1);
      UpsertAllSplit(store, structs[..n], structs[n..][..r]);
      m := n + r;
      assert structs[..n] + structs[n..][..r] == structs[..m];
    }
  }

  lemma OneCall(store: Store, call: ClientCall)
    ensures ApplyAll(store, [call]) == Apply(store, call)
  {
    assert [call][..0] == [];
    assert ApplyAll(store, []) == store;
  }

  // A plan stopped short has written some first points; run to its end, it has
  // written them all and deleted what they do not reuse.
  lemma PlanPrefix(store: Store, documentId: string, points: seq<DensePoint>, k: nat) returns (m: nat)
    requires points != [] && k <= |Plan(documentId, points)|
    ensures var plan, structs := Plan(documentId, points), Structs(documentId, points);
      && m <= |structs|
      && ApplyAll(store, plan[..k]) ==
         if k < |plan| then UpsertAll(store, structs[..m])
         else Apply(UpsertAll(store, structs), DeleteStale(documentId, Ids(documentId, points)))
  {
    var structs, ids := Structs(documentId, points), Ids(documentId, points);
    var plan, batches := Plan(documentId, points), Batches(structs);
    assert plan == batches + [DeleteStale(documentId, ids)];
    hide *;
    m := BatchPrefix(store, structs, if k <= |batches| then k else |batches|);
    if k <= |batches| {
      assert plan[..k] == batches[..k];
    } else {
      assert structs[..|structs|] == structs && plan[..k] == plan && batches[..|batches|] == batches;
      ApplyAllSplit(store, batches, [DeleteStale(documentId, ids)]);
      OneCall(UpsertAll(store, structs), DeleteStale(documentId, ids));
    }
  }

  // A write session of a non-empty set, stopped after k calls or run to its end.
  lemma SessionKeeps(store: Store, cs: ChunkSet, model: string, vectors: seq<Vector>, at: string, k: nat)
    requires Sound(store) && WellFormed(cs) && cs.chunks != [] && |vectors| == |cs.chunks|
    requires k <= |Plan(cs.documentId, PointsFor(cs, model, vectors, at))|
    ensures var plan := Plan(cs.documentId, PointsFor(cs, model, vectors, at));
      var after := ApplyAll(store, plan[..k]);
      && Kept(store, after, cs.documentId, cs.MayBeIndexed())
      && (PointsOf(store, cs.documentId) != {} ==> PointsOf(after, cs.documentId) != {})
      && (k < |plan| ==> PointsOf(store, cs.documentId) <= PointsOf(after, cs.documentId))
      && (k == |plan| ==> Exactly(after, cs.documentId, cs.chunks, model))
  {
    var points, d := PointsFor(cs, model, vectors, at), cs.documentId;
    var plan, structs := Plan(d, points), Structs(d, points);
    StructsAreBatch(cs, model, vectors, at);
    hide *;
    var m := PlanPrefix(store, d, points, k);
    if k < |plan| {
      SubBatch(structs, cs, model, m);
      UpsertKeeps(store, structs[..m], cs, model);
    } else {
      FinishedIsExact(store, structs, cs, model);
    }
  }

  // A write run to its end pairs chunks and vectors in order.
  lemma SessionCarries(store: Store, cs: ChunkSet, model: string, vectors: seq<Vector>, at: string)
    requires WellFormed(cs) && cs.chunks != [] && |vectors| == |cs.chunks|
    ensures Carries(ApplyAll(store, Plan(cs.documentId, PointsFor(cs, model, vectors, at))), cs, vectors, at)
  {
    var points, d := PointsFor(cs, model, vectors, at), cs.documentId;
    var plan := Plan(d, points);
    StructsAreBatch(cs, model, vectors, at);
    assert plan[..|plan|] == plan;
    hide *;
    var m := PlanPrefix(store, d, points, |plan|);
    FinishedCarries(store, Structs(d, points), cs, model, vectors, at);
  }

  lemma FinishedCarries(
    store: Store, structs: seq<(string, Point)>, cs: ChunkSet, model: string, vectors: seq<Vector>, at: string)
    requires WellFormed(cs) && |vectors| == |cs.chunks|
    requires BatchOf(structs, cs, model) && BatchCarries(structs, vectors, at)
    ensures Carries(Apply(UpsertAll(store, structs), DeleteStale(cs.documentId, Names(cs.documentId, cs.chunks))),
                    cs, vectors, at)
  {
    UpsertWrites(store, structs, cs, model);
    var names := Names(cs.documentId, cs.chunks);
    hide UpsertAll, WellFormed, Shows;
    forall i | 0 <= i < |cs.chunks| ensures structs[i].0 in names && structs[i].0 == PointName(cs.documentId, cs.chunks[i].index) {
    }
  }

  lemma SubBatch(batch: seq<(string, Point)>, cs: ChunkSet, model: string, m: nat)
    requires BatchOf(batch, cs, model) && m <= |batch|
    ensures BatchOf(batch[..m], cs, model)
  {
  }

  // All batches written, leftovers deleted: exactly the new set remains.
  lemma FinishedIsExact(store: Store, structs: seq<(string, Point)>, cs: ChunkSet, model: string)
    requires Sound(store) && WellFormed(cs)
    requires BatchOf(structs, cs, model) && |structs| == |cs.chunks| && cs.chunks != []
    ensures var after := Apply(UpsertAll(store, structs), DeleteStale(cs.documentId, Names(cs.documentId, cs.chunks)));
      && Exactly(after, cs.documentId, cs.chunks, model)
      && Kept(store, after, cs.documentId, cs.MayBeIndexed())
      && PointsOf(after, cs.documentId) != {}
  {
    hide Sound, Permitted, WellFormed, PointsOf, SameElsewhere, Shows, Names, Kept, BatchOf, Increasing, UpsertAll, PointStore.Without;
    var written, names, allowed := UpsertAll(store, structs), Names(cs.documentId, cs.chunks), cs.MayBeIndexed();
    UpsertKeeps(store, structs, cs, model);
    UpsertWrites(store, structs, cs, model);
    assert cs.chunks[..|structs|] == cs.chunks;
    KeptIsSound(store, written, cs.documentId, allowed);
    DeleteKeeps(written, cs.documentId, names, allowed);
    LeftoversGone(store, written, structs, cs, model);
    KeptTwice(store, written, Apply(written, DeleteStale(cs.documentId, names)), cs.documentId, allowed);
  }

  lemma LeftoversGone(store: Store, written: Store, structs: seq<(string, Point)>, cs: ChunkSet, model: string)
    requires BatchOf(structs, cs, model) && |structs| == |cs.chunks| && cs.chunks != []
    requires PointsOf(written, cs.documentId) == PointsOf(store, cs.documentId) + Names(cs.documentId, cs.chunks)
    requires forall i :: 0 <= i < |structs| ==> structs[i].0 in written && written[structs[i].0] == structs[i].1
    ensures var after := PointStore.Without(written, cs.documentId, Names(cs.documentId, cs.chunks));
      Exactly(after, cs.documentId, cs.chunks, model) && PointsOf(after, cs.documentId) != {}
  {
    var names := Names(cs.documentId, cs.chunks);
    var after := PointStore.Without(written, cs.documentId, names);
    assert PointsOf(after, cs.documentId) == names;
    assert PointName(cs.documentId, cs.chunks[0].index) in names;
    forall i | 0 <= i < |cs.chunks|
      ensures PointName(cs.documentId, cs.chunks[i].index) in after
      ensures Shows(after[PointName(cs.documentId, cs.chunks[i].index)], cs.chunks[i], Digest(model, cs.chunks))
    {
      assert structs[i].0 in names && after[structs[i].0] == structs[i].1;
    }
  }

  // ------------------------------------------------------------------
  // Histories
  // ------------------------------------------------------------------

  datatype Session =
    | Write(cs: ChunkSet, model: string, vectors: seq<Vector>, at: string, calls: nat)
    | Remove(documentId: string)

  // A session the indexer could have started.
  ghost predicate Possible(s: Session) {
    s.Write? ==> WellFormed(s.cs) && s.cs.chunks != [] && s.cs.MayBeIndexed() && |s.vectors| == |s.cs.chunks|
  }

  ghost function StoreAfter(history: seq<Session>): Store
    requires forall i :: 0 <= i < |history| ==> Possible(history[i])
  {
    if history == [] then map[] else
    var before, s := StoreAfter(history[..|history| - 1]), history[|history| - 1];
    match s
    case Remove(d) => PointStore.Without(before, d, {})
    case Write(cs, model, vectors, at, calls) =>
      assert Possible(s);
      var plan := Plan(cs.documentId, PointsFor(cs, model, vectors, at));
      ApplyAll(before, plan[..Min(calls, |plan|)])
  }

  // After any history of full and interrupted writes and removals: the point
  // the server happens to return says "complete" exactly when the document's
  // points are those of one chunk set, and no unconsented tax return is stored.
  lemma {:induction false} EveryHistory(history: seq<Session>)
    requires forall i :: 0 <= i < |history| ==> Possible(history[i])
    ensures var store := StoreAfter(history);
      && Sound(store) && Permitted(store)
      && forall pick :: pick in store ==>
           (StoredAt(store, pick).Complete() <==>
            exists chunks, model :: Increasing(chunks) && Exactly(store, store[pick].documentId, chunks, model))
  {
    var store := StoreAfter(history);
    if history != [] {
      var before, s := StoreAfter(history[..|history| - 1]), history[|history| - 1];
      EveryHistory(history[..|history| - 1]);
      match s {
        case Remove(d) => DeleteKeeps(before, d, {}, true);
        case Write(cs, model, vectors, at, calls) =>
          SessionKeeps(before, cs, model, vectors, at, Min(calls, |Plan(cs.documentId, PointsFor(cs, model, vectors, at))|));
      }
    }
    forall pick | pick in store
      ensures StoredAt(store, pick).Complete() <==>
              exists chunks, model :: Increasing(chunks) && Exactly(store, store[pick].documentId, chunks, model)
    {
      assert PointOk(pick, store[pick]);
      CompleteMeansExact(store, pick);
      if chunks, model :| Increasing(chunks) && Exactly(store, store[pick].documentId, chunks, model) {
        ExactMeansComplete(store, store[pick].documentId, chunks, model, pick);
      }
    }
  }

  // ------------------------------------------------------------------
  // Whose vector a point carries
  // ------------------------------------------------------------------

  // Every point carries the vector of its own text.
  ghost predicate Told(store: Store, vectorOf: string -> Vector) {
    forall id :: id in store ==> store[id].vector == vectorOf(store[id].body.text)
  }

  // The vectors given for a set are those of its chunks' texts, in order.
  ghost predicate Tells(cs: ChunkSet, vectors: seq<Vector>, vectorOf: string -> Vector) {
    |vectors| == |cs.chunks| && forall i :: 0 <= i < |cs.chunks| ==> vectors[i] == vectorOf(cs.chunks[i].text)
  }

  ghost predicate BatchTold(batch: seq<(string, Point)>, vectorOf: string -> Vector) {
    forall i :: 0 <= i < |batch| ==> batch[i].1.vector == vectorOf(batch[i].1.body.text)
  }

  lemma {:induction false} UpsertTold(store: Store, batch: seq<(string, Point)>, vectorOf: string -> Vector)
    requires Told(store, vectorOf) && BatchTold(batch, vectorOf)
    ensures Told(UpsertAll(store, batch), vectorOf)
  {
    if batch != [] {
      var n := |batch| - 1;
      assert batch[n].1.vector == vectorOf(batch[n].1.body.text);
      UpsertTold(store, batch[..n], vectorOf);
    }
  }

  lemma WithoutTold(store: Store, documentId: string, keep: set<string>, vectorOf: string -> Vector)
    requires Told(store, vectorOf)
    ensures Told(PointStore.Without(store, documentId, keep), vectorOf)
  {
  }

  lemma StructsTold(cs: ChunkSet, model: string, vectors: seq<Vector>, at: string, vectorOf: string -> Vector, m: nat)
    requires WellFormed(cs) && Tells(cs, vectors, vectorOf) && m <= |vectors|
    ensures BatchTold(Structs(cs.documentId, PointsFor(cs, model, vectors, at))[..m], vectorOf)
  {
    var structs := Structs(cs.documentId, PointsFor(cs, model, vectors, at));
    StructsAreBatch(cs, model, vectors, at);
    hide Structs, PointsFor, WellFormed;
    forall i | 0 <= i < m ensures structs[i].1.vector == vectorOf(structs[i].1.body.text) {
      assert structs[i].1.body.text == cs.chunks[i].text;
    }
  }

  // A write stopped after any number of calls, or run to its end.
  lemma SessionTold(
    store: Store, cs: ChunkSet, model: string, vectors: seq<Vector>, at: string, k: nat, vectorOf: string -> Vector)
    requires Told(store, vectorOf) && WellFormed(cs) && cs.chunks != [] && Tells(cs, vectors, vectorOf)
    requires k <= |Plan(cs.documentId, PointsFor(cs, model, vectors, at))|
    ensures Told(ApplyAll(store, Plan(cs.documentId, PointsFor(cs, model, vectors, at))[..k]), vectorOf)
  {
    var points, d := PointsFor(cs, model, vectors, at), cs.documentId;
    var structs := Structs(d, points);
    assert |structs| == |vectors| && structs[..|structs|] == structs;
    var m := PlanPrefix(store, d, points, k);
    StructsTold(cs, model, vectors, at, vectorOf, m);
    StructsTold(cs, model, vectors, at, vectorOf, |structs|);
    hide *;
    UpsertTold(store, structs[..m], vectorOf);
    UpsertTold(store, structs, vectorOf);
    DeleteTold(UpsertAll(store, structs), d, Ids(d, points), vectorOf);
  }

  lemma DeleteTold(store: Store, documentId: string, keep: set<string>, vectorOf: string -> Vector)
    requires Told(store, vectorOf)
    ensures Told(Apply(store, DeleteStale(documentId, keep)), vectorOf)
  {
  }

  // If every write was given the vectors of its chunks' texts, then after any
  // history, interrupted writes included, every point carries its own text's.
  lemma {:induction false} EveryVector(history: seq<Session>, vectorOf: string -> Vector)
    requires forall i :: 0 <= i < |history| ==> Possible(history[i])
    requires forall i :: 0 <= i < |history| && history[i].Write? ==> Tells(history[i].cs, history[i].vectors, vectorOf)
    ensures Told(StoreAfter(history), vectorOf)
  {
    if history != [] {
      var before, s := StoreAfter(history[..|history| - 1]), history[|history| - 1];
      EveryVector(history[..|history| - 1], vectorOf);
      hide Told, Tells;
      match s {
        case Remove(d) => WithoutTold(before, d, {}, vectorOf);
        case Write(cs, model, vectors, at, calls) =>
          SessionTold(before, cs, model, vectors, at,
                      Min(calls, |Plan(cs.documentId, PointsFor(cs, model, vectors, at))|), vectorOf);
      }
    }
  }
}
