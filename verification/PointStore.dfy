// The family-docs collection and the writer that keeps one set of points per
// document. The store maps point ids to points; one client call is one atomic
// step, and a write session may stop after any number of them.
module PointStore {
  import opened Sets
  import opened Texts
  import opened ChunkSets
  import Decimals

  const EMBEDDING_DIMENSIONS := 1024
  const UPSERT_BATCH_SIZE := 64
  const SCROLL_PAGE := 256

  type Vector = seq<real>

  // A digest stands for what it is computed from: the embedding model and
  // every chunk's position, text and payload. SHA-256 over the canonical JSON
  // of these is taken to be injective.
  datatype Digest = Digest(model: string, chunks: seq<Chunk>)

  datatype Body = Body(payload: Payload, text: string, embeddingModel: string, embeddedAt: string, indexDigest: Digest)

  datatype Point = Point(documentId: string, body: Body, chunkCount: nat, vector: Vector)

  type Store = map<string, Point>

  // ------------------------------------------------------------------
  // Point names
  // ------------------------------------------------------------------

  // The name a point id is derived from. UUIDv5 (section 5.5 of RFC 9562) is
  // taken to be injective on names, so the name serves as the id.
  function PointName(documentId: string, chunkIndex: nat): string {
    documentId + ":" + Decimals.Text(chunkIndex)
  }

  // The name is the document, a colon, and the position in digits.
  lemma PointNameReads(d: string, i: nat) returns (digits: string)
    ensures Decimals.AllDigits(digits) && Decimals.Value(digits) == i && PointName(d, i) == d + ":" + digits
  {
    digits := Decimals.Text(i);
  }

  lemma PointNameInjective(d: string, i: nat, e: string, j: nat)
    requires PointName(d, i) == PointName(e, j)
    ensures d == e && i == j
  {
    var a, b, name := Decimals.Text(i), Decimals.Text(j), PointName(d, i);
    // Digits hold no colon, so the last colon is where both names split.
    assert |a| == |b| by {
      assert name[|d|] == ':' && name[|e|] == ':';
      assert forall k :: |d| < k < |name| ==> name[k] == a[k - |d| - 1];
      assert forall k :: |e| < k < |name| ==> name[k] == b[k - |e| - 1];
    }
    assert d == name[..|d|] == name[..|e|] == e;
    assert a == name[|d| + 1..] == b;
  }

  // ------------------------------------------------------------------
  // Client calls
  // ------------------------------------------------------------------

  datatype ClientCall =
    | Upsert(batch: seq<(string, Point)>)
    | DeleteDocument(documentId: string)
    | DeleteStale(documentId: string, keep: set<string>)

  function UpsertAll(store: Store, batch: seq<(string, Point)>): Store {
    if batch == [] then store else UpsertAll(store, batch[..|batch| - 1])[batch[|batch| - 1].0 := batch[|batch| - 1].1]
  }

  function Without(store: Store, documentId: string, keep: set<string>): Store {
    map id | id in store && (store[id].documentId != documentId || id in keep) :: store[id]
  }

  function Apply(store: Store, call: ClientCall): Store {
    match call
    case Upsert(batch) => UpsertAll(store, batch)
    case DeleteDocument(d) => Without(store, d, {})
    case DeleteStale(d, keep) => Without(store, d, keep)
  }

  function ApplyAll(store: Store, calls: seq<ClientCall>): Store {
    if calls == [] then store else Apply(ApplyAll(store, calls[..|calls| - 1]), calls[|calls| - 1])
  }

  function DocumentIds(store: Store): set<string> {
    set id | id in store :: store[id].documentId
  }

  // The ids of one document's points.
  function PointsOf(store: Store, documentId: string): set<string> {
    set id | id in store && store[id].documentId == documentId
  }

  // ------------------------------------------------------------------
  // Replacing a document
  // ------------------------------------------------------------------

  datatype DensePoint = DensePoint(chunkIndex: nat, vector: Vector, body: Body)

  function Struct(documentId: string, count: nat, p: DensePoint): (string, Point) {
    (PointName(documentId, p.chunkIndex),
     Point(documentId, p.body.(payload := p.body.payload.(documentId := documentId)), count, p.vector))
  }

  function Structs(documentId: string, points: seq<DensePoint>): (r: seq<(string, Point)>)
    ensures |r| == |points|
    ensures forall i :: 0 <= i < |points| ==> r[i] == Struct(documentId, |points|, points[i])
  {
    seq(|points|, i requires 0 <= i < |points| => Struct(documentId, |points|, points[i]))
  }

  function Ids(documentId: string, points: seq<DensePoint>): set<string> {
    set i | 0 <= i < |points| :: PointName(documentId, points[i].chunkIndex)
  }

  // What the writer refuses before touching the collection.
  predicate Writable(documentId: string, points: seq<DensePoint>) {
    && (forall i :: 0 <= i < |points| ==> |points[i].vector| == EMBEDDING_DIMENSIONS)
    && (forall i :: 0 <= i < |points| ==> points[i].body.payload.documentId == documentId)
    && |Ids(documentId, points)| == |points|
  }

  ghost predicate NoPlaceTwice(points: seq<DensePoint>) {
    forall i, j :: 0 <= i < j < |points| ==> points[i].chunkIndex != points[j].chunkIndex
  }

  // Refused: a vector of the wrong size, a point of another document, or a
  // position twice.
  lemma RefusedIff(documentId: string, points: seq<DensePoint>)
    ensures !Writable(documentId, points) <==>
      || (exists i :: 0 <= i < |points| && |points[i].vector| != 1024)
      || (exists i :: 0 <= i < |points| && points[i].body.payload.documentId != documentId)
      || exists i, j :: 0 <= i < j < |points| && points[i].chunkIndex == points[j].chunkIndex
  {
    IdsCount(documentId, points);
    hide Ids;
  }

  lemma {:induction false} IdsCount(documentId: string, points: seq<DensePoint>)
    ensures |Ids(documentId, points)| <= |points|
    ensures |Ids(documentId, points)| == |points| <==> NoPlaceTwice(points)
  {
    if points != [] {
      var n := |points| - 1;
      var front, last := points[..n], points[n];
      assert points == front + [last];
      IdsCount(documentId, front);
      IdsSnoc(documentId, front, last);
      PlacesSnoc(documentId, front, last);
      hide Ids, NoPlaceTwice;
    }
  }

  lemma IdsSnoc(documentId: string, front: seq<DensePoint>, last: DensePoint)
    ensures Ids(documentId, front + [last]) == Ids(documentId, front) + {PointName(documentId, last.chunkIndex)}
  {
    var points := front + [last];
    assert points[|front|] == last && forall i :: 0 <= i < |front| ==> points[i] == front[i];
  }

  lemma PlacesSnoc(documentId: string, front: seq<DensePoint>, last: DensePoint)
    ensures NoPlaceTwice(front + [last]) <==>
      NoPlaceTwice(front) && PointName(documentId, last.chunkIndex) !in Ids(documentId, front)
  {
    var points := front + [last];
    assert points[|front|] == last && forall i :: 0 <= i < |front| ==> points[i] == front[i];
    forall i | 0 <= i < |front|
      ensures PointName(documentId, front[i].chunkIndex) == PointName(documentId, last.chunkIndex) <==>
        front[i].chunkIndex == last.chunkIndex
    {
      if PointName(documentId, front[i].chunkIndex) == PointName(documentId, last.chunkIndex) {
        PointNameInjective(documentId, front[i].chunkIndex, documentId, last.chunkIndex);
      }
    }
    hide PointName;
  }

  function Batches(structs: seq<(string, Point)>): (r: seq<ClientCall>)
    ensures forall i :: 0 <= i < |r| ==> r[i].Upsert?
  {
    if structs == [] then [] else
    if |structs| <= UPSERT_BATCH_SIZE then [Upsert(structs)]
    else [Upsert(structs[..UPSERT_BATCH_SIZE])] + Batches(structs[UPSERT_BATCH_SIZE..])
  }

  // The calls of one full replacement, in order.
  function Plan(documentId: string, points: seq<DensePoint>): seq<ClientCall> {
    if points == [] then [DeleteDocument(documentId)]
    else Batches(Structs(documentId, points)) + [DeleteStale(documentId, Ids(documentId, points))]
  }

  datatype WriteResult = Written(points: nat) | RefusedLocally | Interrupted

  function Min(a: nat, b: nat): nat { if a < b then a else b }

  // The stored values one arbitrary point shows, with the two counts.
  datatype StoredDocument = StoredDocument(
    sha256: Option<string>, consentOnFile: bool, embeddingModel: string,
    chunkCount: nat, indexDigest: Digest, isTaxReturn: bool, pointCount: nat, digestCount: nat)
  {
    predicate Complete() {
      chunkCount == pointCount == digestCount
    }
  }

  function StoredAt(store: Store, pick: string): StoredDocument
    requires pick in store
  {
    var p := store[pick];
    var points := PointsOf(store, p.documentId);
    StoredDocument(p.body.payload.sha256, p.body.payload.consentOnFile, p.body.embeddingModel,
                   p.chunkCount, p.body.indexDigest, p.body.payload.isTaxReturn,
                   |points|, |set id | id in points && store[id].body.indexDigest == p.body.indexDigest|)
  }

  class FamilyDocsWriter {
    var store: Store

    constructor (store: Store)
      ensures this.store == store
    {
      this.store := store;
    }

    method DeleteDocument(documentId: string)
      modifies this
      ensures store == Without(old(store), documentId, {})
      ensures PointsOf(store, documentId) == {}
      ensures forall d :: d != documentId ==> PointsOf(store, d) == PointsOf(old(store), d)
      ensures forall id :: id in store ==> id in old(store) && store[id] == old(store)[id]
    {
      store := Without(store, documentId, {});
    }

    // The server returns any one of the document's points.
    method ReadStored(documentId: string) returns (stored: Option<StoredDocument>)
      ensures stored.None? <==> PointsOf(store, documentId) == {}
      ensures stored.Some? ==> exists pick :: pick in PointsOf(store, documentId) && stored.value == StoredAt(store, pick)
    {
      var mine := PointsOf(store, documentId);
      if mine == {} { return None; }
      var pick :| pick in mine;
      return Some(StoredAt(store, pick));
    }

    // Reads the collection page by page, in whatever order the server keeps.
    method ReadDocumentIds() returns (found: set<string>)
      ensures found == DocumentIds(store)
    {
      var order := InSomeOrder(store.Keys);
      found := {};
      var offset := 0;
      while offset < |order|
        invariant 0 <= offset <= |order|
        invariant found == set i | 0 <= i < offset :: store[order[i]].documentId
      {
        var end := if offset + SCROLL_PAGE < |order| then offset + SCROLL_PAGE else |order|;
        var page := order[offset..end];
        found := found + set i | 0 <= i < |page| :: store[page[i]].documentId;
        assert forall i :: offset <= i < end ==> order[i] == page[i - offset];
        offset := end;
      }
      assert forall id :: id in store ==> exists i :: 0 <= i < |order| && order[i] == id;
    }

    // Upserts batch by batch, then deletes what the new set does not reuse.
    // With a fault, `fault` many calls take effect before the session dies.
    method ReplaceDocument(documentId: string, points: seq<DensePoint>, fault: Option<nat>) returns (r: WriteResult)
      modifies this
      ensures r.RefusedLocally? <==> !Writable(documentId, points)
      ensures r.RefusedLocally? ==> store == old(store)
      ensures Writable(documentId, points) ==>
        var plan := Plan(documentId, points);
        && store == ApplyAll(old(store), if fault.Some? then plan[..Min(fault.value, |plan|)] else plan)
        && r == if fault.Some? then Interrupted else Written(|points|)
    {
      if !Writable(documentId, points) { return RefusedLocally; }
      ghost var plan, start := Plan(documentId, points), store;
      if points == [] {
        if fault != Some(0) { store := Apply(store, ClientCall.DeleteDocument(documentId)); }
        assert plan[..1] == plan && plan[..0] == [];
        return if fault.Some? then Interrupted else Written(0);
      }
      var structs, ids := Structs(documentId, points), Ids(documentId, points);
      assert plan == Batches(structs) + [DeleteStale(documentId, ids)];
      hide ApplyAll, Batches, Structs, Ids;
      var stopped := UpsertBatches(structs, fault);
      ghost var n := |Batches(structs)|;
      if stopped {
        assert plan[..fault.value] == Batches(structs)[..fault.value];
        return Interrupted;
      }
      assert plan[..n] == Batches(structs) && plan[..n + 1] == plan;
      ApplyLast(start, plan);
      store := Apply(store, DeleteStale(documentId, ids));
      return if fault.Some? then Interrupted else Written(|points|);
    }

    // Stops before the batch the fault names; otherwise writes every batch. A
    // fault right after the last batch also stops.
    method UpsertBatches(structs: seq<(string, Point)>, fault: Option<nat>) returns (stopped: bool)
      modifies this
      ensures var batches := Batches(structs);
        && (stopped <==> fault.Some? && fault.value <= |batches|)
        && store == ApplyAll(old(store), if stopped then batches[..fault.value] else batches)
    {
      hide Underway, Batches, ApplyAll, Apply;
      var rest, done := structs, 0;
      ghost var batches, start := Batches(structs), store;
      UnderwayAtStart(structs, store);
      while rest != []
        invariant Underway(start, store, batches, done, rest)
        invariant fault.Some? ==> done <= fault.value
      {
        UnderwayIs(start, store, batches, done, rest);
        if fault == Some(done) { return true; }
        var n := if |rest| <= UPSERT_BATCH_SIZE then |rest| else UPSERT_BATCH_SIZE;
        BatchStep(start, store, batches, done, rest, n);
        store := Apply(store, Upsert(rest[..n]));
        rest, done := rest[n..], done + 1;
      }
      UnderwayIs(start, store, batches, done, rest);
      assert batches[..done] == batches;
      stopped := fault == Some(done);
    }
  }

  // The first `done` batches are written, and the rest are those of `rest`.
  ghost predicate Underway(start: Store, store: Store, batches: seq<ClientCall>, done: nat, rest: seq<(string, Point)>) {
    done <= |batches| && batches == batches[..done] + Batches(rest) && store == ApplyAll(start, batches[..done])
  }

  lemma UnderwayAtStart(structs: seq<(string, Point)>, start: Store)
    ensures Underway(start, start, Batches(structs), 0, structs)
  {
    var batches := Batches(structs);
    assert batches[..0] == [] && batches == batches[..0] + batches;
  }

  lemma UnderwayIs(start: Store, store: Store, batches: seq<ClientCall>, done: nat, rest: seq<(string, Point)>)
    requires Underway(start, store, batches, done, rest)
    ensures done <= |batches| && store == ApplyAll(start, batches[..done])
    ensures rest == [] <==> done == |batches|
  {
    hide ApplyAll;
    assert (Batches(rest) == []) == (rest == []);
  }

  lemma ApplyLast(store: Store, calls: seq<ClientCall>)
    requires calls != []
    ensures ApplyAll(store, calls) == Apply(ApplyAll(store, calls[..|calls| - 1]), calls[|calls| - 1])
  {
  }

  // Writing the next batch moves one call forward in the plan.
  lemma BatchStep(start: Store, store: Store, batches: seq<ClientCall>, done: nat, rest: seq<(string, Point)>, n: nat)
    requires rest != [] && n == if |rest| <= UPSERT_BATCH_SIZE then |rest| else UPSERT_BATCH_SIZE
    requires Underway(start, store, batches, done, rest)
    ensures Underway(start, Apply(store, Upsert(rest[..n])), batches, done + 1, rest[n..])
  {
    assert rest[..|rest|] == rest;
    assert Batches(rest) == [Upsert(rest[..n])] + Batches(rest[n..]);
    var next := batches[..done] + [Upsert(rest[..n])];
    assert batches == next + Batches(rest[n..]);
    hide Batches, Apply;
    assert batches[..done + 1] == next && next[..done] == batches[..done];
    ApplyLast(start, next);
  }
}
