// The document indexer: one run keeps the collection in step with a directory
// of chunk-set files, whatever interrupted the runs before it.
module Indexer {
  import opened Texts
  import opened ChunkSets
  import opened PointStore
  import opened DocumentPoints

  const ORPHAN_GUARD_MIN := 5

  datatype Outcome = Indexed | Unchanged | NoConsent | Empty | Removed | Failed

  // Why a run stops: the embedding key was refused, or Qdrant (or the process)
  // went away.
  datatype Halt = KeyRefused | Stopped

  datatype Embedding = Vectors(vectors: seq<Vector>) | EmbeddingFailed | EmbeddingKeyRefused

  // A fault strikes after some of a file's client calls took effect. Qdrant
  // may refuse one request, which fails the file, or stop answering.
  datatype Fault = Fault(after: nat, fatal: bool)

  datatype File = File(documentId: string, content: Result<ChunkSet, ChunkSetError>, embedding: Embedding)

  ghost predicate ValidFile(f: File) {
    f.content.Ok? ==>
      && WellFormed(f.content.value) && f.content.value.documentId == f.documentId
      && (f.embedding.Vectors? ==> |f.embedding.vectors| == |f.content.value.chunks|)
  }

  datatype RunReport = RunReport(counts: multiset<Outcome>, orphanCheckSkipped: bool)

  function IsUnchanged(stored: Option<StoredDocument>, cs: ChunkSet, model: string, digest: Digest): bool {
    && stored.Some? && stored.value.Complete()
    && cs.sha256.Some? && stored.value.sha256 == cs.sha256
    && stored.value.consentOnFile == cs.consentOnFile
    && stored.value.embeddingModel == model
    && stored.value.indexDigest == digest
  }

  // The chunks a set is entitled to have stored.
  function Wanted(cs: ChunkSet): seq<Chunk> {
    if cs.MayBeIndexed() then cs.chunks else []
  }

  ghost predicate UpToDate(store: Store, cs: ChunkSet, model: string) {
    cs.sha256.Some? && cs.chunks != [] && Exactly(store, cs.documentId, cs.chunks, model)
  }

  // The skip decision, taken from one arbitrary point and two counts, is
  // exactly "the collection already holds this set, and it has a hash".
  lemma SkipIffUpToDate(store: Store, pick: string, cs: ChunkSet, model: string)
    requires Sound(store) && WellFormed(cs) && pick in PointsOf(store, cs.documentId)
    ensures IsUnchanged(Some(StoredAt(store, pick)), cs, model, Digest(model, cs.chunks)) <==> UpToDate(store, cs, model)
  {
    assert PointOk(pick, store[pick]);
    CompleteMeansExact(store, pick);
    if Exactly(store, cs.documentId, cs.chunks, model) && cs.chunks != [] {
      ExactMeansComplete(store, cs.documentId, cs.chunks, model, pick);
      var i :| 0 <= i < |cs.chunks| && Shows(store[pick], cs.chunks[i], Digest(model, cs.chunks));
      assert cs.chunks[i].payload.sha256 == cs.sha256;
    }
  }

  // What a session without faults answers.
  ghost function Expected(store: Store, cs: ChunkSet, model: string, embedding: Embedding): Result<Outcome, Halt> {
    if !cs.MayBeIndexed() then Ok(NoConsent)
    else if UpToDate(store, cs, model) then Ok(Unchanged)
    else if cs.chunks == [] then Ok(Empty)
    else match embedding
      case EmbeddingKeyRefused => Err(KeyRefused)
      case EmbeddingFailed => Ok(Failed)
      case Vectors(vs) => Ok(if RightSize(vs) then Indexed else Failed)
  }

  // Each outcome by its own condition: a tax return without consent, nothing
  // to do, nothing to store, a refused key, vectors of the right size or not.
  lemma OutcomeMeans(store: Store, cs: ChunkSet, model: string, embedding: Embedding)
    ensures var r, allowed := Expected(store, cs, model, embedding), cs.consentOnFile || !cs.isTaxReturn;
      var wanted := allowed && !UpToDate(store, cs, model) && cs.chunks != [];
      var sized := embedding.Vectors? && forall i :: 0 <= i < |embedding.vectors| ==> |embedding.vectors[i]| == 1024;
      && (r == Ok(NoConsent) <==> !allowed) && (r == Ok(Unchanged) <==> allowed && UpToDate(store, cs, model))
      && (r == Ok(Empty) <==> allowed && cs.chunks == []) && (r == Err(KeyRefused) <==> wanted && embedding.EmbeddingKeyRefused?)
      && (r == Ok(Indexed) <==> wanted && sized) && (r == Ok(Failed) <==> wanted && !sized && !embedding.EmbeddingKeyRefused?)
  {
    hide Exactly;
  }

  // A readable file whose chunks were embedded to the right size.
  predicate Healthy(f: File) {
    f.content.Ok? && f.embedding.Vectors? && RightSize(f.embedding.vectors)
  }

  predicate Undisturbed(files: seq<File>, faults: seq<Option<Fault>>)
    requires |faults| == |files|
  {
    forall n :: 0 <= n < |files| ==> faults[n].None? && Healthy(files[n])
  }

  lemma HealthySucceeds(store: Store, f: File, model: string)
    ensures Healthy(f) ==> f.content.Ok? && Succeeded(Expected(store, f.content.value, model, f.embedding))
  {
    hide UpToDate;
  }

  predicate RightSize(vectors: seq<Vector>) {
    forall i :: 0 <= i < |vectors| ==> |vectors[i]| == EMBEDDING_DIMENSIONS
  }

  ghost predicate Succeeded(r: Result<Outcome, Halt>) {
    r.Ok? && r.value != Failed
  }

  // What handling one chunk set may do to the collection, faults included.
  ghost predicate SetHandled(before: Store, after: Store, cs: ChunkSet, model: string, r: Result<Outcome, Halt>) {
    && Kept(before, after, cs.documentId, true)
    && (Succeeded(r) ==> Exactly(after, cs.documentId, Wanted(cs), model))
    && (Wanted(cs) != [] && PointsOf(before, cs.documentId) != {} ==> PointsOf(after, cs.documentId) != {})
  }

  // Whatever the texts' vectors are: if every point so far carries its own
  // text's, and the vectors given do, every point afterwards does.
  ghost predicate StaysTold(before: Store, after: Store, f: File) {
    forall vectorOf: string -> Vector :: Told(before, vectorOf) && FileTells(f, vectorOf) ==> Told(after, vectorOf)
  }

  ghost predicate FileTells(f: File, vectorOf: string -> Vector) {
    f.content.Ok? && f.embedding.Vectors? ==> Tells(f.content.value, f.embedding.vectors, vectorOf)
  }

  ghost predicate AllTell(files: seq<File>, vectorOf: string -> Vector) {
    forall i :: 0 <= i < |files| ==> FileTells(files[i], vectorOf)
  }

  class DocumentIndexer {
    const writer: FamilyDocsWriter
    const model: string

    constructor (writer: FamilyDocsWriter, model: string)
      ensures this.writer == writer && this.model == model
    {
      this.writer, this.model := writer, model;
    }

    // Consent, unchanged, empty and replace rules, with a fault after any call.
    method IndexChunkSet(cs: ChunkSet, embedding: Embedding, at: string, fault: Option<nat>) returns (r: Result<Outcome, Halt>)
      requires Sound(writer.store) && WellFormed(cs)
      requires embedding.Vectors? ==> |embedding.vectors| == |cs.chunks|
      modifies writer
      ensures SetHandled(old(writer.store), writer.store, cs, model, r)
      ensures r == Ok(Indexed) ==> embedding.Vectors? && Carries(writer.store, cs, embedding.vectors, at)
      ensures StaysTold(old(writer.store), writer.store, File(cs.documentId, Ok(cs), embedding))
      ensures fault.None? ==> r == Expected(old(writer.store), cs, model, embedding)
      ensures fault.Some? ==> r == Err(Stopped) || r == Err(KeyRefused) || r == Ok(Failed)
      ensures r == Ok(Unchanged) || r == Ok(Failed) || r == Err(KeyRefused) ==> writer.store == old(writer.store)
    {
      NothingHandled(writer.store, cs, model);
      SameTold(writer.store, File(cs.documentId, Ok(cs), embedding));
      hide Sound, Permitted, WellFormed, SetHandled, UpToDate, Exactly, Kept, RightSize, StaysTold, Carries;
      if !cs.MayBeIndexed() {
        r := Delete(cs, embedding, fault, NoConsent);
        return;
      }
      var same := CheckUnchanged(cs);
      if same {
        return if fault.Some? then Err(Stopped) else Ok(Unchanged);
      }
      if cs.chunks == [] {
        r := Delete(cs, embedding, fault, Empty);
        return;
      }
      match embedding {
        case EmbeddingKeyRefused => return Err(KeyRefused);
        case EmbeddingFailed => return Ok(Failed);
        case Vectors(vectors) => r := Write(cs, vectors, at, fault);
      }
    }

    method CheckUnchanged(cs: ChunkSet) returns (same: bool)
      requires Sound(writer.store) && WellFormed(cs)
      ensures same <==> UpToDate(writer.store, cs, model)
    {
      var digest := Digest(model, cs.chunks);
      var stored := writer.ReadStored(cs.documentId);
      if stored.Some? {
        ghost var pick :| pick in PointsOf(writer.store, cs.documentId) && stored.value == StoredAt(writer.store, pick);
        SkipIffUpToDate(writer.store, pick, cs, model);
      } else if cs.chunks != [] {
        assert PointName(cs.documentId, cs.chunks[0].index) in Names(cs.documentId, cs.chunks);
      }
      same := IsUnchanged(stored, cs, model, digest);
    }

    // Removes every point of a document that may not, or need not, have any.
    method Delete(cs: ChunkSet, ghost embedding: Embedding, fault: Option<nat>, done: Outcome) returns (r: Result<Outcome, Halt>)
      requires Sound(writer.store) && Wanted(cs) == []
      modifies writer
      ensures SetHandled(old(writer.store), writer.store, cs, model, r)
      ensures StaysTold(old(writer.store), writer.store, File(cs.documentId, Ok(cs), embedding))
      ensures r == if fault.Some? then Err(Stopped) else Ok(done)
    {
      SameTold(writer.store, File(cs.documentId, Ok(cs), embedding));
      FewerTold(writer.store, cs.documentId, File(cs.documentId, Ok(cs), embedding));
      DeleteKeeps(writer.store, cs.documentId, {}, true);
      KeptRefl(writer.store, cs.documentId);
      hide Sound, Permitted, SameElsewhere, Kept, StaysTold;
      if fault != Some(0) { writer.DeleteDocument(cs.documentId); }
      r := if fault.Some? then Err(Stopped) else Ok(done);
    }

    method Write(cs: ChunkSet, vectors: seq<Vector>, at: string, fault: Option<nat>) returns (r: Result<Outcome, Halt>)
      requires Sound(writer.store) && WellFormed(cs) && |vectors| == |cs.chunks|
      requires cs.MayBeIndexed() && cs.chunks != []
      modifies writer
      ensures SetHandled(old(writer.store), writer.store, cs, model, r)
      ensures r == if !RightSize(vectors) then Ok(Failed) else if fault.Some? then Err(Stopped) else Ok(Indexed)
      ensures r == Ok(Failed) ==> writer.store == old(writer.store)
      ensures r == Ok(Indexed) ==> Carries(writer.store, cs, vectors, at)
      ensures StaysTold(old(writer.store), writer.store, File(cs.documentId, Ok(cs), Vectors(vectors)))
    {
      var points := PointsFor(cs, model, vectors, at);
      ghost var plan := Plan(cs.documentId, points);
      StructsAreBatch(cs, model, vectors, at);
      NothingHandled(writer.store, cs, model);
      SessionHandled(writer.store, cs, model, vectors, at, if fault.Some? then Min(fault.value, |plan|) else |plan|);
      assert plan[..|plan|] == plan;
      SessionCarries(writer.store, cs, model, vectors, at);
      WriteTold(writer.store, cs, model, vectors, at, if fault.Some? then Min(fault.value, |plan|) else |plan|);
      SameTold(writer.store, File(cs.documentId, Ok(cs), Vectors(vectors)));
      hide Sound, Permitted, WellFormed, SetHandled, Writable, Plan, PointsFor, ApplyAll, RightSize, StaysTold, Carries;
      var written := writer.ReplaceDocument(cs.documentId, points, fault);
      match written {
        case Written(_) => r := Ok(Indexed);
        case RefusedLocally => r := Ok(Failed);
        case Interrupted => r := Err(Stopped);
      }
    }

    // One file of the directory. A refusal by Qdrant fails this file only.
    method IndexFile(file: File, at: string, fault: Option<Fault>) returns (r: Result<Outcome, Halt>)
      requires Sound(writer.store) && ValidFile(file)
      modifies writer
      ensures Kept(old(writer.store), writer.store, file.documentId, true)
      ensures StaysTold(old(writer.store), writer.store, file)
      ensures r == Ok(Indexed) ==>
        file.content.Ok? && file.embedding.Vectors? && Carries(writer.store, file.content.value, file.embedding.vectors, at)
      ensures Succeeded(r) ==>
        file.content.Ok? && Exactly(writer.store, file.documentId, Wanted(file.content.value), model)
      ensures fault.None? && file.content.Ok? ==>
        r == Expected(old(writer.store), file.content.value, model, file.embedding)
      ensures fault.None? && file.content.Err? ==> r == Ok(Failed) && UnreadableHandled(old(writer.store), writer.store, file.documentId)
    {
      assert file.content.Ok? ==> file == File(file.content.value.documentId, Ok(file.content.value), file.embedding);
      hide Sound, Permitted, WellFormed, SameElsewhere, UpToDate, Exactly, Expected, Kept, StaysTold, Carries;
      var calls := if fault.Some? then Some(fault.value.after) else None;
      match file.content {
        case Ok(cs) => r := IndexChunkSet(cs, file.embedding, at, calls);
        case Err(_) => r := DropUnreadable(file, calls);
      }
      if fault.Some? && !fault.value.fatal && r == Err(Stopped) { r := Ok(Failed); }
    }

    // A file that cannot be read loses its points only if they are a tax return's.
    method DropUnreadable(file: File, fault: Option<nat>) returns (r: Result<Outcome, Halt>)
      requires Sound(writer.store)
      modifies writer
      ensures Kept(old(writer.store), writer.store, file.documentId, true)
      ensures StaysTold(old(writer.store), writer.store, file)
      ensures r == if fault.Some? then Err(Stopped) else Ok(Failed)
      ensures fault.None? ==> UnreadableHandled(old(writer.store), writer.store, file.documentId)
    {
      var documentId := file.documentId;
      SameTold(writer.store, file);
      FewerTold(writer.store, documentId, file);
      KeptRefl(writer.store, documentId);
      DeleteKeeps(writer.store, documentId, {}, true);
      hide Sound, Permitted, SameElsewhere, Kept, StaysTold;
      var stored := writer.ReadStored(documentId);
      if stored.Some? && stored.value.isTaxReturn && fault != Some(0) {
        writer.DeleteDocument(documentId);
      }
      r := if fault.Some? then Err(Stopped) else Ok(Failed);
    }

    // Deletes documents that have no file, unless that looks like a mount that
    // is not ready. With a fault, that many deletes happen before the run dies.
    method SweepOrphans(onDisk: set<string>, fault: Option<nat>) returns (skipped: bool, removed: nat, stopped: bool)
      requires Sound(writer.store)
      modifies writer
      ensures Swept(old(writer.store), writer.store, onDisk)
      ensures skipped <==> SweepRefused(old(writer.store), onDisk)
      ensures skipped ==> writer.store == old(writer.store) && removed == 0 && !stopped
      ensures stopped ==> fault.Some?
      ensures !skipped && !stopped ==>
        DocumentIds(writer.store) <= onDisk && removed == |DocumentIds(old(writer.store)) - onDisk|
    {
      SweptRefl(writer.store, onDisk);
      hide Sound, Permitted, Swept;
      removed, skipped, stopped := 0, false, false;
      if onDisk == {} { skipped := true; return; }
      var stored := writer.ReadDocumentIds();
      var orphans := stored - onDisk;
      if |orphans| >= ORPHAN_GUARD_MIN && |orphans| * 2 > |stored| { skipped := true; return; }
      removed, stopped := RemoveOrphans(onDisk, orphans, fault);
    }

    method RemoveOrphans(onDisk: set<string>, orphans: set<string>, fault: Option<nat>) returns (removed: nat, stopped: bool)
      requires Sound(writer.store) && orphans == DocumentIds(writer.store) - onDisk
      modifies writer
      ensures Swept(old(writer.store), writer.store, onDisk)
      ensures stopped ==> fault.Some?
      ensures !stopped ==> DocumentIds(writer.store) <= onDisk && removed == |orphans|
    {
      SweptRefl(writer.store, onDisk);
      hide Sound, Permitted, Swept;
      removed, stopped := 0, false;
      ghost var start := writer.store;
      var rest := orphans;
      while rest != {}
        invariant rest <= orphans && removed + |rest| == |orphans|
        invariant Swept(start, writer.store, onDisk)
        invariant DocumentIds(writer.store) <= onDisk + rest
      {
        if fault.Some? && fault.value <= removed { stopped := true; return; }
        var d :| d in rest;
        SweptStep(start, writer.store, onDisk, d);
        writer.DeleteDocument(d);
        rest, removed := rest - {d}, removed + 1;
      }
      stopped := fault.Some?;
    }

    // A whole run over a directory listing, with any refusals, and a stop at
    // any point.
    method Run(files: seq<File>, at: string, faults: seq<Option<Fault>>, sweepFault: Option<nat>)
      returns (report: Result<RunReport, Halt>)
      requires Sound(writer.store) && Directory(files) && |faults| == |files|
      modifies writer
      ensures Sound(writer.store)
      ensures Permitted(old(writer.store)) ==> Permitted(writer.store)
      ensures report.Ok? ==>
        && |report.value.counts| >= |files|
        && (report.value.counts[Failed] == 0 && !report.value.orphanCheckSkipped ==> Matches(writer.store, files, model))
      ensures files == [] ==> writer.store == old(writer.store)
      ensures Undisturbed(files, faults) && sweepFault.None? ==> report.Ok? && report.value.counts[Failed] == 0
      ensures forall vectorOf: string -> Vector ::
        Told(old(writer.store), vectorOf) && AllTell(files, vectorOf) ==> Told(writer.store, vectorOf)
    {
      hide Sound, Permitted, SameElsewhere, Exactly, Kept, Expected, AllExact, Swept, Undisturbed, Told, AllTell;
      var indexed := IndexFiles(files, at, faults);
      if indexed.Err? { return Err(indexed.error); }
      var onDisk := set f | f in files :: f.documentId;
      ghost var before := writer.store;
      var skipped, removed, stopped := SweepOrphans(onDisk, sweepFault);
      SweptKeeps(before, writer.store, files, model);
      SweptTold(before, writer.store, onDisk);
      if stopped { return Err(Stopped); }
      return Ok(RunReport(indexed.value + multiset(seq(removed, i => Removed)), skipped));
    }

    // The loop of a run: every file in turn, until one stops it.
    method IndexFiles(files: seq<File>, at: string, faults: seq<Option<Fault>>) returns (r: Result<multiset<Outcome>, Halt>)
      requires Sound(writer.store) && Directory(files) && |faults| == |files|
      modifies writer
      ensures Sound(writer.store)
      ensures Permitted(old(writer.store)) ==> Permitted(writer.store)
      ensures r.Ok? ==> |r.value| == |files|
      ensures r.Ok? && r.value[Failed] == 0 ==> AllExact(writer.store, files, model)
      ensures files == [] ==> writer.store == old(writer.store)
      ensures Undisturbed(files, faults) ==> r.Ok? && r.value[Failed] == 0
      ensures forall vectorOf: string -> Vector ::
        Told(old(writer.store), vectorOf) && AllTell(files, vectorOf) ==> Told(writer.store, vectorOf)
    {
      var counts: multiset<Outcome> := multiset{};
      ghost var start := writer.store;
      for n := 0 to |files|
        invariant Sound(writer.store) && (Permitted(start) ==> Permitted(writer.store))
        invariant n == 0 ==> writer.store == start
        invariant |counts| == n
        invariant Undisturbed(files, faults) ==> counts[Failed] == 0
        invariant counts[Failed] == 0 ==> AllExact(writer.store, files[..n], model)
        invariant forall vectorOf: string -> Vector ::
          Told(start, vectorOf) && AllTell(files, vectorOf) ==> Told(writer.store, vectorOf)
      {
        hide Sound, Permitted, SameElsewhere, Exactly, Kept, Expected, AllExact, Healthy, Told, FileTells, Carries;
        ghost var before := writer.store;
        assert ValidFile(files[n]);
        var outcome := IndexFile(files[n], at, faults[n]);
        HealthySucceeds(before, files[n], model);
        KeptIsSound(before, writer.store, files[n].documentId, true);
        NextTold(start, before, writer.store, files, n);
        if outcome.Err? { return Err(outcome.error); }
        AllExactNext(before, writer.store, files, n, model);
        counts := counts + multiset{outcome.value};
      }
      assert files[..|files|] == files;
      return Ok(counts);
    }
  }

  lemma SameTold(store: Store, f: File)
    ensures StaysTold(store, store, f)
  {
  }

  lemma FewerTold(store: Store, documentId: string, f: File)
    ensures StaysTold(store, PointStore.Without(store, documentId, {}), f)
  {
    hide Told;
    forall vectorOf: string -> Vector | Told(store, vectorOf)
      ensures Told(PointStore.Without(store, documentId, {}), vectorOf)
    {
      WithoutTold(store, documentId, {}, vectorOf);
    }
  }

  lemma WriteTold(store: Store, cs: ChunkSet, model: string, vectors: seq<Vector>, at: string, k: nat)
    requires WellFormed(cs) && cs.chunks != [] && |vectors| == |cs.chunks|
    requires k <= |Plan(cs.documentId, PointsFor(cs, model, vectors, at))|
    ensures StaysTold(store, ApplyAll(store, Plan(cs.documentId, PointsFor(cs, model, vectors, at))[..k]),
                      File(cs.documentId, Ok(cs), Vectors(vectors)))
  {
    hide Told, Tells, Plan, PointsFor, ApplyAll;
    forall vectorOf: string -> Vector | Told(store, vectorOf) && Tells(cs, vectors, vectorOf)
      ensures Told(ApplyAll(store, Plan(cs.documentId, PointsFor(cs, model, vectors, at))[..k]), vectorOf)
    {
      SessionTold(store, cs, model, vectors, at, k, vectorOf);
    }
  }

  lemma NextTold(start: Store, before: Store, after: Store, files: seq<File>, n: nat)
    requires n < |files| && StaysTold(before, after, files[n])
    ensures (forall vectorOf: string -> Vector :: Told(start, vectorOf) && AllTell(files, vectorOf) ==> Told(before, vectorOf))
      ==> forall vectorOf: string -> Vector :: Told(start, vectorOf) && AllTell(files, vectorOf) ==> Told(after, vectorOf)
  {
    hide Told, FileTells;
  }

  lemma SweptTold(before: Store, after: Store, onDisk: set<string>)
    requires Swept(before, after, onDisk)
    ensures forall vectorOf: string -> Vector :: Told(before, vectorOf) ==> Told(after, vectorOf)
  {
  }

  lemma KeptRefl(store: Store, documentId: string)
    requires Sound(store)
    ensures Kept(store, store, documentId, true)
  {
  }

  lemma NothingHandled(store: Store, cs: ChunkSet, model: string)
    requires Sound(store)
    ensures SetHandled(store, store, cs, model, Err(Stopped)) && SetHandled(store, store, cs, model, Err(KeyRefused))
    ensures SetHandled(store, store, cs, model, Ok(Failed))
    ensures cs.MayBeIndexed() && UpToDate(store, cs, model) ==> SetHandled(store, store, cs, model, Ok(Unchanged))
  {
  }

  lemma SessionHandled(store: Store, cs: ChunkSet, model: string, vectors: seq<Vector>, at: string, k: nat)
    requires Sound(store) && WellFormed(cs) && |vectors| == |cs.chunks| && cs.MayBeIndexed() && cs.chunks != []
    requires k <= |Plan(cs.documentId, PointsFor(cs, model, vectors, at))|
    ensures var plan := Plan(cs.documentId, PointsFor(cs, model, vectors, at));
      && SetHandled(store, ApplyAll(store, plan[..k]), cs, model, Err(Stopped))
      && (k == |plan| ==> SetHandled(store, ApplyAll(store, plan[..k]), cs, model, Ok(Indexed)))
  {
    SessionKeeps(store, cs, model, vectors, at, k);
  }

  // The one point the server returns decides: a tax return's document goes
  // whole, any other stays.
  ghost predicate UnreadableHandled(before: Store, after: Store, documentId: string) {
    var points := PointsOf(before, documentId);
    if points == {} then after == before
    else exists pick :: pick in points && after == AfterUnreadable(before, pick)
  }

  function AfterUnreadable(before: Store, pick: string): Store
    requires pick in before
  {
    if before[pick].body.payload.isTaxReturn then PointStore.Without(before, before[pick].documentId, {}) else before
  }

  // When the points agree, which one is returned makes no difference.
  lemma UniformUnreadable(before: Store, after: Store, documentId: string)
    requires UnreadableHandled(before, after, documentId)
    ensures (forall id :: id in PointsOf(before, documentId) ==> before[id].body.payload.isTaxReturn) ==>
      PointsOf(after, documentId) == {}
    ensures (forall id :: id in PointsOf(before, documentId) ==> !before[id].body.payload.isTaxReturn) ==> after == before
  {
  }

  // ------------------------------------------------------------------
  // The sweep
  // ------------------------------------------------------------------

  // Nothing on disk, or five or more and over half of the documents missing.
  predicate SweepRefused(store: Store, onDisk: set<string>) {
    var orphans := DocumentIds(store) - onDisk;
    onDisk == {} || (|orphans| >= ORPHAN_GUARD_MIN && |orphans| * 2 > |DocumentIds(store)|)
  }

  // Only points of documents that are not on disk may go.
  ghost predicate Swept(before: Store, after: Store, onDisk: set<string>) {
    && Sound(after) && (Permitted(before) ==> Permitted(after))
    && (forall id :: id in after ==> id in before && after[id] == before[id])
    && (forall id :: id in before && before[id].documentId in onDisk ==> id in after)
  }

  lemma SweptRefl(store: Store, onDisk: set<string>)
    requires Sound(store)
    ensures Swept(store, store, onDisk)
  {
  }

  lemma SweptStep(start: Store, store: Store, onDisk: set<string>, d: string)
    requires Swept(start, store, onDisk) && d !in onDisk
    ensures Swept(start, PointStore.Without(store, d, {}), onDisk)
    ensures DocumentIds(PointStore.Without(store, d, {})) == DocumentIds(store) - {d}
  {
    var after := PointStore.Without(store, d, {});
    forall e | e in DocumentIds(store) && e != d ensures e in DocumentIds(after) {
      var id :| id in store && store[id].documentId == e;
      assert id in after;
    }
  }

  // ------------------------------------------------------------------
  // The directory
  // ------------------------------------------------------------------

  ghost predicate Directory(files: seq<File>) {
    && (forall i :: 0 <= i < |files| ==> ValidFile(files[i]))
    && (forall i, j :: 0 <= i < j < |files| ==> files[i].documentId != files[j].documentId)
  }

  ghost predicate AllExact(store: Store, files: seq<File>, model: string) {
    forall i :: 0 <= i < |files| ==>
      files[i].content.Ok? && Exactly(store, files[i].documentId, Wanted(files[i].content.value), model)
  }

  // The collection holds, for every file, exactly the points its set is
  // entitled to, and nothing else.
  ghost predicate Matches(store: Store, files: seq<File>, model: string) {
    && AllExact(store, files, model)
    && forall id :: id in store ==> exists i :: 0 <= i < |files| && files[i].documentId == store[id].documentId
  }

  lemma ExactlyFrame(a: Store, b: Store, d: string, other: string, chunks: seq<Chunk>, model: string)
    requires SameElsewhere(a, b, other) && d != other && Exactly(a, d, chunks, model)
    ensures Exactly(b, d, chunks, model)
  {
    assert PointsOf(b, d) == PointsOf(a, d);
    forall i | 0 <= i < |chunks|
      ensures PointName(d, chunks[i].index) in b && b[PointName(d, chunks[i].index)] == a[PointName(d, chunks[i].index)]
    {
      assert PointName(d, chunks[i].index) in Names(d, chunks);
    }
  }

  lemma AllExactNext(before: Store, after: Store, files: seq<File>, n: nat, model: string)
    requires Directory(files) && n < |files| && Kept(before, after, files[n].documentId, true)
    ensures AllExact(before, files[..n], model) && files[n].content.Ok?
            && Exactly(after, files[n].documentId, Wanted(files[n].content.value), model)
            ==> AllExact(after, files[..n + 1], model)
  {
    if AllExact(before, files[..n], model) && files[n].content.Ok?
       && Exactly(after, files[n].documentId, Wanted(files[n].content.value), model)
    {
      forall i | 0 <= i < n
        ensures files[i].content.Ok? && Exactly(after, files[i].documentId, Wanted(files[i].content.value), model)
      {
        assert files[..n][i] == files[i];
        ExactlyFrame(before, after, files[i].documentId, files[n].documentId, Wanted(files[i].content.value), model);
      }
    }
  }

  // A sweep leaves every document on disk as it was.
  lemma SweptKeeps(before: Store, after: Store, files: seq<File>, model: string)
    requires Swept(before, after, set f | f in files :: f.documentId)
    ensures Sound(after) && (Permitted(before) ==> Permitted(after))
    ensures AllExact(before, files, model) ==> AllExact(after, files, model)
    ensures DocumentIds(after) <= (set f | f in files :: f.documentId) && AllExact(after, files, model)
            ==> Matches(after, files, model)
  {
    var onDisk := set f | f in files :: f.documentId;
    if AllExact(before, files, model) {
      forall i | 0 <= i < |files|
        ensures files[i].content.Ok? && Exactly(after, files[i].documentId, Wanted(files[i].content.value), model)
      {
        var d, chunks := files[i].documentId, Wanted(files[i].content.value);
        assert d in onDisk;
        assert PointsOf(after, d) == PointsOf(before, d);
        forall k | 0 <= k < |chunks| ensures PointName(d, chunks[k].index) in after {
          assert PointName(d, chunks[k].index) in Names(d, chunks);
        }
      }
    }
    if DocumentIds(after) <= onDisk && AllExact(after, files, model) {
      forall id | id in after ensures exists i :: 0 <= i < |files| && files[i].documentId == after[id].documentId {
        assert after[id].documentId in onDisk;
      }
    }
  }

  // What a reader of the collection sees of a point: everything but the vector
  // and the time it was embedded.
  function View(p: Point): (string, Payload, string, Digest, nat) {
    (p.documentId, p.body.payload, p.body.text, p.body.indexDigest, p.chunkCount)
  }

  // The directory alone settles the collection: two collections that match it
  // have the same points, whatever histories led to them.
  lemma DirectoryDecides(a: Store, b: Store, files: seq<File>, model: string)
    requires Matches(a, files, model) && Matches(b, files, model)
    ensures a.Keys == b.Keys
    ensures forall id :: id in a ==> View(a[id]) == View(b[id])
  {
    forall id | id in a ensures id in b && View(a[id]) == View(b[id]) { SamePoint(a, b, files, model, id); }
    forall id | id in b ensures id in a { SamePoint(b, a, files, model, id); }
  }

  lemma SamePoint(a: Store, b: Store, files: seq<File>, model: string, id: string)
    requires Matches(a, files, model) && Matches(b, files, model) && id in a
    ensures id in b && View(a[id]) == View(b[id])
  {
    var i :| 0 <= i < |files| && files[i].documentId == a[id].documentId;
    var d, chunks := files[i].documentId, Wanted(files[i].content.value);
    assert Exactly(a, d, chunks, model) && Exactly(b, d, chunks, model);
    hide Exactly, AllExact, Wanted, Shows;
    var k := ExactPoint(a, d, chunks, model, id);
    ExactHolds(b, d, chunks, model, k);
    SameView(a[id], b[id], chunks[k], Digest(model, chunks));
  }

  lemma SameView(p: Point, q: Point, c: Chunk, digest: Digest)
    requires Shows(p, c, digest) && Shows(q, c, digest) && p.documentId == q.documentId
    ensures View(p) == View(q)
  {
  }

  lemma ExactPoint(store: Store, d: string, chunks: seq<Chunk>, model: string, id: string) returns (k: nat)
    requires Exactly(store, d, chunks, model) && id in PointsOf(store, d)
    ensures k < |chunks| && PointName(d, chunks[k].index) == id && Shows(store[id], chunks[k], Digest(model, chunks))
  {
    assert id in Names(d, chunks);
    k :| 0 <= k < |chunks| && PointName(d, chunks[k].index) == id;
  }

  lemma ExactHolds(store: Store, d: string, chunks: seq<Chunk>, model: string, k: nat)
    requires Exactly(store, d, chunks, model) && k < |chunks|
    ensures var id := PointName(d, chunks[k].index);
      id in store && store[id].documentId == d && Shows(store[id], chunks[k], Digest(model, chunks))
  {
    assert PointName(d, chunks[k].index) in Names(d, chunks);
  }
}
