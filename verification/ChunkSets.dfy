// Reading one chunk-set file: the document-level values the indexer decides on.
module ChunkSets {
  import opened Jsons
  import opened Sets
  import opened Texts

  const TAX_DOCUMENT_NAMES: set<string> := {"tax_return", "tax_returns", "tax_election", "tax_elections"}

  const CHUNK_CONTRACT_FIELDS: seq<string> := [
    "chunk_id", "trace_id", "trust_score", "ocr_engine_provenance", "page_range",
    "section_hierarchy", "hallucination_risk", "chunk_strategy", "token_count", "source_track"]

  const DOCUMENT_FIELDS: seq<string> := ["entity_id", "document_type", "category", "title", "document_date"]

  datatype Payload = Payload(
    documentId: string, chunkIndex: nat, fields: JsonObject,
    isConfidential: bool, isTaxReturn: bool, sha256: Option<string>, consentOnFile: bool)

  datatype Chunk = Chunk(index: nat, text: string, payload: Payload)

  datatype ChunkSet = ChunkSet(
    documentId: string, sha256: Option<string>, consentOnFile: bool,
    isTaxReturn: bool, isConfidential: bool, chunks: seq<Chunk>)
  {
    predicate MayBeIndexed() {
      consentOnFile || !isTaxReturn
    }
  }

  datatype ChunkSetError = NotAnObject | WrongDocument | ChunksNotAList | TextNotAString | BadSha256

  predicate Increasing(chunks: seq<Chunk>) {
    forall i, j :: 0 <= i < j < |chunks| ==> chunks[i].index < chunks[j].index
  }

  // What parsing promises the indexer: positions increase (gaps allowed), no
  // chunk is blank, and every payload carries the set's own values.
  predicate WellFormed(cs: ChunkSet) {
    && Increasing(cs.chunks)
    && forall i {:trigger cs.chunks[i]} :: 0 <= i < |cs.chunks| ==>
         var c := cs.chunks[i];
         && !Blank(c.text)
         && c.payload.documentId == cs.documentId
         && c.payload.chunkIndex == c.index
         && c.payload.sha256 == cs.sha256
         && c.payload.consentOnFile == cs.consentOnFile
         && c.payload.isTaxReturn == cs.isTaxReturn
         && c.payload.isConfidential == cs.isConfidential
  }

  // ------------------------------------------------------------------
  // Document-level rules, each stated over every value given anywhere
  // ------------------------------------------------------------------

  // Consent needs a true from every source asked, and at least one source.
  ghost predicate ConsentGiven(document: JsonObject, chunks: seq<JsonObject>) {
    && ("consent_on_file" in document || chunks != [])
    && ("consent_on_file" in document ==> document["consent_on_file"] == Bool(true))
    && (forall i :: 0 <= i < |chunks| ==> "consent_on_file" in chunks[i] && chunks[i]["consent_on_file"] == Bool(true))
  }

  // The document and then its chunks.
  function Sources(document: JsonObject, chunks: seq<JsonObject>): (sources: seq<JsonObject>)
    ensures |sources| == 1 + |chunks| && sources[0] == document
    ensures forall i :: 0 <= i < |chunks| ==> sources[1 + i] == chunks[i]
  {
    [document] + chunks
  }

  predicate Marks(value: Json, fold: string -> string) {
    match value
    case Null => false
    case Str(s) => Normalized(s, fold) in TAX_DOCUMENT_NAMES
    case _ => true
  }

  predicate Classifies(value: Json) {
    value.Str? && !Blank(value.text)
  }

  ghost predicate SomeName(sources: seq<JsonObject>, p: Json -> bool) {
    exists i :: 0 <= i < |sources| && (p(Get(sources[i], "category", Null)) || p(Get(sources[i], "document_type", Null)))
  }

  // A set needs consent when any name marks it, or when nothing classifies it.
  ghost predicate CountsAsTaxReturn(document: JsonObject, chunks: seq<JsonObject>, fold: string -> string) {
    || SomeName(Sources(document, chunks), v => Marks(v, fold))
    || !SomeName(Sources(document, chunks), Classifies)
  }

  // Public only when every chunk has a value, its own or the set's, and every
  // value given is false.
  ghost predicate PlainlyPublic(document: JsonObject, chunks: seq<JsonObject>) {
    && ("is_confidential" in document || chunks != [])
    && ("is_confidential" in document ==> document["is_confidential"] == Bool(false))
    && forall i :: 0 <= i < |chunks| ==>
         && ("is_confidential" in chunks[i] || "is_confidential" in document)
         && ("is_confidential" in chunks[i] ==> chunks[i]["is_confidential"] == Bool(false))
  }

  function OwnValues(chunks: seq<JsonObject>, key: string, default: Json): (own: seq<Json>)
    ensures |own| == |chunks|
    ensures forall i :: 0 <= i < |chunks| ==> own[i] == Get(chunks[i], key, default)
  {
    seq(|chunks|, i requires 0 <= i < |chunks| => Get(chunks[i], key, default))
  }

  predicate AllAre(values: seq<Json>, v: Json) {
    forall i :: 0 <= i < |values| ==> values[i] == v
  }

  lemma AllEqual(fromSet: seq<Json>, chunks: seq<JsonObject>, key: string, default: Json, v: Json)
    requires |fromSet| <= 1
    ensures AllAre(fromSet + OwnValues(chunks, key, default), v)
       <==> (fromSet != [] ==> fromSet[0] == v) && (forall i :: 0 <= i < |chunks| ==> Get(chunks[i], key, default) == v)
  {
    var own := OwnValues(chunks, key, default);
    var all := fromSet + own;
    assert forall i :: 0 <= i < |own| ==> all[|fromSet| + i] == own[i];
    if fromSet != [] { assert all[0] == fromSet[0]; }
    if AllAre(all, v) {
      forall i | 0 <= i < |chunks| ensures Get(chunks[i], key, default) == v {
        assert all[|fromSet| + i] == v;
      }
    }
  }

  method ResolveConsent(document: JsonObject, chunks: seq<JsonObject>) returns (granted: bool)
    ensures granted <==> ConsentGiven(document, chunks)
  {
    var seen: seq<Json> := [];
    if "consent_on_file" in document { seen := [document["consent_on_file"]]; }
    AllEqual(seen, chunks, "consent_on_file", Bool(false), Bool(true));
    seen := seen + OwnValues(chunks, "consent_on_file", Bool(false));
    granted := seen != [] && AllAre(seen, Bool(true));
  }

  function Replace(s: string, from: char, to: char): string {
    seq(|s|, i requires 0 <= i < |s| => if s[i] == from then to else s[i])
  }

  function Normalized(value: string, fold: string -> string): string {
    Replace(Replace(fold(Strip(value)), '-', '_'), ' ', '_')
  }

  // A text marks a tax document when, stripped and case-folded, it is one of
  // the names up to hyphens and spaces in place of underscores.
  ghost predicate SameUpToSeparators(given: string, name: string) {
    |given| == |name| && forall i :: 0 <= i < |given| ==>
      name[i] == if given[i] == '-' || given[i] == ' ' then '_' else given[i]
  }

  lemma MarksIff(value: Json, fold: string -> string)
    ensures value.Str? ==> (Marks(value, fold) <==>
      exists name :: name in TAX_DOCUMENT_NAMES && SameUpToSeparators(fold(Strip(value.text)), name))
    ensures value.Null? ==> !Marks(value, fold)
    ensures !value.Str? && !value.Null? ==> Marks(value, fold)
    ensures Classifies(value) <==> HasWords(value)
  {
    if value.Str? {
      var given := fold(Strip(value.text));
      NormalizedIs(value.text, fold);
      forall name | SameUpToSeparators(given, name) ensures name == Normalized(value.text, fold) {
        assert SameUpToSeparators(given, Normalized(value.text, fold));
      }
    }
  }

  lemma NormalizedIs(text: string, fold: string -> string)
    ensures SameUpToSeparators(fold(Strip(text)), Normalized(text, fold))
  {
    hide Strip;
  }

  method IsTaxReturn(document: JsonObject, chunks: seq<JsonObject>, fold: string -> string) returns (answer: bool)
    ensures answer <==> CountsAsTaxReturn(document, chunks, fold)
  {
    var sources, classified := Sources(document, chunks), false;
    var marks := v => Marks(v, fold);
    hide SomeName, Marks, Classifies;
    NoName(marks);
    NoName(Classifies);
    for n := 0 to |sources|
      invariant !SomeName(sources[..n], marks)
      invariant classified <==> SomeName(sources[..n], Classifies)
    {
      SomeNameStep(sources, n, marks);
      SomeNameStep(sources, n, Classifies);
      var a, b := Get(sources[n], "category", Null), Get(sources[n], "document_type", Null);
      if marks(a) || marks(b) {
        assert SomeName(sources, marks) by { SomeNameMore(sources, n + 1, marks); }
        return true;
      }
      if Classifies(a) || Classifies(b) {
        classified := true;
      }
    }
    assert sources[..|sources|] == sources;
    answer := !classified;
  }

  lemma NoName(p: Json -> bool)
    ensures !SomeName([], p)
  {
  }

  lemma SomeNameStep(sources: seq<JsonObject>, n: nat, p: Json -> bool)
    requires n < |sources|
    ensures SomeName(sources[..n + 1], p) <==>
      SomeName(sources[..n], p) || p(Get(sources[n], "category", Null)) || p(Get(sources[n], "document_type", Null))
  {
    var front, more := sources[..n], sources[..n + 1];
    assert more[n] == sources[n] && forall i :: 0 <= i < n ==> more[i] == front[i];
  }

  lemma SomeNameMore(sources: seq<JsonObject>, n: nat, p: Json -> bool)
    requires n <= |sources| && SomeName(sources[..n], p)
    ensures SomeName(sources, p)
  {
    assert forall i :: 0 <= i < n ==> sources[..n][i] == sources[i];
  }

  method ResolveConfidential(document: JsonObject, chunks: seq<JsonObject>) returns (confidential: bool)
    ensures confidential <==> !PlainlyPublic(document, chunks)
  {
    // A missing value stands for any value but false.
    var fromSet := Get(document, "is_confidential", Null);
    var values := if "is_confidential" in document then [fromSet] else [];
    AllEqual(values, chunks, "is_confidential", fromSet, Bool(false));
    values := values + OwnValues(chunks, "is_confidential", fromSet);
    confidential := values == [] || !AllAre(values, Bool(false));
  }

  // The hashes given, stripped, blanks and nulls left out.
  ghost predicate GivesHash(o: JsonObject, h: string) {
    "sha256" in o && o["sha256"].Str? && !Blank(o["sha256"].text) && h == Strip(o["sha256"].text)
  }

  ghost predicate HashNotText(o: JsonObject) {
    "sha256" in o && o["sha256"] != Null && !o["sha256"].Str?
  }

  ghost predicate SomeHash(sources: seq<JsonObject>, h: string) {
    exists i :: 0 <= i < |sources| && GivesHash(sources[i], h)
  }

  ghost predicate HashesAgree(sources: seq<JsonObject>) {
    && (forall i :: 0 <= i < |sources| ==> !HashNotText(sources[i]))
    && (forall g, h :: SomeHash(sources, g) && SomeHash(sources, h) ==> g == h)
  }

  // One hash when all that give one agree, none when none does, else an error.
  method ResolveSha256(sources: seq<JsonObject>) returns (r: Result<Option<string>, ChunkSetError>)
    ensures r.Ok? <==> HashesAgree(sources)
    ensures r.Ok? ==> forall h :: SomeHash(sources, h) <==> r.value == Some(h)
  {
    var values: set<string> := {};
    for n := 0 to |sources|
      invariant forall i :: 0 <= i < n ==> !HashNotText(sources[i])
      invariant forall h :: h in values ==> exists i :: 0 <= i < n && GivesHash(sources[i], h)
      invariant forall i, h :: 0 <= i < n && GivesHash(sources[i], h) ==> h in values
    {
      var value := Get(sources[n], "sha256", Null);
      if value == Null {
        continue;
      }
      if !value.Str? {
        assert HashNotText(sources[n]);
        return Err(BadSha256);
      }
      StripBlank(value.text);
      hide Strip;
      if Strip(value.text) != "" {
        assert GivesHash(sources[n], Strip(value.text));
        values := values + {Strip(value.text)};
      }
    }
    assert forall i, h :: 0 <= i < |sources| && GivesHash(sources[i], h) ==> h in values;
    assert forall h :: SomeHash(sources, h) ==> h in values;
    if |values| > 1 {
      ghost var g, h := TwoOf(values);
      assert SomeHash(sources, g) && SomeHash(sources, h);
      return Err(BadSha256);
    }
    if values == {} { return Ok(None); }
    var h :| h in values;
    OnlyOne(values, h);
    return Ok(Some(h));
  }

  lemma TwoOf<T>(s: set<T>) returns (a: T, b: T)
    requires |s| > 1
    ensures a in s && b in s && a != b
  {
    a :| a in s;
    assert |s - {a}| > 0;
    b :| b in s - {a};
  }

  lemma OnlyOne<T>(s: set<T>, a: T)
    requires |s| <= 1 && a in s
    ensures s == {a}
  {
    SubsetSize({a}, s);
  }

  function CopiedFields(document: JsonObject, chunk: JsonObject, names: seq<string>): JsonObject {
    map name | name in names :: Get(chunk, name, Get(document, name, Null))
  }

  // What a chunk's payload copies: its own value of a field, or the set's.
  function FieldsOf(document: JsonObject, chunk: JsonObject): JsonObject {
    CopiedFields(document, chunk, CHUNK_CONTRACT_FIELDS + DOCUMENT_FIELDS)
  }

  ghost predicate CopiesFields(document: JsonObject, chunks: seq<JsonObject>, kept: seq<Chunk>) {
    forall i :: 0 <= i < |kept| ==>
      kept[i].index < |chunks| && CopiedFrom(kept[i].payload.fields, document, chunks[kept[i].index])
  }

  // The fifteen fields and no other, each the chunk's own value where it has
  // one, then the set's, then null.
  ghost predicate CopiedFrom(fields: JsonObject, document: JsonObject, chunk: JsonObject) {
    && (forall name :: name in fields <==> name in CHUNK_CONTRACT_FIELDS || name in DOCUMENT_FIELDS)
    && forall name :: name in fields ==>
         && (name in chunk ==> fields[name] == chunk[name])
         && (name !in chunk && name in document ==> fields[name] == document[name])
         && (name !in chunk && name !in document ==> fields[name] == Null)
  }

  lemma FieldsAreCopied(document: JsonObject, chunk: JsonObject)
    ensures CopiedFrom(FieldsOf(document, chunk), document, chunk)
  {
    var names := CHUNK_CONTRACT_FIELDS + DOCUMENT_FIELDS;
    assert forall name :: name in names <==> name in CHUNK_CONTRACT_FIELDS || name in DOCUMENT_FIELDS;
  }

  function AllObjects(items: seq<Json>): (r: Option<seq<JsonObject>>)
    ensures r.Some? <==> forall i :: 0 <= i < |items| ==> items[i].Object?
    ensures r.Some? ==> |r.value| == |items| && forall i :: 0 <= i < |items| ==> r.value[i] == items[i].fields
  {
    if forall i :: 0 <= i < |items| ==> items[i].Object?
    then Some(seq(|items|, i requires 0 <= i < |items| => items[i].fields))
    else None
  }

  ghost predicate HasWords(value: Json) {
    value.Str? && exists k :: 0 <= k < |value.text| && !IsSpace(value.text[k])
  }

  // Every non-blank chunk is kept, at its own position, and no other.
  ghost predicate KeepsText(chunks: seq<JsonObject>, kept: seq<Chunk>, n: int) {
    && (forall i :: 0 <= i < |kept| ==> kept[i].index < n <= |chunks|)
    && (forall i :: 0 <= i < |kept| ==> Get(chunks[kept[i].index], "text", Str("")) == Str(kept[i].text))
    && (forall p :: 0 <= p < n <= |chunks| && HasWords(Get(chunks[p], "text", Str(""))) ==>
          exists i :: 0 <= i < |kept| && kept[i].index == p)
  }

  ghost predicate Agrees(cs: ChunkSet, document: JsonObject, chunks: seq<JsonObject>, fold: string -> string) {
    && (cs.consentOnFile <==> ConsentGiven(document, chunks))
    && (cs.isTaxReturn <==> CountsAsTaxReturn(document, chunks, fold))
    && (cs.isConfidential <==> !PlainlyPublic(document, chunks))
    && (forall h :: SomeHash(Sources(document, chunks), h) <==> cs.sha256 == Some(h))
    && KeepsText(chunks, cs.chunks, |chunks|)
    && CopiesFields(document, chunks, cs.chunks)
  }

  // The files the parser accepts.
  ghost predicate Acceptable(raw: Json, documentId: string) {
    && raw.Object? && Get(raw.fields, "document_id", Null) == Str(documentId)
    && Get(raw.fields, "chunks", Null).List? && AllObjects(raw.fields["chunks"].items).Some?
    && var chunks := AllObjects(raw.fields["chunks"].items).value;
    && (forall i :: 0 <= i < |chunks| ==> BelongsTo(chunks[i], documentId))
    && HashesAgree(Sources(raw.fields, chunks))
  }

  predicate BelongsTo(chunk: JsonObject, documentId: string) {
    Get(chunk, "document_id", Str(documentId)) == Str(documentId) && Get(chunk, "text", Str("")).Str?
  }

  method ParseChunkSet(raw: Json, documentId: string, fold: string -> string)
    returns (r: Result<ChunkSet, ChunkSetError>)
    ensures r.Ok? ==> WellFormed(r.value) && r.value.documentId == documentId
    ensures r.Ok? <==> Acceptable(raw, documentId)
    ensures r.Ok? ==> Agrees(r.value, raw.fields, AllObjects(raw.fields["chunks"].items).value, fold)
  {
    hide ConsentGiven, CountsAsTaxReturn, PlainlyPublic, WellFormed, KeepsText, CopiesFields, HashesAgree, SomeHash;
    if !raw.Object? { return Err(NotAnObject); }
    var document := raw.fields;
    if Get(document, "document_id", Null) != Str(documentId) { return Err(WrongDocument); }
    if !Get(document, "chunks", Null).List? { return Err(ChunksNotAList); }
    var objects := AllObjects(document["chunks"].items);
    if objects.None? { return Err(NotAnObject); }
    var chunks := objects.value;
    for n := 0 to |chunks|
      invariant forall i :: 0 <= i < n ==> BelongsTo(chunks[i], documentId)
    {
      if Get(chunks[n], "document_id", Str(documentId)) != Str(documentId) { return Err(WrongDocument); }
      if !Get(chunks[n], "text", Str("")).Str? { return Err(TextNotAString); }
    }
    var sha256 := ResolveSha256(Sources(document, chunks));
    if sha256.Err? { return Err(sha256.error); }
    var consent := ResolveConsent(document, chunks);
    var taxReturn := IsTaxReturn(document, chunks, fold);
    var confidential := ResolveConfidential(document, chunks);
    var cs := KeepChunks(document, chunks, ChunkSet(documentId, sha256.value, consent, taxReturn, confidential, []));
    return Ok(cs);
  }

  method KeepChunks(document: JsonObject, chunks: seq<JsonObject>, base: ChunkSet) returns (cs: ChunkSet)
    requires forall i :: 0 <= i < |chunks| ==> Get(chunks[i], "text", Str("")).Str?
    requires base.chunks == []
    ensures WellFormed(cs) && KeepsText(chunks, cs.chunks, |chunks|)
    ensures CopiesFields(document, chunks, cs.chunks)
    ensures cs == base.(chunks := cs.chunks)
  {
    hide Get, FieldsOf, Blank, SoFar;
    cs := base;
    NothingSoFar(document, chunks, base);
    for n := 0 to |chunks|
      invariant SoFar(document, chunks, base, cs, n)
    {
      var text := Get(chunks[n], "text", Str("")).text;
      StripBlank(text);
      SkipBlank(document, chunks, base, cs, n);
      if Strip(text) != "" {
        var fields := FieldsOf(document, chunks[n]);
        var payload := Payload(base.documentId, n, fields, base.isConfidential, base.isTaxReturn, base.sha256, base.consentOnFile);
        KeepOne(document, chunks, base, cs, Chunk(n, text, payload));
        cs := cs.(chunks := cs.chunks + [Chunk(n, text, payload)]);
      }
    }
    AllSoFar(document, chunks, base, cs);
  }

  // The chunks before position n have been looked at.
  ghost predicate SoFar(document: JsonObject, chunks: seq<JsonObject>, base: ChunkSet, cs: ChunkSet, n: nat) {
    && cs == base.(chunks := cs.chunks)
    && WellFormed(cs) && KeepsText(chunks, cs.chunks, n) && CopiesFields(document, chunks, cs.chunks)
  }

  lemma NothingSoFar(document: JsonObject, chunks: seq<JsonObject>, base: ChunkSet)
    requires base.chunks == []
    ensures SoFar(document, chunks, base, base, 0)
  {
  }

  lemma AllSoFar(document: JsonObject, chunks: seq<JsonObject>, base: ChunkSet, cs: ChunkSet)
    requires SoFar(document, chunks, base, cs, |chunks|)
    ensures WellFormed(cs) && KeepsText(chunks, cs.chunks, |chunks|) && CopiesFields(document, chunks, cs.chunks)
    ensures cs == base.(chunks := cs.chunks)
  {
  }

  lemma SkipBlank(document: JsonObject, chunks: seq<JsonObject>, base: ChunkSet, cs: ChunkSet, n: nat)
    requires SoFar(document, chunks, base, cs, n) && n < |chunks| && Get(chunks[n], "text", Str("")).Str?
    ensures Blank(Get(chunks[n], "text", Str("")).text) ==> SoFar(document, chunks, base, cs, n + 1)
  {
    hide WellFormed, CopiesFields, IsSpace, Get;
  }

  lemma KeepOne(document: JsonObject, chunks: seq<JsonObject>, base: ChunkSet, cs: ChunkSet, c: Chunk)
    requires c.index < |chunks| && SoFar(document, chunks, base, cs, c.index)
    requires Get(chunks[c.index], "text", Str("")) == Str(c.text) && !Blank(c.text)
    requires c.payload == Payload(base.documentId, c.index, FieldsOf(document, chunks[c.index]),
                                  base.isConfidential, base.isTaxReturn, base.sha256, base.consentOnFile)
    ensures SoFar(document, chunks, base, cs.(chunks := cs.chunks + [c]), c.index + 1)
  {
    FieldsAreCopied(document, chunks[c.index]);
    hide Get, FieldsOf, Blank, CopiedFrom, WellFormed, CopiesFields;
    KeepsOneMore(chunks, cs.chunks, c);
    CopiesOneMore(document, chunks, cs.chunks, c);
    assert forall i :: 0 <= i < |cs.chunks| ==> cs.chunks[i].index < c.index;
    hide KeepsText;
    WellFormedSnoc(cs, c);
  }

  lemma WellFormedSnoc(cs: ChunkSet, c: Chunk)
    requires WellFormed(cs) && !Blank(c.text) && forall i :: 0 <= i < |cs.chunks| ==> cs.chunks[i].index < c.index
    requires c.payload.documentId == cs.documentId && c.payload.chunkIndex == c.index && c.payload.sha256 == cs.sha256
    requires c.payload.consentOnFile == cs.consentOnFile && c.payload.isTaxReturn == cs.isTaxReturn
    requires c.payload.isConfidential == cs.isConfidential
    ensures WellFormed(cs.(chunks := cs.chunks + [c]))
  {
    hide Blank;
  }

  lemma CopiesOneMore(document: JsonObject, chunks: seq<JsonObject>, kept: seq<Chunk>, c: Chunk)
    requires CopiesFields(document, chunks, kept) && c.index < |chunks|
    requires CopiedFrom(c.payload.fields, document, chunks[c.index])
    ensures CopiesFields(document, chunks, kept + [c])
  {
    hide CopiedFrom;
  }

  lemma KeepsOneMore(chunks: seq<JsonObject>, kept: seq<Chunk>, c: Chunk)
    requires c.index < |chunks| && KeepsText(chunks, kept, c.index)
    requires Get(chunks[c.index], "text", Str("")) == Str(c.text)
    ensures KeepsText(chunks, kept + [c], c.index + 1)
  {
    forall p | 0 <= p <= c.index && HasWords(Get(chunks[p], "text", Str("")))
      ensures exists i :: 0 <= i < |kept + [c]| && (kept + [c])[i].index == p
    {
      if p < c.index {
        var i :| 0 <= i < |kept| && kept[i].index == p;
        assert (kept + [c])[i].index == p;
      } else {
        assert (kept + [c])[|kept|].index == p;
      }
    }
  }
}
