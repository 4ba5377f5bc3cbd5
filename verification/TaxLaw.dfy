// The tax-law indexer: one file replaces one collection, guarded against a
// truncated file, and restartable after an interruption at any step.
module TaxLaw {
  import opened Jsons
  import opened Sets
  import opened Texts

  const UPSERT_BATCH_SIZE := 64
  const REMOVAL_GUARD_MIN := 5
  const SCROLL_PAGE := 256

  datatype Subtopic = Subtopic(subtopicId: string, title: string, topic: string, topicId: string, content: string)

  datatype KnowledgeBase = KnowledgeBase(subtopics: seq<Subtopic>, skippedBlank: nat)

  // Malformed: the wrong shape somewhere, or a blank subtopic id.
  datatype KnowledgeBaseError = Malformed | DuplicateIds | NothingToIndex | WouldRemoveMost

  // ------------------------------------------------------------------
  // Reading the file
  // ------------------------------------------------------------------

  // A field that must be text.
  predicate HasText(o: JsonObject, key: string) {
    Get(o, key, Null).Str?
  }

  predicate SubtopicShaped(raw: Json) {
    raw.Object? && HasText(raw.fields, "id") && HasText(raw.fields, "title") && HasText(raw.fields, "content")
    && !Blank(raw.fields["id"].text)
  }

  predicate TopicShaped(raw: Json) {
    && raw.Object? && HasText(raw.fields, "id") && HasText(raw.fields, "topic")
    && Get(raw.fields, "subtopics", Null).List?
    && forall i :: 0 <= i < |raw.fields["subtopics"].items| ==> SubtopicShaped(raw.fields["subtopics"].items[i])
  }

  // Objects, lists and text where they belong, and no blank subtopic id.
  predicate WellShaped(raw: Json) {
    && raw.Object? && Get(raw.fields, "knowledgeBase", Null).List?
    && forall t :: 0 <= t < |raw.fields["knowledgeBase"].items| ==> TopicShaped(raw.fields["knowledgeBase"].items[t])
  }

  function SubtopicOf(topic: Json, raw: Json): Subtopic
    requires topic.Object? && HasText(topic.fields, "id") && HasText(topic.fields, "topic") && SubtopicShaped(raw)
  {
    Subtopic(Strip(raw.fields["id"].text), raw.fields["title"].text, topic.fields["topic"].text,
             topic.fields["id"].text, raw.fields["content"].text)
  }

  function SubtopicsOf(topic: Json): seq<Subtopic>
    requires TopicShaped(topic)
  {
    var raws := topic.fields["subtopics"].items;
    seq(|raws|, i requires 0 <= i < |raws| => SubtopicOf(topic, raws[i]))
  }

  function AllSubtopics(topics: seq<Json>): seq<Subtopic>
    requires forall t :: 0 <= t < |topics| ==> TopicShaped(topics[t])
  {
    if topics == [] then [] else AllSubtopics(topics[..|topics| - 1]) + SubtopicsOf(topics[|topics| - 1])
  }

  // Topic by topic and subtopic by subtopic, stopping at the first fault.
  method ReadSubtopics(raw: Json) returns (r: Result<seq<Subtopic>, KnowledgeBaseError>)
    ensures r == if WellShaped(raw) then Ok(AllSubtopics(raw.fields["knowledgeBase"].items)) else Err(Malformed)
  {
    if !raw.Object? || !Get(raw.fields, "knowledgeBase", Null).List? { return Err(Malformed); }
    var topics := raw.fields["knowledgeBase"].items;
    var found: seq<Subtopic> := [];
    for t := 0 to |topics|
      invariant forall i :: 0 <= i < t ==> TopicShaped(topics[i])
      invariant found == AllSubtopics(topics[..t])
    {
      var topic := topics[t];
      var more := ReadTopic(topic);
      if more.Err? { return Err(Malformed); }
      assert topics[..t + 1][..t] == topics[..t] && topics[..t + 1][t] == topic;
      found := found + more.value;
    }
    assert topics[..|topics|] == topics;
    return Ok(found);
  }

  method ReadTopic(topic: Json) returns (r: Result<seq<Subtopic>, KnowledgeBaseError>)
    ensures r == if TopicShaped(topic) then Ok(SubtopicsOf(topic)) else Err(Malformed)
  {
    if !topic.Object? || !HasText(topic.fields, "id") || !HasText(topic.fields, "topic") { return Err(Malformed); }
    if !Get(topic.fields, "subtopics", Null).List? { return Err(Malformed); }
    var raws := topic.fields["subtopics"].items;
    var found: seq<Subtopic> := [];
    for s := 0 to |raws|
      invariant forall i :: 0 <= i < s ==> SubtopicShaped(raws[i])
      invariant |found| == s && forall i :: 0 <= i < s ==> found[i] == SubtopicOf(topic, raws[i])
    {
      hide SubtopicOf, SubtopicShaped;
      var sub := ReadSubtopic(topic, raws[s]);
      if sub.Err? { return Err(Malformed); }
      found := found + [sub.value];
    }
    assert found == SubtopicsOf(topic);
    return Ok(found);
  }

  method ReadSubtopic(topic: Json, raw: Json) returns (r: Result<Subtopic, KnowledgeBaseError>)
    requires topic.Object? && HasText(topic.fields, "id") && HasText(topic.fields, "topic")
    ensures r == if SubtopicShaped(raw) then Ok(SubtopicOf(topic, raw)) else Err(Malformed)
  {
    hide Strip, Blank;
    if !raw.Object? || !HasText(raw.fields, "id") { return Err(Malformed); }
    StripBlank(raw.fields["id"].text);
    if Strip(raw.fields["id"].text) == "" { return Err(Malformed); }
    if !HasText(raw.fields, "title") || !HasText(raw.fields, "content") { return Err(Malformed); }
    return Ok(SubtopicOf(topic, raw));
  }

  predicate DistinctIds(subs: seq<Subtopic>) {
    forall i, j :: 0 <= i < j < |subs| ==> subs[i].subtopicId != subs[j].subtopicId
  }

  function WithContent(subs: seq<Subtopic>): seq<Subtopic> {
    if subs == [] then [] else
    (if Blank(subs[0].content) then [] else [subs[0]]) + WithContent(subs[1..])
  }

  function ParseKnowledgeBase(raw: Json): (r: Result<KnowledgeBase, KnowledgeBaseError>)
    ensures r.Ok? ==> DistinctIds(r.value.subtopics)
  {
    if !WellShaped(raw) then Err(Malformed) else
    var every := AllSubtopics(raw.fields["knowledgeBase"].items);
    if !DistinctIds(every) then Err(DuplicateIds)
    else
      ContentKeepsDistinct(every);
      Ok(KnowledgeBase(WithContent(every), |every| - |WithContent(every)|))
  }

  // The knowledge base of a file: refused exactly when malformed or when an
  // id repeats, blank subtopics included; otherwise the subtopics with
  // content, and the count of those without.
  lemma ParseIs(raw: Json)
    ensures ParseKnowledgeBase(raw).Ok? <==>
      && WellShaped(raw)
      && var every := AllSubtopics(raw.fields["knowledgeBase"].items);
         forall i, j :: 0 <= i < j < |every| ==> every[i].subtopicId != every[j].subtopicId
    ensures ParseKnowledgeBase(raw).Ok? ==>
      var every, kb := AllSubtopics(raw.fields["knowledgeBase"].items), ParseKnowledgeBase(raw).value;
      && (forall s :: s in kb.subtopics <==> s in every && !Blank(s.content))
      && DistinctIds(kb.subtopics) && |kb.subtopics| + kb.skippedBlank == |every|
  {
    if WellShaped(raw) && DistinctIds(AllSubtopics(raw.fields["knowledgeBase"].items)) {
      ContentKeepsDistinct(AllSubtopics(raw.fields["knowledgeBase"].items));
    }
  }

  // Kept exactly the subtopics with content, each once and in file order.
  lemma {:induction false} ContentKeepsDistinct(subs: seq<Subtopic>)
    requires DistinctIds(subs)
    ensures |WithContent(subs)| <= |subs| && DistinctIds(WithContent(subs))
    ensures forall s :: s in WithContent(subs) <==> s in subs && !Blank(s.content)
  {
    if subs != [] {
      hide Blank;
      ContentKeepsDistinct(subs[1..]);
      assert subs == [subs[0]] + subs[1..];
      hide WithContent;
      FirstStaysDistinct(subs, WithContent(subs[1..]));
    }
  }

  lemma FirstStaysDistinct(subs: seq<Subtopic>, rest: seq<Subtopic>)
    requires subs != [] && DistinctIds(subs) && DistinctIds(rest) && forall s :: s in rest ==> s in subs[1..]
    ensures DistinctIds([subs[0]] + rest)
  {
    forall i | 0 <= i < |rest| ensures rest[i].subtopicId != subs[0].subtopicId {
      assert rest[i] in subs[1..];
      var k :| 0 <= k < |subs[1..]| && subs[1..][k] == rest[i];
      assert subs[k + 1] == rest[i];
    }
  }

  // ------------------------------------------------------------------
  // The collection
  // ------------------------------------------------------------------

  datatype Point = Point(subtopic: Subtopic, embeddingModel: string, embeddedAt: string, vector: seq<real>)

  // UUIDv5 (section 5.5 of RFC 9562) is taken to be injective on subtopic ids,
  // so the subtopic id serves as the point id.
  type Collection = map<string, Point>

  function UpsertAll(store: Collection, points: seq<Point>): Collection {
    if points == [] then store else
    var p := points[|points| - 1];
    UpsertAll(store, points[..|points| - 1])[p.subtopic.subtopicId := p]
  }

  function PointsFor(subs: seq<Subtopic>, vectors: seq<seq<real>>, model: string, at: string): (r: seq<Point>)
    requires |vectors| == |subs|
    ensures |r| == |subs| && forall i :: 0 <= i < |subs| ==> r[i] == Point(subs[i], model, at, vectors[i])
  {
    seq(|subs|, i requires 0 <= i < |subs| => Point(subs[i], model, at, vectors[i]))
  }

  function IdsOf(subs: seq<Subtopic>): set<string> {
    set i | 0 <= i < |subs| :: subs[i].subtopicId
  }

  function Stale(stored: set<string>, keep: set<string>): set<string> {
    stored - keep
  }

  predicate GuardRefuses(stored: set<string>, keep: set<string>) {
    |Stale(stored, keep)| >= REMOVAL_GUARD_MIN && |Stale(stored, keep)| * 2 > |stored|
  }

  // The state once that many client calls of a run took effect: the batches in
  // order, then one delete of the stale points.
  function AfterCalls(store: Collection, points: seq<Point>, stale: set<string>, calls: nat): Collection {
    if calls * UPSERT_BATCH_SIZE < |points| then UpsertAll(store, points[..calls * UPSERT_BATCH_SIZE])
    else if (calls - 1) * UPSERT_BATCH_SIZE < |points| then UpsertAll(store, points)
    else UpsertAll(store, points) - stale
  }

  // Exactly the file's subtopics, each with its own text and labels.
  ghost predicate Holds(store: Collection, subs: seq<Subtopic>) {
    && store.Keys == IdsOf(subs)
    && forall i :: 0 <= i < |subs| ==> subs[i].subtopicId in store && store[subs[i].subtopicId].subtopic == subs[i]
  }

  // Each subtopic's point carries its own vector, model and time.
  ghost predicate Carries(store: Collection, subs: seq<Subtopic>, vectors: seq<seq<real>>, model: string, at: string) {
    |vectors| == |subs| && forall i :: 0 <= i < |subs| ==>
      subs[i].subtopicId in store && store[subs[i].subtopicId] == Point(subs[i], model, at, vectors[i])
  }

  lemma {:induction false} UpsertAllKeys(store: Collection, subs: seq<Subtopic>, points: seq<Point>)
    requires |points| <= |subs| && forall i :: 0 <= i < |points| ==> points[i].subtopic == subs[i]
    ensures UpsertAll(store, points).Keys == store.Keys + IdsOf(subs[..|points|])
  {
    if points != [] {
      var n := |points| - 1;
      UpsertAllKeys(store, subs, points[..n]);
      assert forall i :: 0 <= i < n ==> subs[..n + 1][i] == subs[..n][i];
      assert subs[..n + 1][n] == subs[n];
      assert IdsOf(subs[..n + 1]) == IdsOf(subs[..n]) + {subs[n].subtopicId};
    }
  }

  lemma {:induction false} UpsertAllValues(store: Collection, subs: seq<Subtopic>, points: seq<Point>)
    requires |points| <= |subs| && DistinctIds(subs)
    requires forall i :: 0 <= i < |points| ==> points[i].subtopic == subs[i]
    ensures forall i :: 0 <= i < |points| ==>
              subs[i].subtopicId in UpsertAll(store, points) && UpsertAll(store, points)[subs[i].subtopicId] == points[i]
  {
    if points != [] {
      UpsertAllValues(store, subs, points[..|points| - 1]);
    }
  }

  // A run that ends leaves exactly the file's subtopics.
  lemma FinishedRunHolds(store: Collection, subs: seq<Subtopic>, points: seq<Point>)
    requires |points| == |subs| && DistinctIds(subs)
    requires forall i :: 0 <= i < |points| ==> points[i].subtopic == subs[i]
    ensures Holds(UpsertAll(store, points) - Stale(store.Keys, IdsOf(subs)), subs)
  {
    UpsertAllKeys(store, subs, points);
    UpsertAllValues(store, subs, points);
    assert subs[..|subs|] == subs;
    assert forall i :: 0 <= i < |subs| ==> subs[i].subtopicId in IdsOf(subs);
  }

  lemma FinishedRunCarries(store: Collection, subs: seq<Subtopic>, vectors: seq<seq<real>>, model: string, at: string)
    requires |vectors| == |subs| && DistinctIds(subs)
    ensures Carries(UpsertAll(store, PointsFor(subs, vectors, model, at)) - Stale(store.Keys, IdsOf(subs)),
                    subs, vectors, model, at)
  {
    UpsertAllValues(store, subs, PointsFor(subs, vectors, model, at));
    assert forall i :: 0 <= i < |subs| ==> subs[i].subtopicId in IdsOf(subs);
  }

  // Wherever a run that passed the guard stops, running the same file again
  // passes the guard again, with the same stale points or none.
  lemma RestartPassesGuard(store: Collection, subs: seq<Subtopic>, points: seq<Point>, calls: nat)
    requires |points| == |subs| && DistinctIds(subs)
    requires forall i :: 0 <= i < |points| ==> points[i].subtopic == subs[i]
    requires !GuardRefuses(store.Keys, IdsOf(subs))
    ensures var stopped := AfterCalls(store, points, Stale(store.Keys, IdsOf(subs)), calls);
      && !GuardRefuses(stopped.Keys, IdsOf(subs))
      && (Stale(stopped.Keys, IdsOf(subs)) == Stale(store.Keys, IdsOf(subs)) || Stale(stopped.Keys, IdsOf(subs)) == {})
  {
    var keep := IdsOf(subs);
    var stale := Stale(store.Keys, keep);
    var stopped := AfterCalls(store, points, stale, calls);
    hide AfterCalls, UpsertAll, GuardRefuses, DistinctIds;
    var n := StoppedWhere(store, points, stale, calls);
    UpsertAllKeys(store, subs, points[..n]);
    UpsertAllKeys(store, subs, points);
    PrefixIds(subs, n);
    PrefixIds(subs, |points|);
    GuardStillPasses(store.Keys, keep, stopped.Keys);
  }

  lemma StoppedWhere(store: Collection, points: seq<Point>, stale: set<string>, calls: nat) returns (n: nat)
    ensures n <= |points|
    ensures var stopped := AfterCalls(store, points, stale, calls);
      stopped == UpsertAll(store, points[..n]) || stopped == UpsertAll(store, points) - stale
  {
    n := if calls * UPSERT_BATCH_SIZE < |points| then calls * UPSERT_BATCH_SIZE else |points|;
    assert points[..|points|] == points;
  }

  lemma PrefixIds(subs: seq<Subtopic>, n: nat)
    requires n <= |subs|
    ensures IdsOf(subs[..n]) <= IdsOf(subs)
  {
    forall i | 0 <= i < n ensures subs[..n][i].subtopicId in IdsOf(subs) { assert subs[..n][i] == subs[i]; }
  }

  lemma GuardStillPasses(stored: set<string>, keep: set<string>, later: set<string>)
    requires !GuardRefuses(stored, keep)
    requires later <= stored + keep && (stored <= later || later <= keep)
    ensures !GuardRefuses(later, keep) && (Stale(later, keep) == Stale(stored, keep) || Stale(later, keep) == {})
  {
    if stored <= later {
      assert Stale(later, keep) == Stale(stored, keep);
      SubsetSize(stored, later);
    } else {
      assert Stale(later, keep) == {};
    }
  }

  datatype Halt = Unusable(error: KnowledgeBaseError) | EmbeddingFailed | Stopped

  datatype TaxLawReport = TaxLawReport(indexed: nat, removed: nat, skippedBlank: nat)

  // How a run of a usable file leaves the collection, faults included.
  ghost predicate RunEffect(before: Collection, after: Collection, kb: KnowledgeBase, vectors: Option<seq<seq<real>>>,
                            model: string, at: string, fault: Option<nat>, r: Result<TaxLawReport, Halt>)
    requires vectors.Some? ==> |vectors.value| == |kb.subtopics|
  {
    var subs, stale := kb.subtopics, Stale(before.Keys, IdsOf(kb.subtopics));
    if subs == [] then r == Err(Unusable(NothingToIndex)) && after == before
    else if vectors.None? then r == Err(EmbeddingFailed) && after == before
    else if GuardRefuses(before.Keys, IdsOf(subs)) then r == Err(Unusable(WouldRemoveMost)) && after == before
    else if fault.Some? then
      r == Err(Stopped) && after == AfterCalls(before, PointsFor(subs, vectors.value, model, at), stale, fault.value)
    else
      && Holds(after, subs) && Carries(after, subs, vectors.value, model, at)
      && r == Ok(TaxLawReport(|subs|, |stale|, kb.skippedBlank))
  }

  class TaxLawIndexer {
    var store: Collection
    const model: string

    constructor (store: Collection, model: string)
      ensures this.store == store && this.model == model
    {
      this.store, this.model := store, model;
    }

    method Run(raw: Json, vectors: Option<seq<seq<real>>>, at: string, fault: Option<nat>)
      returns (r: Result<TaxLawReport, Halt>)
      requires vectors.Some? && ParseKnowledgeBase(raw).Ok? ==>
        |vectors.value| == |ParseKnowledgeBase(raw).value.subtopics|
      modifies this
      ensures var parsed := ParseKnowledgeBase(raw);
        if parsed.Err? then r == Err(Unusable(parsed.error)) && store == old(store)
        else RunEffect(old(store), store, parsed.value, vectors, model, at, fault, r)
    {
      hide RunEffect, WellShaped, AllSubtopics, WithContent, DistinctIds;
      var every := ReadSubtopics(raw);
      if every.Err? { return Err(Unusable(every.error)); }
      if !DistinctIds(every.value) { return Err(Unusable(DuplicateIds)); }
      ContentKeepsDistinct(every.value);
      var kept := WithContent(every.value);
      r := IndexFile(KnowledgeBase(kept, |every.value| - |kept|), vectors, at, fault);
    }

    // One run of a usable file. With a fault, that many client calls take
    // effect before it dies.
    method IndexFile(kb: KnowledgeBase, vectors: Option<seq<seq<real>>>, at: string, fault: Option<nat>)
      returns (r: Result<TaxLawReport, Halt>)
      requires vectors.Some? ==> |vectors.value| == |kb.subtopics|
      requires DistinctIds(kb.subtopics)
      modifies this
      ensures RunEffect(old(store), store, kb, vectors, model, at, fault, r)
    {
      var subs := kb.subtopics;
      if subs == [] { return Err(Unusable(NothingToIndex)); }
      if vectors.None? { return Err(EmbeddingFailed); }
      var points := PointsFor(subs, vectors.value, model, at);
      var wouldGo := StalePointIds(IdsOf(subs));
      if wouldGo.Err? { return Err(Unusable(wouldGo.error)); }
      var stale := wouldGo.value;
      FinishedRunHolds(store, subs, points);
      FinishedRunCarries(store, subs, vectors.value, model, at);
      hide UpsertAll, Holds, Carries, GuardRefuses, DistinctIds, PointsFor, IdsOf, Stale, AfterCalls;
      WriteThenDelete(points, stale, fault);
      if fault.Some? { return Err(Stopped); }
      return Ok(TaxLawReport(|points|, |stale|, kb.skippedBlank));
    }

    // The stored points the file no longer has, unless the guard refuses.
    method StalePointIds(keep: set<string>) returns (r: Result<set<string>, KnowledgeBaseError>)
      ensures r == if GuardRefuses(store.Keys, keep) then Err(WouldRemoveMost) else Ok(Stale(store.Keys, keep))
    {
      var stored := StoredPointIds();
      var stale := set id | id in stored && id !in keep;
      assert stale == Stale(store.Keys, keep);
      if |stale| >= REMOVAL_GUARD_MIN && |stale| * 2 > |stored| { return Err(WouldRemoveMost); }
      return Ok(stale);
    }

    // Every id once, page by page, in whatever order the server keeps.
    method StoredPointIds() returns (found: seq<string>)
      ensures |found| == |store| && forall id :: id in found <==> id in store
    {
      var order := InSomeOrder(store.Keys);
      found := [];
      var offset := 0;
      while offset < |order|
        invariant offset <= |order| && found == order[..offset]
      {
        var end := if offset + SCROLL_PAGE < |order| then offset + SCROLL_PAGE else |order|;
        found := found + order[offset..end];
        offset := end;
      }
      assert order[..|order|] == order;
      assert |store.Keys| == |store|;
    }

    method WriteThenDelete(points: seq<Point>, stale: set<string>, fault: Option<nat>)
      modifies this
      ensures store == if fault.Some? then AfterCalls(old(store), points, stale, fault.value)
                       else UpsertAll(old(store), points) - stale
    {
      hide UpsertAll;
      ghost var start := store;
      var stopped := UpsertBatches(points, fault);
      if stopped { return; }
      if stale != {} { store := store - stale; }
      assert store == UpsertAll(start, points) - stale;
    }

    method UpsertBatches(points: seq<Point>, fault: Option<nat>) returns (stopped: bool)
      modifies this
      ensures stopped <==> fault.Some? && (fault.value - 1) * UPSERT_BATCH_SIZE < |points|
      ensures store == if stopped then AfterCalls(old(store), points, {}, fault.value) else UpsertAll(old(store), points)
    {
      var start, calls := 0, 0;
      ghost var before := store;
      while start < |points|
        invariant start == calls * UPSERT_BATCH_SIZE && (calls - 1) * UPSERT_BATCH_SIZE < |points|
        invariant store == UpsertAll(before, points[..if start < |points| then start else |points|])
        invariant fault.Some? ==> calls <= fault.value
      {
        if fault == Some(calls) { return true; }
        var end := if start + UPSERT_BATCH_SIZE < |points| then start + UPSERT_BATCH_SIZE else |points|;
        UpsertAllSplit(before, points[..start], points[start..end]);
        assert points[..start] + points[start..end] == points[..end];
        store := UpsertAll(store, points[start..end]);
        start, calls := start + UPSERT_BATCH_SIZE, calls + 1;
      }
      assert points[..|points|] == points;
      stopped := fault == Some(calls);
    }
  }

  lemma {:induction false} UpsertAllSplit(store: Collection, a: seq<Point>, b: seq<Point>)
    ensures UpsertAll(UpsertAll(store, a), b) == UpsertAll(store, a + b)
  {
    if b == [] {
      assert a + b == a;
    } else {
      UpsertAllSplit(store, a, b[..|b| - 1]);
      assert (a + b)[..|a + b| - 1] == a + b[..|b| - 1];
    }
  }

  // A run stopped anywhere after passing the guard, then run again on the same
  // file, finishes: the guard cannot turn the half-written collection away.
  lemma RestartFinishes(before: Collection, stopped: Collection, after: Collection, kb: KnowledgeBase,
                        first: Option<seq<seq<real>>>, second: Option<seq<seq<real>>>,
                        model: string, at: string, later: string, calls: nat, r: Result<TaxLawReport, Halt>)
    requires DistinctIds(kb.subtopics) && second.Some?
    requires first.Some? ==> |first.value| == |kb.subtopics|
    requires |second.value| == |kb.subtopics|
    requires RunEffect(before, stopped, kb, first, model, at, Some(calls), Err(Stopped))
    requires RunEffect(stopped, after, kb, second, model, later, None, r)
    ensures r.Ok? && r.value.indexed == |kb.subtopics| && Holds(after, kb.subtopics)
    ensures Carries(after, kb.subtopics, second.value, model, later)
  {
    RestartPassesGuard(before, kb.subtopics, PointsFor(kb.subtopics, first.value, model, at), calls);
  }

  // ------------------------------------------------------------------
  // Whose vector a point carries
  // ------------------------------------------------------------------

  // What is embedded for a subtopic: its title, a newline, its content.
  function EmbeddingText(s: Subtopic): string {
    s.title + "\n" + s.content
  }

  ghost predicate Told(store: Collection, vectorOf: string -> seq<real>) {
    forall id :: id in store ==> store[id].vector == vectorOf(store[id].subtopic.title + "\n" + store[id].subtopic.content)
  }

  ghost predicate Tells(subs: seq<Subtopic>, vectors: seq<seq<real>>, vectorOf: string -> seq<real>) {
    |vectors| == |subs| && forall i :: 0 <= i < |subs| ==> vectors[i] == vectorOf(EmbeddingText(subs[i]))
  }

  lemma {:induction false} UpsertTold(store: Collection, points: seq<Point>, vectorOf: string -> seq<real>)
    requires Told(store, vectorOf)
    requires forall i :: 0 <= i < |points| ==> points[i].vector == vectorOf(EmbeddingText(points[i].subtopic))
    ensures Told(UpsertAll(store, points), vectorOf)
  {
    if points != [] { UpsertTold(store, points[..|points| - 1], vectorOf); }
  }

  // After a run that was given the vectors of its subtopics' texts, stopped
  // anywhere or refused, every point carries its own text's vector, if every
  // point did before.
  lemma RunKeepsTold(before: Collection, after: Collection, kb: KnowledgeBase, vectors: Option<seq<seq<real>>>,
                     model: string, at: string, fault: Option<nat>, r: Result<TaxLawReport, Halt>,
                     vectorOf: string -> seq<real>)
    requires vectors.Some? ==> |vectors.value| == |kb.subtopics| && Tells(kb.subtopics, vectors.value, vectorOf)
    requires RunEffect(before, after, kb, vectors, model, at, fault, r) && Told(before, vectorOf)
    ensures Told(after, vectorOf)
  {
    if kb.subtopics != [] && vectors.Some? && !GuardRefuses(before.Keys, IdsOf(kb.subtopics)) {
      if fault.Some? {
        StoppedIsTold(before, kb.subtopics, vectors.value, model, at, Stale(before.Keys, IdsOf(kb.subtopics)),
                      fault.value, vectorOf);
      } else {
        CarriedIsTold(after, kb.subtopics, vectors.value, model, at, vectorOf);
      }
    }
  }

  lemma StoppedIsTold(before: Collection, subs: seq<Subtopic>, vectors: seq<seq<real>>, model: string, at: string,
                      stale: set<string>, calls: nat, vectorOf: string -> seq<real>)
    requires Tells(subs, vectors, vectorOf) && Told(before, vectorOf)
    ensures Told(AfterCalls(before, PointsFor(subs, vectors, model, at), stale, calls), vectorOf)
  {
    var points := PointsFor(subs, vectors, model, at);
    hide AfterCalls, UpsertAll;
    var n := StoppedWhere(before, points, stale, calls);
    UpsertTold(before, points[..n], vectorOf);
    UpsertTold(before, points, vectorOf);
  }

  lemma CarriedIsTold(after: Collection, subs: seq<Subtopic>, vectors: seq<seq<real>>, model: string, at: string,
                      vectorOf: string -> seq<real>)
    requires Holds(after, subs) && Carries(after, subs, vectors, model, at) && Tells(subs, vectors, vectorOf)
    ensures Told(after, vectorOf)
  {
    forall id | id in after ensures after[id].vector == vectorOf(EmbeddingText(after[id].subtopic)) {
      assert id in IdsOf(subs);
      var i :| 0 <= i < |subs| && subs[i].subtopicId == id;
    }
  }

  // ------------------------------------------------------------------
  // A file, written out and read
  // ------------------------------------------------------------------

  datatype SubtopicText = SubtopicText(id: string, title: string, content: string)

  datatype TopicText = TopicText(id: string, name: string, subtopics: seq<SubtopicText>)

  function SubtopicJson(s: SubtopicText): Json {
    Object(map["id" := Str(s.id), "title" := Str(s.title), "content" := Str(s.content)])
  }

  function SubtopicsJson(subtopics: seq<SubtopicText>): (raws: seq<Json>)
    ensures |raws| == |subtopics| && forall i :: 0 <= i < |raws| ==> raws[i] == SubtopicJson(subtopics[i])
  {
    seq(|subtopics|, i requires 0 <= i < |subtopics| => SubtopicJson(subtopics[i]))
  }

  function TopicJson(t: TopicText): Json {
    Object(map["id" := Str(t.id), "topic" := Str(t.name), "subtopics" := List(SubtopicsJson(t.subtopics))])
  }

  function TopicsJson(topics: seq<TopicText>): (raws: seq<Json>)
    ensures |raws| == |topics| && forall t :: 0 <= t < |raws| ==> raws[t] == TopicJson(topics[t])
  {
    seq(|topics|, t requires 0 <= t < |topics| => TopicJson(topics[t]))
  }

  function FileJson(topics: seq<TopicText>): Json {
    Object(map["knowledgeBase" := List(TopicsJson(topics))])
  }

  // One topic's subtopics, each under its own topic's name and id.
  function Listed(t: TopicText): (subs: seq<Subtopic>)
    ensures |subs| == |t.subtopics|
    ensures forall i :: 0 <= i < |subs| ==>
      subs[i].subtopicId == Strip(t.subtopics[i].id) && subs[i].title == t.subtopics[i].title
      && subs[i].content == t.subtopics[i].content && subs[i].topic == t.name && subs[i].topicId == t.id
  {
    seq(|t.subtopics|, i requires 0 <= i < |t.subtopics| =>
      Subtopic(Strip(t.subtopics[i].id), t.subtopics[i].title, t.name, t.id, t.subtopics[i].content))
  }

  function ListedAll(topics: seq<TopicText>): seq<Subtopic> {
    if topics == [] then [] else Listed(topics[0]) + ListedAll(topics[1..])
  }

  predicate Identified(t: TopicText) {
    forall i :: 0 <= i < |t.subtopics| ==> !Blank(t.subtopics[i].id)
  }

  lemma TopicReadsBack(t: TopicText)
    requires Identified(t)
    ensures TopicShaped(TopicJson(t)) && SubtopicsOf(TopicJson(t)) == Listed(t)
  {
    hide Blank, Strip;
    var raws := SubtopicsJson(t.subtopics);
    forall i | 0 <= i < |raws| ensures SubtopicShaped(raws[i]) { assert !Blank(t.subtopics[i].id); }
  }

  ghost predicate AllShaped(raws: seq<Json>) {
    forall t :: 0 <= t < |raws| ==> TopicShaped(raws[t])
  }

  lemma TopicsAreShaped(topics: seq<TopicText>)
    requires forall t :: 0 <= t < |topics| ==> Identified(topics[t])
    ensures AllShaped(TopicsJson(topics))
  {
    hide Identified, TopicShaped, TopicJson;
    forall t | 0 <= t < |topics| ensures TopicShaped(TopicsJson(topics)[t]) { TopicReadsBack(topics[t]); }
  }

  lemma {:induction false} TopicsReadBack(topics: seq<TopicText>, n: nat)
    requires n <= |topics| && forall t :: 0 <= t < |topics| ==> Identified(topics[t])
    requires AllShaped(TopicsJson(topics))
    ensures AllSubtopics(TopicsJson(topics)[..n]) + ListedAll(topics[n..]) == ListedAll(topics)
  {
    hide Identified, TopicShaped, TopicJson;
    var raws := TopicsJson(topics);
    if n == 0 {
      assert topics[0..] == topics && raws[..0] == [];
    } else {
      TopicsReadBack(topics, n - 1);
      TopicReadsBack(topics[n - 1]);
      assert raws[..n][..n - 1] == raws[..n - 1] && raws[..n][n - 1] == raws[n - 1];
      assert topics[n - 1..][0] == topics[n - 1] && topics[n - 1..][1..] == topics[n..];
    }
  }

  lemma ShapedFile(topics: seq<TopicText>)
    requires AllShaped(TopicsJson(topics))
    ensures WellShaped(FileJson(topics)) && FileJson(topics).fields["knowledgeBase"].items == TopicsJson(topics)
  {
    hide TopicShaped, TopicsJson;
  }

  // Any topics, written as a file, read back as their subtopics in order.
  lemma FileReadsBack(topics: seq<TopicText>)
    requires forall t :: 0 <= t < |topics| ==> Identified(topics[t])
    ensures WellShaped(FileJson(topics)) && FileJson(topics).fields["knowledgeBase"].items == TopicsJson(topics)
    ensures AllShaped(TopicsJson(topics)) && AllSubtopics(TopicsJson(topics)) == ListedAll(topics)
  {
    TopicsAreShaped(topics);
    ShapedFile(topics);
    TopicsReadBack(topics, |topics|);
    hide Identified, TopicShaped, FileJson, TopicsJson, WellShaped;
    TopicsAreAll(topics);
  }

  lemma TopicsAreAll(topics: seq<TopicText>)
    requires AllShaped(TopicsJson(topics))
    requires AllSubtopics(TopicsJson(topics)[..|topics|]) + ListedAll(topics[|topics|..]) == ListedAll(topics)
    ensures AllSubtopics(TopicsJson(topics)) == ListedAll(topics)
  {
    assert TopicsJson(topics)[..|topics|] == TopicsJson(topics) && topics[|topics|..] == [];
    NothingListed();
    hide TopicShaped, AllSubtopics, ListedAll, TopicJson;
    assert AllSubtopics(TopicsJson(topics)) + [] == AllSubtopics(TopicsJson(topics));
  }

  lemma NothingListed()
    ensures ListedAll([]) == []
  {
  }

  // And make a knowledge base of those with content, unless an id repeats.
  lemma FileIsKnowledge(topics: seq<TopicText>)
    requires forall t :: 0 <= t < |topics| ==> Identified(topics[t])
    ensures var listed := ListedAll(topics);
      ParseKnowledgeBase(FileJson(topics)).Ok? <==>
        forall i, j :: 0 <= i < j < |listed| ==> listed[i].subtopicId != listed[j].subtopicId
    ensures ParseKnowledgeBase(FileJson(topics)).Ok? ==>
      forall s :: s in ParseKnowledgeBase(FileJson(topics)).value.subtopics <==> s in ListedAll(topics) && !Blank(s.content)
  {
    FileReadsBack(topics);
    hide *;
    ParseIs(FileJson(topics));
  }
}
