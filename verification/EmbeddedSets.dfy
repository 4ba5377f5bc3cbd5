// From the embedding service to the index: what the client returns for a chunk
// set are the vectors of its chunks' texts, in order.
module EmbeddedSets {
  import opened Texts
  import opened ChunkSets
  import opened DocumentPoints
  import Embeddings
  import TaxLaw

  function TextsOf(chunks: seq<Chunk>): (texts: seq<string>)
    ensures |texts| == |chunks| && forall i :: 0 <= i < |chunks| ==> texts[i] == chunks[i].text
  {
    seq(|chunks|, i requires 0 <= i < |chunks| => chunks[i].text)
  }

  // Whatever the batch size and the retries, a set that was embedded is given
  // each chunk its own vector, so EveryVector applies to its session.
  lemma EmbeddedTells(
    w: Embeddings.World, cs: ChunkSet, size: nat, most: nat, t: Embeddings.Tally, vectorOf: string -> Embeddings.Vector)
    requires size >= 1 && most >= 1 && Embeddings.Faithful(w, vectorOf)
    requires Embeddings.Embed(w, TextsOf(cs.chunks), size, most, t).0.Some?
    ensures Tells(cs, Embeddings.Embed(w, TextsOf(cs.chunks), size, most, t).0.value, vectorOf)
  {
    Embeddings.EmbedIsTruthful(w, TextsOf(cs.chunks), size, most, t, vectorOf);
    hide Embeddings.Embed, Embeddings.Faithful;
  }

  function LawTexts(subs: seq<TaxLaw.Subtopic>): (texts: seq<string>)
    ensures |texts| == |subs| && forall i :: 0 <= i < |subs| ==> texts[i] == subs[i].title + "\n" + subs[i].content
  {
    seq(|subs|, i requires 0 <= i < |subs| => TaxLaw.EmbeddingText(subs[i]))
  }

  // The same for a tax-law file, so RunKeepsTold applies to its runs.
  lemma EmbeddedLawTells(w: Embeddings.World, subs: seq<TaxLaw.Subtopic>, size: nat, most: nat, t: Embeddings.Tally,
                         vectorOf: string -> Embeddings.Vector)
    requires size >= 1 && most >= 1 && Embeddings.Faithful(w, vectorOf)
    requires Embeddings.Embed(w, LawTexts(subs), size, most, t).0.Some?
    ensures TaxLaw.Tells(subs, Embeddings.Embed(w, LawTexts(subs), size, most, t).0.value, vectorOf)
  {
    Embeddings.EmbedIsTruthful(w, LawTexts(subs), size, most, t, vectorOf);
    hide Embeddings.Embed, Embeddings.Faithful;
  }
}
