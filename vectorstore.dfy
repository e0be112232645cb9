/**
 * The vector store behind the campaign assistant (app.py:39-53): a collection of
 * `(id, text, vector)` entries that `cargar_cerebro_candidato` fills once, when it
 * is empty, with the chunks of the campaign document, their ids and their embeddings.
 * Vectors are opaque values of a type parameter `V`; the embedding service is an
 * oracle function.
 */
module VectorStore {
  import opened Wrappers
  import opened Strings
  import opened Chunking

  /** The embedding model named at app.py:45 (and again at app.py:61). */
  const EmbeddingModel: string := "text-embedding-ada-002"

  /** One stored chunk: its id, its text and its embedding vector. */
  datatype Entry<V> = Entry(id: string, document: string, embedding: V)

  /** Why loading the document can fail: the embedding call raised, or the store refused the batch. */
  datatype LoadError = EmbeddingFailed | AddRejected

  /** The outcome of a load together with the entries the collection holds afterwards. */
  datatype BuildResult<V> = BuildResult(status: Outcome<LoadError>, entries: seq<Entry<V>>)

  /** An embedding oracle: given the texts and the model name, the vectors, or `None` when the call raises. */
  type Embedder<!V> = (seq<string>, string) -> Option<seq<V>>

  /** The ids of a sequence of entries, in order. */
  function Ids<V>(entries: seq<Entry<V>>): (ids: seq<string>)
    ensures |ids| == |entries| && forall i :: 0 <= i < |entries| ==> ids[i] == entries[i].id
  {
    seq(|entries|, i requires 0 <= i < |entries| => entries[i].id)
  }

  /** No two entries share an id. */
  predicate DistinctIds<V>(entries: seq<Entry<V>>)
  {
    forall i, j :: 0 <= i < j < |entries| ==> entries[i].id != entries[j].id
  }

  /**
   * The batch validation of the store's `add`: at least one id, one document and one
   * embedding per id, and no id twice in the batch.
   */
  predicate AddAccepts<V>(embeddings: seq<V>, documents: seq<string>, ids: seq<string>)
  {
    |ids| > 0 && |documents| == |ids| && |embeddings| == |ids|
    && forall i, j :: 0 <= i < j < |ids| ==> ids[i] != ids[j]
  }

  /** The entries that an accepted `add` stores, position by position. */
  function Zip<V>(embeddings: seq<V>, documents: seq<string>, ids: seq<string>): (entries: seq<Entry<V>>)
    requires |documents| == |ids| && |embeddings| == |ids|
    ensures |entries| == |ids|
    ensures forall i :: 0 <= i < |ids| ==> entries[i].id == ids[i] && entries[i].document == documents[i]
    ensures forall i :: 0 <= i < |ids| ==> entries[i].embedding == embeddings[i]
  {
    seq(|ids|, i requires 0 <= i < |ids| => Entry(ids[i], documents[i], embeddings[i]))
  }

  /**
   * Entry `i` is chunk `i` of the document, stored under `doc_chunk_<i>` with vector `i`:
   * ids, texts and vectors line up one to one.
   */
  ghost predicate Aligned<V>(entries: seq<Entry<V>>, chunks: seq<string>, vectors: seq<V>)
  {
    |entries| == |chunks| == |vectors|
    && forall i :: 0 <= i < |entries| ==> entries[i] == Entry(ChunkId(i), chunks[i], vectors[i])
  }

  /**
   * What `cargar_cerebro_candidato` does to a collection holding `stored`
   * (app.py:36-37, 44-50): a non-empty collection is left as it is; an empty one
   * gets the document's chunks, embedded in one call, under their positional ids.
   */
  function Build<V>(stored: seq<Entry<V>>, document: string, embed: Embedder<V>): (r: BuildResult<V>)
    ensures r.status.Fail? ==> r.entries == stored
    ensures |stored| != 0 ==> r == BuildResult(Pass, stored)
    ensures r.status.Pass? ==> |r.entries| != 0
  {
    if |stored| != 0 then
      BuildResult(Pass, stored)
    else
      var chunks := Chunks(document);
      match embed(chunks, EmbeddingModel)
      case None => BuildResult(Fail(EmbeddingFailed), stored)
      case Some(vectors) =>
        var ids := ChunkIds(|chunks|);
        if AddAccepts(vectors, chunks, ids) then BuildResult(Pass, Zip(vectors, chunks, ids))
        else BuildResult(Fail(AddRejected), stored)
  }

  /**
   * A load from an empty collection succeeds exactly when the document has a chunk and the
   * embedder returns one vector per chunk; the collection then holds exactly the aligned
   * chunks, ids and vectors, with pairwise distinct ids, and its count is the number of chunks.
   */
  lemma LoadFromEmpty<V>(document: string, embed: Embedder<V>)
    ensures var chunks := Chunks(document);
      Build([], document, embed).status.Pass? <==>
        chunks != [] && embed(chunks, EmbeddingModel).Some? && |embed(chunks, EmbeddingModel).value| == |chunks|
    ensures var r := Build([], document, embed);
      r.status.Pass? ==>
        Aligned(r.entries, Chunks(document), embed(Chunks(document), EmbeddingModel).value)
        && |r.entries| == |Chunks(document)| && DistinctIds(r.entries)
        && Ids(r.entries) == ChunkIds(|Chunks(document)|)
  {
    var chunks := Chunks(document);
    var ids := ChunkIds(|chunks|);
    var r := Build([], document, embed);
    match embed(chunks, EmbeddingModel)
    case None =>
    case Some(vectors) =>
      if r.status.Pass? {
        assert AddAccepts(vectors, chunks, ids);
        assert Ids(r.entries) == ids;
      }
  }

  /**
   * A load after a successful load changes nothing, whatever the embedder returns the second
   * time: the collection is no longer empty, so the embedding call is not made again.
   */
  lemma BuildIdempotent<V>(stored: seq<Entry<V>>, document: string, first: Embedder<V>, second: Embedder<V>)
    requires Build(stored, document, first).status.Pass?
    ensures Build(Build(stored, document, first).entries, document, second) == Build(stored, document, first)
  {
  }

  /**
   * A load after a failed load starts afresh: the entries are the ones before the failure, so
   * the retry does exactly what a first load with the new embedder would do.
   */
  lemma RetryAfterFailure<V>(stored: seq<Entry<V>>, document: string, first: Embedder<V>, second: Embedder<V>)
    requires Build(stored, document, first).status.Fail?
    ensures Build(Build(stored, document, first).entries, document, second) == Build(stored, document, second)
  {
  }

  /** An entry that a collection holds is kept by every later load: loading never removes or changes entries. */
  lemma BuildKeepsEntries<V>(stored: seq<Entry<V>>, document: string, embed: Embedder<V>)
    ensures stored <= Build(stored, document, embed).entries
  {
  }

  /** A ChromaDB collection: the entries it stores, in insertion order. */
  class Collection<V> {
    var entries: seq<Entry<V>>

    /** `get_or_create_collection` on a fresh ephemeral client gives an empty collection (app.py:40-41). */
    constructor ()
      ensures entries == []
    {
      entries := [];
    }

    /** `collection.count()`: the number of stored entries. */
    function Count(): (n: nat)
      reads this
      ensures n == |entries|
    {
      |entries|
    }

    /** `collection.add(embeddings=…, documents=…, ids=…)`: validates the batch and appends it. */
    method Add(embeddings: seq<V>, documents: seq<string>, ids: seq<string>) returns (accepted: bool)
      modifies this
      ensures accepted == AddAccepts(embeddings, documents, ids)
      ensures accepted ==> entries == old(entries) + Zip(embeddings, documents, ids)
      ensures !accepted ==> entries == old(entries)
    {
      accepted := AddAccepts(embeddings, documents, ids);
      if accepted {
        entries := entries + Zip(embeddings, documents, ids);
      }
    }

    /**
     * The body of `cargar_cerebro_candidato` after the collection is obtained (app.py:36-50):
     * chunk the document, and only if the collection is empty embed the chunks and add them
     * under the ids `doc_chunk_0 …`.
     */
    method Load(document: string, embed: Embedder<V>) returns (status: Outcome<LoadError>)
      modifies this
      ensures BuildResult(status, entries) == Build(old(entries), document, embed)
    {
      var chunks := Chunks(document);
      if Count() != 0 {
        return Pass;
      }
      var result := embed(chunks, EmbeddingModel);
      if result.None? {
        return Fail(EmbeddingFailed);
      }
      var ids := ChunkIds(|chunks|);
      var accepted := Add(result.value, chunks, ids);
      status := if accepted then Pass else Fail(AddRejected);
    }
  }
}
