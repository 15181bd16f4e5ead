/** rag/qdrant_utils.py and rag/embeddings.py: the collections of the vector
    store, one per chat, and the ingestion of a document's chunks into the
    chat's collection. A collection is its vector configuration and the texts
    added to it, in order; the embedding vectors themselves are not modelled. */
module VectorStore {
  import opened Wrappers

  datatype Distance = Cosine | Euclid | Dot | Manhattan

  datatype VectorParams = VectorParams(size: nat, distance: Distance)

  /** Every collection is created for 384-dimensional vectors under cosine distance. */
  const ChatVectors: VectorParams := VectorParams(384, Cosine)

  const EmbeddingModel: string := "sentence-transformers/all-MiniLM-L6-v2"

  datatype Collection = Collection(params: VectorParams, texts: seq<string>)

  /** The settings of the character splitter; `lengthIsCharCount` records that
      chunk length is measured with `len`. */
  datatype SplitterConfig = SplitterConfig(separator: string, chunkSize: nat, chunkOverlap: nat, lengthIsCharCount: bool)

  const ChunkSplitter: SplitterConfig := SplitterConfig("\n", 1000, 200, true)

  /** `split_text` of a splitter built from the given settings. */
  type Splitter = (SplitterConfig, string) -> seq<string>

  /** The chunks one ingestion adds: none for a missing or empty document,
      otherwise the splitter's chunks in its order. */
  function NewChunks(documentText: Option<string>, split: Splitter): (r: seq<string>)
    ensures documentText.None? || documentText.value == "" ==> r == []
    ensures documentText.Some? && documentText.value != "" ==> r == split(ChunkSplitter, documentText.value)
  {
    if documentText.None? || documentText.value == "" then []
    else split(ChunkSplitter, documentText.value)
  }

  /** The collections after `handle_chat_embeddings(name, documentText)`. */
  function Embedded(cols: map<string, Collection>, name: string, documentText: Option<string>, split: Splitter)
    : (r: map<string, Collection>)
    ensures r.Keys == cols.Keys + {name}
    ensures name in cols ==> r[name] == Collection(cols[name].params, cols[name].texts + NewChunks(documentText, split))
    ensures name !in cols ==> r[name] == Collection(ChatVectors, NewChunks(documentText, split))
    ensures forall n :: n in cols && n != name ==> r[n] == cols[n]
  {
    var before := if name in cols then cols[name] else Collection(ChatVectors, []);
    cols[name := before.(texts := before.texts + NewChunks(documentText, split))]
  }

  /** The vector database: the collection names in the order the server lists
      them, and each collection's contents. */
  class Store {
    var listed: seq<string>
    var collections: map<string, Collection>

    /** The listing names every collection exactly once. */
    ghost predicate Valid()
      reads this
    {
      && (forall i, j :: 0 <= i < j < |listed| ==> listed[i] != listed[j])
      && (forall n :: n in collections <==> n in listed)
    }

    constructor ()
      ensures Valid()
      ensures listed == [] && collections == map[]
    {
      listed := [];
      collections := map[];
    }

    /** `collection_exists`: scan the listed collections for `chatName`, exactly. */
    method CollectionExists(chatName: string) returns (found: bool)
      requires Valid()
      ensures found <==> chatName in collections
      ensures found <==> exists i :: 0 <= i < |listed| && listed[i] == chatName
    {
      var i := 0;
      while i < |listed|
        invariant 0 <= i <= |listed|
        invariant forall k :: 0 <= k < i ==> listed[k] != chatName
      {
        if listed[i] == chatName {
          return true;
        }
        i := i + 1;
      }
      return false;
    }

    /** `create_qdrant_collection`: a new, empty collection with the chat
        vector settings. The store itself rejects an existing name, so the
        callers check first. */
    method CreateCollection(chatName: string)
      requires Valid()
      requires chatName !in collections
      modifies this
      ensures Valid()
      ensures collections == old(collections)[chatName := Collection(ChatVectors, [])]
      ensures listed == old(listed) + [chatName]
    {
      listed := listed + [chatName];
      collections := collections[chatName := Collection(ChatVectors, [])];
    }

    /** `add_texts([text])` on the collection `name`: one text appended. */
    method AddText(name: string, text: string)
      requires Valid()
      requires name in collections
      modifies this
      ensures Valid()
      ensures collections == old(collections)[name := old(collections)[name].(texts := old(collections)[name].texts + [text])]
      ensures listed == old(listed)
    {
      collections := collections[name := collections[name].(texts := collections[name].texts + [text])];
    }

    /** `handle_chat_embeddings`: reuse or create the chat's collection, then
        add the document's chunks one at a time, in the splitter's order. */
    method HandleChatEmbeddings(chatName: string, documentText: Option<string>, split: Splitter)
      requires Valid()
      modifies this
      ensures Valid()
      ensures collections == Embedded(old(collections), chatName, documentText, split)
      ensures chatName in old(collections) ==> listed == old(listed)
      ensures chatName !in old(collections) ==> listed == old(listed) + [chatName]
    {
      var exists_ := CollectionExists(chatName);
      if !exists_ {
        CreateCollection(chatName);
      }
      if documentText.Some? && documentText.value != "" {
        var chunks := split(ChunkSplitter, documentText.value);
        AddTexts(chatName, chunks);
      } else {
        assert collections[chatName].texts + [] == collections[chatName].texts;
      }
    }

    /** The `for chunk in chunks` loop: one `add_texts([chunk])` per chunk, in order. */
    method AddTexts(chatName: string, chunks: seq<string>)
      requires Valid() && chatName in collections
      modifies this
      ensures Valid() && listed == old(listed)
      ensures collections == old(collections)[chatName := old(collections[chatName]).(texts := old(collections[chatName]).texts + chunks)]
    {
      var start := collections[chatName];
      ghost var created := collections;
      var i := 0;
      assert start.(texts := start.texts + chunks[..0]) == start;
      assert created[chatName := start] == created;
      while i < |chunks|
        invariant 0 <= i <= |chunks|
        invariant Valid() && listed == old(listed)
        invariant chatName in collections
        invariant collections == created[chatName := start.(texts := start.texts + chunks[..i])]
      {
        AddText(chatName, chunks[i]);
        assert chunks[..i + 1] == chunks[..i] + [chunks[i]];
        assert start.texts + chunks[..i + 1] == start.texts + chunks[..i] + [chunks[i]];
        i := i + 1;
      }
      assert chunks[..i] == chunks;
    }
  }

  // ---------------------------------------------------------------------------
  // Properties of ingestion

  /** After ingestion the chat's collection exists; it was created, with the
      chat vector settings, only if it was missing, and kept its settings otherwise. */
  lemma EmbeddedCollectionExists(cols: map<string, Collection>, name: string, documentText: Option<string>, split: Splitter)
    ensures name in Embedded(cols, name, documentText, split)
    ensures Embedded(cols, name, documentText, split)[name].params ==
      if name in cols then cols[name].params else ChatVectors
  {
  }

  /** Ingestion only appends: what the chat's collection held stays a prefix,
      and every other collection is untouched. */
  lemma EmbeddedAppendOnly(cols: map<string, Collection>, name: string, documentText: Option<string>, split: Splitter, n: string)
    requires n in cols
    ensures n in Embedded(cols, name, documentText, split)
    ensures cols[n].texts <= Embedded(cols, name, documentText, split)[n].texts
    ensures n != name ==> Embedded(cols, name, documentText, split)[n] == cols[n]
  {
  }

  /** A missing or empty document adds no text; the collection may still be created. */
  lemma EmbeddedNothingToAdd(cols: map<string, Collection>, name: string, documentText: Option<string>, split: Splitter)
    requires documentText.None? || documentText.value == ""
    ensures name in cols ==> Embedded(cols, name, documentText, split) == cols
    ensures name !in cols ==> Embedded(cols, name, documentText, split) == cols[name := Collection(ChatVectors, [])]
  {
    if name in cols {
      assert cols[name].(texts := cols[name].texts + []) == cols[name];
    }
  }

  /** Ingesting the same document twice stores its chunks twice: there is no
      de-duplication. */
  lemma ReingestDuplicates(cols: map<string, Collection>, name: string, text: string, split: Splitter)
    requires name in cols
    ensures var chunks := NewChunks(Some(text), split);
      Embedded(Embedded(cols, name, Some(text), split), name, Some(text), split)[name].texts ==
        cols[name].texts + chunks + chunks
  {
  }

  /** Ingestion into an existing collection does not depend on how it came to
      exist: two ingestions append both documents' chunks in call order. */
  lemma EmbeddedInOrder(cols: map<string, Collection>, name: string, first: Option<string>, second: Option<string>, split: Splitter)
    ensures var twice := Embedded(Embedded(cols, name, first, split), name, second, split);
      var base := if name in cols then cols[name] else Collection(ChatVectors, []);
      twice == cols[name := base.(texts := base.texts + NewChunks(first, split) + NewChunks(second, split))]
  {
  }
}
