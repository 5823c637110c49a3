/** `VectorStorePipeline.process_item` of
    `src/crawler/pipelines/vector_store.py`: one LangChain document per
    embedded chunk of an item, handed to the Chroma collection in a single
    `add_documents` call.  The collection is modelled by the documents it has
    received; the `uuid4()` ids are a parameter, `ids(i)` being the id drawn
    for the `i`-th chunk. */
module VectorStore {
  import opened Base
  import opened Py
  import opened Documents
  import Embedding

  /** The `source` metadata of every stored document. */
  const Source: string := "university_scraper"

  /** `for chunk in v`: a list yields its items; a string yields one-character
      strings; a dict yields its string keys; other values are not iterable. */
  function Iterate(v: Value): (r: Result<seq<Value>, Error>)
    ensures v.List? ==> r == Success(v.items)
    ensures v.Null? || v.Bool? || v.Int? || v.Float? ==> r == Failure(TypeError)
  {
    match v
    case List(items) => Success(items)
    case Str(s) => Success(seq(|s|, i requires 0 <= i < |s| => Str([s[i]])))
    case Dict(entries) =>
      // The keys are strings, and `"key"["text"]` raises TypeError, so only
      // the empty dict gets through the comprehension.
      if entries == map[] then Success([]) else Failure(TypeError)
    case _ => Failure(TypeError)
  }

  /** The metadata of line 32-34. */
  function Metadata(url: Value, title: Value): Dict {
    map["url" := url, "title" := title, "source" := Str(Source)]
  }

  /** The documents of the comprehension, for the chunks from the one with
      id `ids(start)` on: `chunk["text"]` must exist, and must be a string for
      LangChain's `Document` to accept it (its validation error is a
      `ValueError`). */
  function ChunkDocuments(chunks: seq<Value>, url: Value, title: Value, ids: nat -> string, start: nat): (r: Result<seq<Document>, Error>)
    ensures r.Success? <==> forall i :: 0 <= i < |chunks| ==> Subscript(chunks[i], "text").Success? && Subscript(chunks[i], "text").value.Str?
    ensures r.Success? ==> |r.value| == |chunks|
    ensures r.Success? ==> forall i :: 0 <= i < |chunks| ==>
      r.value[i] == Document(Subscript(chunks[i], "text").value.s, Metadata(url, title), Some(ids(start + i)))
    decreases |chunks|
  {
    if chunks == [] then Success([])
    else match Subscript(chunks[0], "text")
      case Failure(e) => Failure(e)
      case Success(text) =>
        if !text.Str? then Failure(ValueError)
        else match ChunkDocuments(chunks[1..], url, title, ids, start + 1)
          case Failure(e) => Failure(e)
          case Success(rest) => Success([Document(text.s, Metadata(url, title), Some(ids(start)))] + rest)
  }

  /** The `docs` of lines 29-37: `item['url']` is read first by the log line,
      then `item["embeddings"]` by the comprehension. */
  function BuildDocuments(item: Dict, ids: nat -> string): Result<seq<Document>, Error> {
    if "url" !in item then Failure(KeyError("url"))
    else if "embeddings" !in item then Failure(KeyError("embeddings"))
    else match Iterate(item["embeddings"])
      case Failure(e) => Failure(e)
      case Success(chunks) => ChunkDocuments(chunks, item["url"], Get(item, "title", Str("")), ids, 0)
  }

  class VectorStorePipeline {
    /** The documents the Chroma collection has received. */
    var stored: seq<Document>

    constructor (stored: seq<Document>)
      ensures this.stored == stored
    {
      this.stored := stored;
    }

    /** `process_item(item, spider)`: the item comes back unchanged; the
        collection receives the documents in one call, or nothing when
        building them raises. */
    method ProcessItem(item: Dict, ids: nat -> string) returns (r: Result<Dict, Error>)
      modifies this
      ensures BuildDocuments(item, ids).Failure? ==>
        r == Failure(BuildDocuments(item, ids).error) && stored == old(stored)
      ensures BuildDocuments(item, ids).Success? ==>
        r == Success(item) && stored == old(stored) + BuildDocuments(item, ids).value
    {
      var docs := BuildDocuments(item, ids);
      if docs.Failure? {
        return Failure(docs.error);
      }
      stored := stored + docs.value;
      r := Success(item);
    }
  }

  // -----------------------------------------------------------------------
  // Properties
  // -----------------------------------------------------------------------

  /** For an item whose `embeddings` is a list of `{text: ...}` records, one
      document per record in order, with the record's text as content, the
      item's `url`, its `title` or `""`, and a fresh id each. */
  lemma BuildDocumentsMeaning(item: Dict, ids: nat -> string)
    requires "url" in item && "embeddings" in item && item["embeddings"].List?
    ensures var chunks := item["embeddings"].items;
      var title := if "title" in item then item["title"] else Str("");
      var docs := BuildDocuments(item, ids);
      && (docs.Success? <==> forall i :: 0 <= i < |chunks| ==>
            chunks[i].Dict? && "text" in chunks[i].entries && chunks[i].entries["text"].Str?)
      && (docs.Success? ==> |docs.value| == |chunks|)
      && (docs.Success? ==> forall i :: 0 <= i < |chunks| ==>
              && docs.value[i].pageContent == chunks[i].entries["text"].s
              && docs.value[i].metadata == map["url" := item["url"], "title" := title, "source" := Str(Source)]
              && docs.value[i].id == Some(ids(i)))
  {
  }

  /** An item that lacks `url` or `embeddings` stores nothing and raises
      `KeyError` for the first one missing, `url` first. */
  lemma BuildDocumentsErrors(item: Dict, ids: nat -> string)
    ensures "url" !in item ==> BuildDocuments(item, ids) == Failure(KeyError("url"))
    ensures "url" in item && "embeddings" !in item ==> BuildDocuments(item, ids) == Failure(KeyError("embeddings"))
  {
  }

  /** Storing what the embedding pipeline produced: every record gives one
      document whose content is that chunk's text, with the page's URL and
      title. */
  lemma StoreAfterEmbedding(item: Dict, repr: Value -> string, split: Document -> seq<Document>,
                            embed: seq<string> -> seq<Value>, ids: nat -> string)
    requires Embedding.EmbeddedItem(item, repr, split, embed).Success?
    ensures var embedded := Embedding.EmbeddedItem(item, repr, split, embed).value;
      var chunks := split(Embedding.MakeDocument(item, repr).value);
      var docs := BuildDocuments(embedded, ids);
      && docs.Success?
      && |docs.value| == |Embedding.EmbedDocument(Embedding.MakeDocument(item, repr).value, split, embed)|
      && forall i :: 0 <= i < |docs.value| ==>
        && docs.value[i].pageContent == chunks[i].pageContent
        && docs.value[i].metadata == map["url" := item["url"], "title" := item["title"], "source" := Str(Source)]
  {
    var embedded := Embedding.EmbeddedItem(item, repr, split, embed).value;
    Embedding.EmbeddedItemChangesOnlyEmbeddings(item, repr, split, embed);
    Embedding.PageRecordsMeaning(item, repr, split, embed);
    assert embedded["url"] == item["url"];
    assert embedded["title"] == item["title"];
    BuildDocumentsMeaning(embedded, ids);
  }
}
