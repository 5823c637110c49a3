/** `EmbeddingPipeline` of `src/crawler/pipelines/embedding.py`: a crawled page
    item becomes one LangChain document, the text splitter cuts it into chunks,
    the embedder pairs each chunk with a vector, and the item gains an
    `embeddings` list of `{text, embedding}` records.  The splitter and the
    embedder are parameters; the item is a dict value, returned as it is after
    the write of line 54. */
module Embedding {
  import opened Base
  import opened Py
  import opened Documents

  /** The `source` metadata of every page document. */
  const Source: string := "scrapy crawl cuboulder"

  /** `make_document(item)`: the f-string of line 27 reads `title`, `url` and
      `text` in that order, so the first missing one is the `KeyError`;
      `repr` renders the values `str()` does not spell out in this model. */
  function MakeDocument(item: Dict, repr: Value -> string): (r: Result<Document, Error>)
    ensures r.Success? <==> "title" in item && "url" in item && "text" in item
    ensures "title" !in item ==> r == Failure(KeyError("title"))
    ensures "title" in item && "url" !in item ==> r == Failure(KeyError("url"))
    ensures "title" in item && "url" in item && "text" !in item ==> r == Failure(KeyError("text"))
    ensures r.Success? ==> r.value.id == None
    ensures r.Success? ==>
      r.value.metadata == map["url" := item["url"], "title" := item["title"], "source" := Str(Source)]
  {
    if "title" !in item then Failure(KeyError("title"))
    else if "url" !in item then Failure(KeyError("url"))
    else if "text" !in item then Failure(KeyError("text"))
    else
      var content := "Title: " + Display(item["title"], repr) + "\n\nURL: " + Display(item["url"], repr)
        + "\n\nContent: " + Display(item["text"], repr);
      var metadata := map["url" := item["url"], "title" := item["title"], "source" := Str(Source)];
      Success(Document(content, metadata, None))
  }

  /** `zip(chunks, embeddings)`: pairs up to the shorter length. */
  function Zip(chunks: seq<Document>, embeddings: seq<Value>): (r: seq<(Document, Value)>)
    ensures |r| == if |chunks| <= |embeddings| then |chunks| else |embeddings|
    ensures forall i :: 0 <= i < |r| ==> r[i] == (chunks[i], embeddings[i])
  {
    var n := if |chunks| <= |embeddings| then |chunks| else |embeddings|;
    seq(n, i requires 0 <= i < n => (chunks[i], embeddings[i]))
  }

  /** The page contents of the chunks (line 34). */
  function ChunkTexts(chunks: seq<Document>): (r: seq<string>)
    ensures |r| == |chunks|
    ensures forall i :: 0 <= i < |chunks| ==> r[i] == chunks[i].pageContent
  {
    seq(|chunks|, i requires 0 <= i < |chunks| => chunks[i].pageContent)
  }

  /** `embed_document(document)`: `split` is `split_documents` on the one
      document, `embed` is `embed_documents`. */
  function EmbedDocument(document: Document, split: Document -> seq<Document>, embed: seq<string> -> seq<Value>): seq<(Document, Value)> {
    var chunks := split(document);
    Zip(chunks, embed(ChunkTexts(chunks)))
  }

  /** The record of line 45 for one chunk. */
  function Record(chunk: Document, embedding: Value): Value {
    Dict(map["text" := Str(chunk.pageContent), "embedding" := embedding])
  }

  /** The records `process_page` collects, one per pair. */
  function Records(pairs: seq<(Document, Value)>): seq<Value>
    decreases |pairs|
  {
    if pairs == [] then [] else Records(pairs[..|pairs| - 1]) + [Record(pairs[|pairs| - 1].0, pairs[|pairs| - 1].1)]
  }

  /** What `process_page(item)` returns. */
  function PageRecords(item: Dict, repr: Value -> string, split: Document -> seq<Document>, embed: seq<string> -> seq<Value>): Result<seq<Value>, Error> {
    match MakeDocument(item, repr)
    case Failure(e) => Failure(e)
    case Success(document) => Success(Records(EmbedDocument(document, split, embed)))
  }

  /** The item `process_item` returns: line 53 reads `item['url']` first. */
  function EmbeddedItem(item: Dict, repr: Value -> string, split: Document -> seq<Document>, embed: seq<string> -> seq<Value>): Result<Dict, Error> {
    if "url" !in item then Failure(KeyError("url"))
    else match PageRecords(item, repr, split, embed)
      case Failure(e) => Failure(e)
      case Success(records) => Success(item["embeddings" := List(records)])
  }

  /** `process_page(item)`: the loop of lines 44-48. */
  method ProcessPage(item: Dict, repr: Value -> string, split: Document -> seq<Document>, embed: seq<string> -> seq<Value>)
    returns (r: Result<seq<Value>, Error>)
    ensures r == PageRecords(item, repr, split, embed)
  {
    var made := MakeDocument(item, repr);
    if made.Failure? {
      return Failure(made.error);
    }
    var chunkEmbeddings := EmbedDocument(made.value, split, embed);
    var results := [];
    var i := 0;
    while i < |chunkEmbeddings|
      invariant 0 <= i <= |chunkEmbeddings|
      invariant results == Records(chunkEmbeddings[..i])
    {
      var (chunk, emb) := chunkEmbeddings[i];
      assert chunkEmbeddings[..i + 1][..i] == chunkEmbeddings[..i];
      results := results + [Dict(map["text" := Str(chunk.pageContent), "embedding" := emb])];
      i := i + 1;
    }
    assert chunkEmbeddings[..i] == chunkEmbeddings;
    r := Success(results);
  }

  /** `process_item(item, spider)`. */
  method ProcessItem(item: Dict, repr: Value -> string, split: Document -> seq<Document>, embed: seq<string> -> seq<Value>)
    returns (r: Result<Dict, Error>)
    ensures r == EmbeddedItem(item, repr, split, embed)
  {
    if "url" !in item {
      return Failure(KeyError("url"));
    }
    var records := ProcessPage(item, repr, split, embed);
    if records.Failure? {
      return Failure(records.error);
    }
    r := Success(item["embeddings" := List(records.value)]);
  }

  // -----------------------------------------------------------------------
  // Properties
  // -----------------------------------------------------------------------

  /** For string fields the content is exactly
      `Title: <title>\n\nURL: <url>\n\nContent: <text>`. */
  lemma MakeDocumentOfStrings(item: Dict, repr: Value -> string, title: string, url: string, text: string)
    requires "title" in item && item["title"] == Str(title)
    requires "url" in item && item["url"] == Str(url)
    requires "text" in item && item["text"] == Str(text)
    ensures MakeDocument(item, repr) == Success(Document(
      "Title: " + title + "\n\nURL: " + url + "\n\nContent: " + text,
      map["url" := Str(url), "title" := Str(title), "source" := Str(Source)],
      None))
  {
  }

  /** One record per chunk-vector pair, in chunk order, each holding the
      chunk's text and its paired vector; a short embedding list cuts the
      records short. */
  lemma {:induction false} RecordsMeaning(pairs: seq<(Document, Value)>)
    ensures |Records(pairs)| == |pairs|
    ensures forall i :: 0 <= i < |pairs| ==> Records(pairs)[i] == Record(pairs[i].0, pairs[i].1)
    decreases |pairs|
  {
    if pairs != [] {
      RecordsMeaning(pairs[..|pairs| - 1]);
    }
  }

  /** The records of a page follow the chunks of its document. */
  lemma PageRecordsMeaning(item: Dict, repr: Value -> string, split: Document -> seq<Document>, embed: seq<string> -> seq<Value>)
    requires MakeDocument(item, repr).Success?
    ensures var chunks := split(MakeDocument(item, repr).value);
      var embeddings := embed(ChunkTexts(chunks));
      var records := PageRecords(item, repr, split, embed).value;
      && |records| == (if |chunks| <= |embeddings| then |chunks| else |embeddings|)
      && forall i :: 0 <= i < |records| ==>
        records[i] == Dict(map["text" := Str(chunks[i].pageContent), "embedding" := embeddings[i]])
  {
    RecordsMeaning(EmbedDocument(MakeDocument(item, repr).value, split, embed));
  }

  /** Processing sets `embeddings` and leaves every other key of the item as
      it was; it fails only on a missing `url`, `title` or `text`. */
  lemma EmbeddedItemChangesOnlyEmbeddings(item: Dict, repr: Value -> string, split: Document -> seq<Document>, embed: seq<string> -> seq<Value>)
    ensures EmbeddedItem(item, repr, split, embed).Success? <==> "url" in item && "title" in item && "text" in item
    ensures "url" !in item ==> EmbeddedItem(item, repr, split, embed) == Failure(KeyError("url"))
    ensures EmbeddedItem(item, repr, split, embed).Success? ==>
      var out := EmbeddedItem(item, repr, split, embed).value;
      && "embeddings" in out
      && out["embeddings"] == List(PageRecords(item, repr, split, embed).value)
      && forall k :: k != "embeddings" ==> (k in out <==> k in item) && (k in item ==> out[k] == item[k])
  {
  }
}
