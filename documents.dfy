/** LangChain's `Document`: page content, a metadata dict, and an optional id. */
module Documents {
  import opened Base
  import opened Py

  datatype Document = Document(pageContent: string, metadata: Dict, id: Option<string>)

  /** The document after `doc.metadata[key] = value`. */
  function WithMetadata(doc: Document, key: string, value: Value): (r: Document)
    ensures r.pageContent == doc.pageContent && r.id == doc.id
    ensures key in r.metadata && r.metadata[key] == value
    ensures forall k :: k != key ==>
      (k in r.metadata <==> k in doc.metadata) && (k in doc.metadata ==> r.metadata[k] == doc.metadata[k])
  {
    doc.(metadata := doc.metadata[key := value])
  }
}
