/** The values that flow between the document splitter, the embedding
    provider, the search service and the query layer. */
module Documents {

  datatype Option<T> = None | Some(value: T)

  /** The index-type tags the source dispatches on; any other string is an unknown type. */
  const CogSearch: string := "cogsearch"
  const CogSearchVs: string := "cogsearchvs"

  /** An embedding vector, kept opaque: only whether one was produced matters here. */
  datatype Embedding = Embedding(values: seq<real>)

  /** The embedding provider for one model type: `None` stands for a call
      that raised after its retries ran out. */
  type Embedder = string -> Option<Embedding>

  /** A page-level text chunk produced by the document splitter. */
  datatype Chunk = Chunk(pageContent: string)

  /** A value stored under one key of an index record (a Python dict entry). */
  datatype Value = Text(text: string) | Vector(embedding: Embedding)

  /** An index record: the dict handed to the upload calls. */
  type Record = map<string, Value>

  /** The record keys used by the section generator. */
  const IdKey: string := "id"
  const ContentKey: string := "content"
  const ContentVectorKey: string := "contentVector"
  const SourceFileKey: string := "sourcefile"
}
