/** The index schemas `createSearchIndex` and `createKbSearchIndex` build,
    reduced to the names that matter to the rest of the module: the field
    names, the vector algorithms and profiles, and the semantic
    configurations. Field types, analyzers and HNSW parameters are
    configuration handed to the search service and are not modelled. */
module Schemas {
  import opened Documents
  import Sections

  datatype IndexSchema = IndexSchema(
    name: string,
    fields: seq<string>,
    vectorAlgorithms: seq<string>,
    vectorProfiles: seq<string>,
    semanticConfigurations: seq<string>)

  /** The semantic configuration every search asks for first, and the one
      the plain search falls back to. */
  const PrimaryConfig: string := "mySemanticConfig"
  const FallbackConfig: string := "default"

  /** The vector field of a "cogsearchvs" index, as the schema and the query name it. */
  const ContentVectorField: string := "content_vector"

  /** The schema for an index type; `None` for a type the source has no
      branch for (its `index` variable is then never bound). */
  function SchemaFor(indexType: string, indexName: string): (s: Option<IndexSchema>)
    ensures s.Some? <==> indexType == CogSearch || indexType == CogSearchVs
    ensures s.Some? ==> s.value.name == indexName && s.value.semanticConfigurations == [PrimaryConfig]
    ensures s.Some? ==> (s.value.vectorAlgorithms != [] <==> indexType == CogSearchVs)
  {
    if indexType == CogSearchVs then
      Some(IndexSchema(indexName,
                       ["id", "content", ContentVectorField, "metadata"],
                       ["default", "default_exhaustive_knn"],
                       ["myHnswProfile"],
                       [PrimaryConfig]))
    else if indexType == CogSearch then
      Some(IndexSchema(indexName, ["id", "content", "sourcefile"], [], [], [PrimaryConfig]))
    else
      None
  }

  /** The schema of the knowledge-base index. The source hands its semantic
      configuration to the index under a keyword the SDK does not know
      (`semantic_config`), so the index is created without one. */
  function KbSchema(indexName: string): (s: IndexSchema)
    ensures s.name == indexName
    ensures "indexType" in s.fields && "indexName" in s.fields
    ensures s.semanticConfigurations == []
  {
    IndexSchema(indexName,
                ["id", "question", "indexType", "indexName", "vectorQuestion", "answer"],
                ["hnswConfig"],
                ["vectorConfig"],
                [])
  }

  /** A "cogsearch" record only uses fields its index declares. */
  lemma PlainSectionFitsSchema(fileName: string, counter: nat, chunk: Chunk, indexName: string)
    ensures forall key :: key in Sections.PlainSection(fileName, counter, chunk) ==>
      key in SchemaFor(CogSearch, indexName).value.fields
  {
  }

  /** A "cogsearchvs" record does not fit its index: the embedding is stored
      under "contentVector" while the schema (and the vector query) call the
      field "content_vector", and the schema has no "sourcefile" field. */
  lemma VectorSectionMissesSchema(fileName: string, counter: nat, chunk: Chunk, vector: Embedding, indexName: string)
    ensures var fields := SchemaFor(CogSearchVs, indexName).value.fields;
      && ContentVectorKey in Sections.VectorSection(fileName, counter, chunk, vector)
      && ContentVectorKey !in fields
      && ContentVectorField in fields
      && SourceFileKey in Sections.VectorSection(fileName, counter, chunk, vector)
      && SourceFileKey !in fields
  {
  }
}
