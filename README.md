# Search index façade: a verified model

This project models the core of `api/Python/Utilities/cogSearch.py`. That module sits between the
document pipeline and a managed cloud search service. The model covers five parts:

- **Section generation** (`createSections`). Each text chunk of a file becomes an index record. Its id
  is `"{fileName}-{counter}"` with `.`, space, `:`, `/`, `,` and `&` replaced by `_`. Its content is
  the chunk text and its `sourcefile` is the file's basename. For a `cogsearchvs` index the record
  also carries the chunk's embedding under `contentVector`.
- **Batched ingestion** (`indexSections`, `indexDocs`). Records are buffered and written each time
  the running count reaches a multiple of 1000. A non-empty remainder is written at the end.
- **Index management** (`createSearchIndex`, `createKbSearchIndex`, `deleteSearchIndex`). Indexes are
  created if absent and deleted if present. A creation error is swallowed.
- **Query dispatch** (`performCogSearch`, `performSummaryQaCogSearch`). The index type selects the
  request shape. The semantic text search retries once with the `default` configuration when the
  `mySemanticConfig` request raises. Every failure ends in `None`.
- **Knowledge-base lookup** (`performKbCogVectorSearch`). The lookup tries to create the KB index if it is absent,
  then sends one vector search filtered by `indexType eq '<t>' and indexName eq '<n>'`.

The remote service is the class `Service.SearchService`. It holds the set of index names and logs
every create, delete and document write call, with the per-document `succeeded` flags it answered
to each write. Whether the service accepts a creation, and which
documents of a batch succeed, are left open as nondeterministic choices. The search call is an oracle
passed in as a parameter (`Queries.Searcher`): for each request it either returns documents or
raises. The embedding provider is a parameter too (`Documents.Embedder`), where `None` stands for a
call that raised once its retries ran out.

Modules and files:

| file | module | contents |
|---|---|---|
| `documents.dfy` | `Documents` | values shared by all modules: records, chunks, embeddings, type tags |
| `strings.dfy` | `Strings` | `str.replace`, the sanitisation chain, decimal rendering, `os.path.basename` |
| `sections.dfy` | `Sections` | ids, records, the generator as a function and as a loop |
| `schemas.dfy` | `Schemas` | field and configuration names of the three index schemas |
| `service.dfy` | `Service` | the remote service as a stateful class |
| `batching.dfy` | `Batching` | the 1000-record partition of a stream |
| `ingestion.dfy` | `Ingestion` | the two batching loops against the service |
| `index_management.dfy` | `IndexManagement` | create-if-absent and delete-if-present |
| `queries.dfy` | `Queries` | request shapes, the fallback, the KB filter and lookup |

Behaviour of the code worth noting:

- Ids are distinct only within one file. Two file names that differ only in a replaced character give
  the same ids (`Sections.IdsCollideAcrossFiles`), so ids are not collision-free across files.
- The fallback to `default` follows any exception from the first search, not only a "configuration
  not found" error.
- The vector record stores its embedding under `contentVector`. The `cogsearchvs` schema, and the
  vector query, name that field `content_vector` (`Schemas.VectorSectionMissesSchema`).
- The KB index schema passes its semantic configuration under the keyword `semantic_config`, which is
  not a keyword of the SDK's `SearchIndex`. The KB index is therefore modelled without a semantic
  configuration (`Schemas.KbSchema`).
- `indexSections` does not contain every failure. An embedding failure inside the generator escapes
  after the full batches before it have been written (`Ingestion.IndexSections`, `raised`).

## Model

| member | source | states |
|---|---|---|
| `Strings.ReplaceChar` | api/Python/Utilities/cogSearch.py:123 | `s.replace(c, d)` for one character: same length, and every occurrence of `c`, and nothing else, becomes `d` |
| `Strings.SanitizeAt` | api/Python/Utilities/cogSearch.py:123 | sanitisation keeps the length and maps each character on its own: a forbidden character becomes `_`, every other character is kept |
| `Strings.SanitizeIsReplaceChain` | api/Python/Utilities/cogSearch.py:123 | the character-wise sanitisation equals the source's chain of six `replace` calls, in their order |
| `Strings.SanitizeRemovesForbidden` | api/Python/Utilities/cogSearch.py:123 | no sanitised string contains `.`, space, `:`, `/`, `,` or `&` |
| `Strings.SanitizeCleanSuffix` | api/Python/Utilities/cogSearch.py:123 | a suffix free of the six characters passes through sanitisation unchanged |
| `Strings.SanitizeAppend` | api/Python/Utilities/cogSearch.py:123 | sanitising a concatenation is concatenating the sanitised parts |
| `Strings.SanitizeKeepsClean` | api/Python/Utilities/cogSearch.py:123 | a string with none of the six characters is unchanged by the chain |
| `Strings.SanitizeIdempotent` | api/Python/Utilities/cogSearch.py:123 | applying the chain twice gives the same id as applying it once |
| `Strings.Decimal` | api/Python/Utilities/cogSearch.py:123 | the counter renders as decimal digits only |
| `Strings.DecimalDigits` | api/Python/Utilities/cogSearch.py:123 | the rendering is non-empty, all digits, and starts with `0` only for zero |
| `Strings.DecimalRoundTrip` | api/Python/Utilities/cogSearch.py:123 | reading the rendered counter back as a number gives the counter |
| `Strings.DecimalInjective` | api/Python/Utilities/cogSearch.py:123 | two counters render alike iff they are equal |
| `Strings.BasenameIsLastComponent` | api/Python/Utilities/cogSearch.py:126 | POSIX `os.path.basename` is the suffix of the path after its last `/`: it has no `/`, and it is the whole path or is preceded by `/` |
| `Strings.BasenameOfPlainName` | api/Python/Utilities/cogSearch.py:126 | a file name without `/` is its own basename |
| `Sections.IdClean` | api/Python/Utilities/cogSearch.py:132 | no id contains `.`, space, `:`, `/`, `,` or `&` |
| `Sections.CounterSuffixClean` | api/Python/Utilities/cogSearch.py:123 | the `-` and the counter's digits contain none of the six characters |
| `Sections.IdShape` | api/Python/Utilities/cogSearch.py:123 | the id is the sanitised file name, then `-` and the decimal counter untouched |
| `Sections.IdsDistinct` | api/Python/Utilities/cogSearch.py:119-136 | within one file, two counters give the same id iff they are equal |
| `Sections.IdsCollideAcrossFiles` | api/Python/Utilities/cogSearch.py:123 | `a.b` and `a b` get the same id for counter 1, so ids are not unique across files |
| `Sections.EmbeddedPrefix` | api/Python/Utilities/cogSearch.py:125 | the number of leading chunks whose embedding succeeds: every chunk before it embeds, and the chunk at it (if any) fails |
| `Sections.CreateSections` | api/Python/Utilities/cogSearch.py:118-136 | the generator loop, with its counter, yields exactly the records of `Sections.Generate` and raises exactly when it does |
| `Sections.VectorSectionsFromCount` | api/Python/Utilities/cogSearch.py:120-128 | the vector generator yields one record per chunk before the first failed embedding, and raises iff it stopped before the end |
| `Sections.VectorSectionsFromAt` | api/Python/Utilities/cogSearch.py:120-128 | record i of the vector generator comes from chunk i, whose embedding succeeded, is numbered `counter + i` and holds that embedding |
| `Sections.PlainSectionsFromCount` | api/Python/Utilities/cogSearch.py:129-136 | the plain generator yields one record per chunk |
| `Sections.PlainSectionsFromAt` | api/Python/Utilities/cogSearch.py:129-136 | record i of the plain generator comes from chunk i and is numbered `counter + i` |
| `Sections.SectionsCount` | api/Python/Utilities/cogSearch.py:118-136 | `cogsearch` yields one record per chunk; `cogsearchvs` yields one per chunk before the first failed embedding and raises iff some embedding fails; any other type yields nothing |
| `Sections.SectionAt` | api/Python/Utilities/cogSearch.py:118-136 | the i-th record is built from chunk i with counter i + 1, so records keep input order |
| `Sections.SectionFields` | api/Python/Utilities/cogSearch.py:122-135 | each record has the id of its counter, the chunk text as `content` and the basename as `sourcefile`; only `cogsearchvs` records have a vector, under `contentVector`, holding the chunk's embedding; the key sets are exact |
| `Sections.SectionIdsDistinct` | api/Python/Utilities/cogSearch.py:118-136 | the ids yielded by one call are pairwise distinct |
| `Schemas.SchemaFor` | api/Python/Utilities/cogSearch.py:46-108 | exactly the two known types have a schema; it has the requested name and `mySemanticConfig`, and vector algorithms iff the type is `cogsearchvs` |
| `Schemas.KbSchema` | api/Python/Utilities/cogSearch.py:277-317 | the KB index has the requested name and `indexType` and `indexName` among its fields, and no semantic configuration |
| `Schemas.PlainSectionFitsSchema` | api/Python/Utilities/cogSearch.py:94-99 | every key of a `cogsearch` record is a field of the `cogsearch` schema |
| `Schemas.VectorSectionMissesSchema` | api/Python/Utilities/cogSearch.py:51-56 | a `cogsearchvs` record has `contentVector` and `sourcefile` keys that its schema lacks, while the schema's vector field is `content_vector` |
| `Service.SearchService.CreateIndex` | api/Python/Utilities/cogSearch.py:110-114 | a creation is logged; the name is added iff the service accepts it, and it is never accepted for a name already present |
| `Service.SearchService.DeleteIndex` | api/Python/Utilities/cogSearch.py:37 | the name is removed and the call is logged |
| `Service.SearchService.Write` | api/Python/Utilities/cogSearch.py:160 | a write is logged with its index, call and batch, and returns one result per document, which the service's answer log records |
| `Batching.FullBatchesSizes` | api/Python/Utilities/cogSearch.py:154-163 | an input of length L has floor(L/1000) full batches, each of exactly 1000 records |
| `Batching.RemainderSize` | api/Python/Utilities/cogSearch.py:165 | the buffer left at the end is the last L mod 1000 records, so it is empty iff 1000 divides L |
| `Batching.BufferStep` | api/Python/Utilities/cogSearch.py:156-163 | one more record closes a full batch (the buffer plus the record) and empties the buffer iff the count becomes a multiple of 1000; otherwise it joins the buffer |
| `Batching.PrefixStep` | api/Python/Utilities/cogSearch.py:359-366 | the same step, stated for the prefixes of the input that the loop walks through |
| `Batching.FullBatchesThenRemainder` | api/Python/Utilities/cogSearch.py:154-168 | the full batches followed by the final buffer are the input |
| `Batching.BatchesPartition` | api/Python/Utilities/cogSearch.py:357-371 | the batches written concatenate to the input; there are ceil(L/1000) of them, none empty, all but the last of 1000, the last of L mod 1000 (1000 when divisible) |
| `Batching.CountSucceeded` | api/Python/Utilities/cogSearch.py:161 | the succeeded count is at most the number of results, and equal to it iff every result succeeded |
| `Ingestion.ReportsMatchAppend` | api/Python/Utilities/cogSearch.py:160-162 | appending one write's answer and the report counting it keeps one answer and one report per batch, each report counting its answer's `succeeded` flags |
| `Ingestion.ReportOf` | api/Python/Utilities/cogSearch.py:161-162 | the report of a write attempts `len(results)` and counts at most that many successes, all of them iff every result succeeded |
| `Ingestion.ReportsMatchBounds` | api/Python/Utilities/cogSearch.py:160-162 | every report of a matching log attempts its whole batch and counts at most that many successes |
| `Ingestion.Flush` | api/Python/Utilities/cogSearch.py:160-162 | one write of the buffer, logged, whose report is `len(results)` and the number of results flagged `succeeded` in the service's answer |
| `Ingestion.SendFullBatches` | api/Python/Utilities/cogSearch.py:154-163 | the loop writes exactly the full batches of the input, in order, through the given call, one report each counting the `succeeded` flags of that write's answer, and leaves the remainder in the buffer |
| `Ingestion.IndexDocs` | api/Python/Utilities/cogSearch.py:349-371 | `indexDocs` writes exactly the batches of the input, all through `upload_documents`, with one report per batch counting the `succeeded` flags the service answered for it |
| `Ingestion.IndexSections` | api/Python/Utilities/cogSearch.py:138-168 | `indexSections` writes the full batches of the generated records through `index_documents`, then the remainder through `upload_documents` unless the generator raised, with one report per write counting the service's `succeeded` flags, and reports the generator's exception |
| `Ingestion.IndexSectionsWritesAll` | api/Python/Utilities/cogSearch.py:154-168 | without a generator failure, the batches written are the partition of the records, they concatenate back to the records, and only the last call (present iff L mod 1000 ≠ 0) uses `upload_documents` |
| `Ingestion.SentAppend` | api/Python/Utilities/cogSearch.py:156-168 | writing two runs of batches logs the calls of the first, then those of the second |
| `Ingestion.BatchesOfAppend` | api/Python/Utilities/cogSearch.py:156-168 | the batches carried by two runs of calls are those of the first, then those of the second |
| `Ingestion.BatchesOfSent` | api/Python/Utilities/cogSearch.py:156-163 | the calls made for a list of batches carry exactly those batches, in order |
| `Ingestion.SentCalls` | api/Python/Utilities/cogSearch.py:160 | the calls made for a list of batches are one per batch, each through the same SDK call and to the same index |
| `IndexManagement.DeleteSearchIndex` | api/Python/Utilities/cogSearch.py:30-39 | the name is absent afterwards and every other name is unchanged; a delete call is made iff the name was present |
| `IndexManagement.CreateIfAbsent` | api/Python/Utilities/cogSearch.py:46-116 | a listed name causes no call and no change; otherwise exactly one create call, which adds the name iff it succeeds |
| `IndexManagement.CreateSearchIndex` | api/Python/Utilities/cogSearch.py:41-116 | no create call when the name exists or the type is unknown; otherwise one create with the type's schema; no name other than `indexName` is ever added |
| `IndexManagement.CreateKbSearchIndex` | api/Python/Utilities/cogSearch.py:273-324 | the same create-if-absent step with the KB schema |
| `IndexManagement.CreateSearchIndexTwice` | api/Python/Utilities/cogSearch.py:46-114 | two calls in a row keep the earlier create log as a prefix and add at most two create calls, two only when the first failed; no two of the added calls both succeed, so the index is created at most once |
| `Queries.FallbackOnce` | api/Python/Utilities/cogSearch.py:191-208 | the plain search first uses `mySemanticConfig`; a second request is sent iff the first raised, and it differs only in using `default`; the result is that of the last request, so `None` iff every request raised |
| `Queries.FallbackRequestsArePlain` | api/Python/Utilities/cogSearch.py:192-208 | every plain-path request searches the question text in the named index, semantically, with no filter, no vector clause and `top = k` |
| `Queries.CogSearchDispatch` | api/Python/Utilities/cogSearch.py:170-211 | `cogsearchvs` sends one semantic search of the question in the named index, with no filter, `top` k and a vector clause on `content_vector` with k neighbours, or none if the embedding fails, and never falls back; `cogsearch` is the fallback search; any other type sends nothing and gives `None`; the result is always that of the last request |
| `Queries.SummaryQaDispatch` | api/Python/Utilities/cogSearch.py:213-242 | both known types get the same plain fallback search, with no vector clause; any other type sends nothing and gives `None` |
| `Queries.KbFilterTypeEnds` | api/Python/Utilities/cogSearch.py:337 | with no quote in the index type, the filter's first quote after the opening one ends the type, and both values can be read back out |
| `Queries.KbFilterInjective` | api/Python/Utilities/cogSearch.py:337 | with no quote in either index type, equal filters mean equal type and name |
| `Queries.KbFilterAmbiguousWithQuotes` | api/Python/Utilities/cogSearch.py:337 | nothing is escaped, so a name containing the quoted separator gives the same filter as a different (type, name) pair |
| `Queries.PerformKbCogVectorSearch` | api/Python/Utilities/cogSearch.py:326-347 | the KB index is created if absent before the search, a failed creation does not stop the search, the one request is the filtered vector search on the KB index, and the result is `None` iff it raised |

## Left out

- Credentials, clients and endpoints (`ClientSecretCredential`, `SearchIndexClient`, `SearchClient`):
  these are connection plumbing, replaced by the `SearchService` object.
- `generateKbEmbeddings` and the imported `generateEmbeddings`: these are network calls behind a retry
  decorator with random back-off. Only their outcome is modelled (`Documents.Embedder`: a vector, or
  `None` when the call raised). Retry timing is not modelled.
- Embedding values, HNSW parameters, analyzers, field types and prioritised semantic fields: these are
  data or configuration handed to the service. Schemas keep only field, algorithm, profile and
  configuration names.
- Ranking, captions, answers and total counts: these are the service's behaviour. A search result is
  an opaque list of records.
- `logging` and `print` output, including the per-batch "Indexed … succeeded" lines. The values they
  would print are the `Ingestion.Report`s.
- Queries.Searcher: the oracle does not see the service's index names, so a search of a missing index
  is only as likely to raise as the oracle says. The SDK's search returns a lazy pager. The model
  treats the outcome as known when the call is made.
- Service.SearchService.Write: a write that raises is not modelled; every write returns one result per
  document. In the source, such an exception would escape `indexSections` and `indexDocs`. Whether
  `index_documents` accepts a plain list, as `indexSections` passes it, is up to the SDK, which is not
  part of this model.
- Service.SearchService.DeleteIndex: a delete that raises, and a failure of `list_index_names`, are
  not modelled. In the source both would escape.
- Documents.Embedder: the provider is a function of the text, so two chunks with equal text always
  get the same outcome. The real call can fail on one of them and succeed on the other (a transient
  error), which the model does not capture.
- Queries.PerformCogSearch: the default `returnFields=["id", "content", "metadata"]` of
  `performCogSearch`, `performSummaryQaCogSearch` and `performKbCogVectorSearch` has no counterpart.
  In the model, the field list is always an explicit argument.
- `IndexManagement.CreateSearchIndexTwice` is not a function of the source. It composes two
  `createSearchIndex` calls to state the create-at-most-once property.
