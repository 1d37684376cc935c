/** Query dispatch (`performCogSearch`, `performSummaryQaCogSearch`,
    `performKbCogVectorSearch`). The search service is an oracle that either
    returns the matching documents or raises; a dispatch records every
    request it sent, in order, and what it returns. None of these
    operations raises: every failure ends in `None`. */
module Queries {
  import opened Documents
  import opened Schemas
  import opened Service
  import IndexManagement

  /** One vector clause of a request: the query vector, how many nearest
      neighbours to take, and the vector field to compare against. */
  datatype VectorQuery = VectorQuery(vector: Embedding, kNearest: int, field: string)

  /** The keyword arguments of one `search` call that the module sets; a
      `None` or an empty list is an argument the call leaves out. */
  datatype SearchRequest = SearchRequest(
    index: string,
    searchText: string,
    filter: Option<string>,
    vectorQueries: seq<VectorQuery>,
    select: Option<seq<string>>,
    semanticQuery: bool,
    speller: Option<string>,
    semanticConfig: string,
    caption: Option<string>,
    answer: Option<string>,
    includeTotalCount: bool,
    top: Option<int>)

  /** What the service does with a request: return documents, or raise. */
  datatype SearchOutcome = Returned(documents: seq<Record>) | Raised

  type Searcher = SearchRequest -> SearchOutcome

  /** The requests a query operation sent, in order, and its return value. */
  datatype Dispatch = Dispatch(attempts: seq<SearchRequest>, result: Option<seq<Record>>)

  /** The result of the last request, or `None` when it raised. */
  function Settle(search: Searcher, request: SearchRequest): (r: Option<seq<Record>>)
    ensures r.Some? <==> search(request).Returned?
    ensures r.Some? ==> search(request) == Returned(r.value)
  {
    match search(request)
    case Returned(documents) => Some(documents)
    case Raised => None
  }

  /** The semantic text search of the plain path, under semantic
      configuration `config`. */
  function SemanticRequest(indexName: string, question: string, k: int, config: string): SearchRequest {
    SearchRequest(indexName, question, None, [], None, true, Some("lexicon"), config,
                  Some("extractive|highlight-false"), None, false, Some(k))
  }

  /** The hybrid text and vector search of a "cogsearchvs" index. */
  function VectorRequest(indexName: string, question: string, vector: Embedding, k: int,
                         returnFields: seq<string>): SearchRequest {
    SearchRequest(indexName, question, None, [VectorQuery(vector, k, ContentVectorField)],
                  Some(returnFields), true, None, PrimaryConfig,
                  Some("extractive"), Some("extractive"), true, Some(k))
  }

  /** Search under "mySemanticConfig"; if that raises, search once more
      under "default" and settle on that outcome. */
  function SemanticWithFallback(search: Searcher, indexName: string, question: string, k: int): Dispatch {
    var first := SemanticRequest(indexName, question, k, PrimaryConfig);
    match search(first)
    case Returned(documents) => Dispatch([first], Some(documents))
    case Raised =>
      var second := SemanticRequest(indexName, question, k, FallbackConfig);
      Dispatch([first, second], Settle(search, second))
  }

  /** `performCogSearch`. A "cogsearchvs" index gets one hybrid search whose
      vector is the question's embedding (no search at all when the
      embedding call raises); a "cogsearch" index gets the semantic search
      with fallback; any other type leaves the result unbound, which the
      source catches, so nothing is searched and the result is `None`. */
  function PerformCogSearch(search: Searcher, embed: Embedder, indexType: string, question: string,
                            indexName: string, k: int, returnFields: seq<string>): Dispatch {
    if indexType == CogSearchVs then
      match embed(question)
      case None => Dispatch([], None)
      case Some(vector) =>
        var request := VectorRequest(indexName, question, vector, k, returnFields);
        Dispatch([request], Settle(search, request))
    else if indexType == CogSearch then
      SemanticWithFallback(search, indexName, question, k)
    else
      Dispatch([], None)
  }

  /** `performSummaryQaCogSearch`: both known types get the semantic search
      with fallback, without a vector clause; any other type gives `None`. */
  function PerformSummaryQaCogSearch(search: Searcher, indexType: string, question: string,
                                     indexName: string, k: int): Dispatch {
    if indexType == CogSearch || indexType == CogSearchVs then
      SemanticWithFallback(search, indexName, question, k)
    else
      Dispatch([], None)
  }

  /** A dispatch returns documents exactly when its last request returned
      them, and `None` when it sent nothing. */
  predicate SettlesOnLast(search: Searcher, d: Dispatch) {
    && (d.attempts == [] ==> d.result.None?)
    && (d.attempts != [] ==> d.result == Settle(search, d.attempts[|d.attempts| - 1]))
  }

  /** The fallback: the first request uses "mySemanticConfig"; a second is
      sent iff the first raised, and it is the first with "default" in its
      place; the result is that of the last request sent, so `None` iff
      every request raised. */
  lemma FallbackOnce(search: Searcher, indexName: string, question: string, k: int)
    ensures var d := SemanticWithFallback(search, indexName, question, k);
      && 1 <= |d.attempts| <= 2
      && d.attempts[0] == SemanticRequest(indexName, question, k, PrimaryConfig)
      && (|d.attempts| == 2 <==> search(d.attempts[0]).Raised?)
      && (|d.attempts| == 2 ==> d.attempts[1] == d.attempts[0].(semanticConfig := FallbackConfig))
      && SettlesOnLast(search, d)
      && (d.result.None? <==> forall a :: a in d.attempts ==> search(a).Raised?)
  {
  }

  /** Every request of the plain path is a semantic text search of the
      question in the named index, with no filter and no vector clause. */
  lemma FallbackRequestsArePlain(search: Searcher, indexName: string, question: string, k: int)
    ensures forall a :: a in SemanticWithFallback(search, indexName, question, k).attempts ==>
      && a.index == indexName && a.searchText == question && a.filter.None?
      && a.vectorQueries == [] && a.semanticQuery && a.top == Some(k)
      && a.semanticConfig in {PrimaryConfig, FallbackConfig}
  {
  }

  /** `performCogSearch` per type: "cogsearchvs" sends at most one request,
      a semantic and vector search of the question in the named index, with
      no filter, `top` k and the vector clause on "content_vector", and never falls
      back; "cogsearch" is the fallback search; an unknown type sends
      nothing and gives `None`. In every case the result settles on the
      last request. */
  lemma CogSearchDispatch(search: Searcher, embed: Embedder, indexType: string, question: string,
                          indexName: string, k: int, returnFields: seq<string>)
    ensures var d := PerformCogSearch(search, embed, indexType, question, indexName, k, returnFields);
      && SettlesOnLast(search, d)
      && (indexType == CogSearchVs ==>
            && |d.attempts| == (if embed(question).Some? then 1 else 0)
            && forall a :: a in d.attempts ==>
                 && a.index == indexName && a.searchText == question && a.filter.None?
                 && a.semanticQuery && a.top == Some(k) && a.includeTotalCount
                 && a.vectorQueries == [VectorQuery(embed(question).value, k, ContentVectorField)]
                 && a.semanticConfig == PrimaryConfig && a.select == Some(returnFields))
      && (indexType == CogSearch ==> d == SemanticWithFallback(search, indexName, question, k))
      && (indexType != CogSearch && indexType != CogSearchVs ==> d == Dispatch([], None))
  {
    FallbackOnce(search, indexName, question, k);
  }

  /** `performSummaryQaCogSearch` treats both known types as the plain
      fallback search, so its answer does not depend on which of them the
      index is; an unknown type gives `None` without a request. */
  lemma SummaryQaDispatch(search: Searcher, indexType: string, question: string, indexName: string, k: int)
    ensures var d := PerformSummaryQaCogSearch(search, indexType, question, indexName, k);
      && SettlesOnLast(search, d)
      && (indexType == CogSearch || indexType == CogSearchVs ==>
            d == PerformSummaryQaCogSearch(search, CogSearch, question, indexName, k)
            && forall a :: a in d.attempts ==> a.vectorQueries == [])
      && (indexType != CogSearch && indexType != CogSearchVs ==> d == Dispatch([], None))
  {
    FallbackOnce(search, indexName, question, k);
    FallbackRequestsArePlain(search, indexName, question, k);
  }

  /** The knowledge-base filter, built by plain concatenation. */
  function KbFilter(indexType: string, indexName: string): string {
    "indexType eq '" + indexType + "' and indexName eq '" + indexName + "'"
  }

  /** Without a quote in the index type, the first quote after the opening
      one closes the type. */
  lemma KbFilterTypeEnds(t: string, n: string)
    requires '\'' !in t
    ensures var f := KbFilter(t, n);
      && f[14 + |t|] == '\''
      && f[14..14 + |t|] == t
      && f[14 + |t| + 20..|f| - 1] == n
      && forall i :: 14 <= i < 14 + |t| ==> f[i] != '\''
  {
    var f := KbFilter(t, n);
    assert f == "indexType eq '" + t + "' and indexName eq '" + n + "'";
    assert |"indexType eq '"| == 14 && |"' and indexName eq '"| == 20;
    forall i | 14 <= i < 14 + |t|
      ensures f[i] != '\''
    {
      assert f[i] == t[i - 14];
    }
  }

  /** Without a quote in the index type, the filter determines both values. */
  lemma KbFilterInjective(t1: string, n1: string, t2: string, n2: string)
    requires '\'' !in t1 && '\'' !in t2
    requires KbFilter(t1, n1) == KbFilter(t2, n2)
    ensures t1 == t2 && n1 == n2
  {
    KbFilterTypeEnds(t1, n1);
    KbFilterTypeEnds(t2, n2);
    assert |t1| == |t2|;
  }

  /** Since nothing is escaped, any value may carry the text that separates
      the two conditions, so every pair (a, b + sep + c) gives the same filter
      as the different pair (a + sep + b, c). */
  lemma KbFilterAmbiguousWithQuotes(a: string, b: string, c: string)
    ensures var sep := "' and indexName eq '";
      && KbFilter(a, b + sep + c) == KbFilter(a + sep + b, c)
      && a != a + sep + b
  {
    var p, sep, q := "indexType eq '", "' and indexName eq '", "'";
    assert KbFilter(a, b + sep + c) == p + a + sep + (b + sep + c) + q;
    assert KbFilter(a + sep + b, c) == p + (a + sep + b) + sep + c + q;
    assert |a + sep + b| > |a|;
  }

  /** The vector search of the knowledge-base index: an empty search text,
      the caller's vector and field, the filter, and "mySemanticConfig"
      without a semantic query type or a top limit. */
  function KbRequest(kbIndexName: string, indexType: string, indexName: string, embedValue: Embedding,
                     embedField: string, k: int, returnFields: seq<string>): SearchRequest {
    SearchRequest(kbIndexName, "", Some(KbFilter(indexType, indexName)),
                  [VectorQuery(embedValue, k, embedField)], Some(returnFields), false, None,
                  PrimaryConfig, None, None, true, None)
  }

  /** `performKbCogVectorSearch`: make sure the knowledge-base index exists,
      then send one filtered vector search to it. A failed creation does not
      stop the search; a search that raises gives `None`. */
  method PerformKbCogVectorSearch(svc: SearchService, search: Searcher, embedValue: Embedding, embedField: string,
                                  indexType: string, indexName: string, kbIndexName: string, k: int,
                                  returnFields: seq<string>)
    returns (request: SearchRequest, result: Option<seq<Record>>)
    modifies svc`names, svc`creates
    ensures kbIndexName in old(svc.names) ==> svc.names == old(svc.names) && svc.creates == old(svc.creates)
    ensures kbIndexName !in old(svc.names) ==>
      CreatedOnce(old(svc.creates), svc.creates, old(svc.names), svc.names, KbSchema(kbIndexName))
    ensures request == KbRequest(kbIndexName, indexType, indexName, embedValue, embedField, k, returnFields)
    ensures request.index == kbIndexName && request.filter == Some(KbFilter(indexType, indexName))
    ensures result == Settle(search, request)
  {
    IndexManagement.CreateKbSearchIndex(svc, kbIndexName);
    request := KbRequest(kbIndexName, indexType, indexName, embedValue, embedField, k, returnFields);
    result := Settle(search, request);
  }
}
