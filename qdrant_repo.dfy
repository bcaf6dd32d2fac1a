/** `QdrantRepository`: the generic vector-search wrapper over the store.  It
    translates the front-end filters, chooses which payload fields come back,
    passes the limit, threshold and search parameters through, and turns any
    failure of the store call into an empty answer. */
module QdrantRepo {
  import opened Outcomes
  import opened QdrantModels
  import opened Schema
  import opened FilterTranslation

  /** Default keyword arguments of `search`. */
  const DefaultLimit := 10
  const DefaultScoreThreshold: real := 0.0
  const DefaultHnswEf := 32

  /** `_build_filters`: the repository's copy of the service's translation.
      It is `None` exactly when there is nothing to filter on, and the filter
      it builds admits exactly the payloads the front-end filters ask for. */
  function BuildFilters(filters: Option<SearchFilters>): (r: Option<Filter>)
    ensures r.None? <==> filters.None? || forall k :: 0 <= k < 4 ==> !Requested(filters.value, k)
    ensures forall p :: Matches(r, p) <==> Admits(filters, p)
  {
    var r := BuildQdrantFilters(filters);
    assert forall p :: Matches(r, p) <==> Admits(filters, p) by {
      forall p ensures Matches(r, p) <==> Admits(filters, p) {
        TranslationMeaning(filters, p);
      }
    }
    r
  }

  /** The payload selector: a non-empty inclusion list wins, a non-empty
      exclusion list applies only without one, and otherwise the whole
      payload comes back. */
  function PayloadSelectorFor(includeFields: Option<seq<string>>, excludeFields: Option<seq<string>>): (r: PayloadSelector)
    ensures r.Include? <==> includeFields.Some? && includeFields.value != []
    ensures r.Include? ==> r.included == includeFields.value
    ensures r.Exclude? <==> (includeFields.None? || includeFields.value == []) && excludeFields.Some? && excludeFields.value != []
    ensures r.Exclude? ==> r.excluded == excludeFields.value
  {
    if includeFields.Some? && includeFields.value != [] then Include(includeFields.value)
    else if excludeFields.Some? && excludeFields.value != [] then Exclude(excludeFields.value)
    else AllPayload
  }

  /** The keyword arguments `search` hands to `query_points`. */
  function SearchRequest(collection: string, vector: Vector, filters: Option<SearchFilters>, limit: int,
                         scoreThreshold: real, vectorName: string, includeFields: Option<seq<string>>,
                         excludeFields: Option<seq<string>>, hnswEf: int): (r: QueryRequest)
    ensures r.collection == collection && r.query == vector
    ensures r.using.Some? <==> vectorName != ""
    ensures r.using.Some? ==> r.using.value == vectorName
    ensures r.limit == limit && r.scoreThreshold == Some(scoreThreshold)
    ensures r.searchParams == Some(SearchParams(hnswEf, false))
    ensures r.withPayload == PayloadSelectorFor(includeFields, excludeFields)
    ensures r.queryFilter.None? <==> filters.None? || forall k :: 0 <= k < 4 ==> !Requested(filters.value, k)
    ensures forall p :: Matches(r.queryFilter, p) <==> Admits(filters, p)
  {
    QueryRequest(
      collection := collection,
      query := vector,
      using := if vectorName != "" then Some(vectorName) else None,
      queryFilter := BuildFilters(filters),
      limit := limit,
      withPayload := PayloadSelectorFor(includeFields, excludeFields),
      scoreThreshold := Some(scoreThreshold),
      searchParams := Some(SearchParams(hnswEf, false)))
  }

  /** `search`: the store's answer, or the empty answer when the call raises. */
  function Search(store: QueryRequest -> Option<seq<Entry>>, collection: string, vector: Vector,
                  filters: Option<SearchFilters>, limit: int, scoreThreshold: real, vectorName: string,
                  includeFields: Option<seq<string>>, excludeFields: Option<seq<string>>, hnswEf: int): (r: seq<Entry>)
    ensures var answer := store(SearchRequest(collection, vector, filters, limit, scoreThreshold, vectorName,
                                              includeFields, excludeFields, hnswEf));
      r == if answer.Some? then answer.value else []
  {
    var answer := store(SearchRequest(collection, vector, filters, limit, scoreThreshold, vectorName,
                                      includeFields, excludeFields, hnswEf));
    if answer.None? then [] else answer.value
  }

  /** With every keyword left at its default, the call filters nothing, uses
      the default vector, returns whole payloads, keeps hits scoring at least
      0.0 and asks for ten of them with `hnsw_ef` 32 and approximate search. */
  lemma DefaultRequest(collection: string, vector: Vector)
    ensures SearchRequest(collection, vector, None, DefaultLimit, DefaultScoreThreshold, "", None, None, DefaultHnswEf)
      == QueryRequest(collection, vector, None, None, 10, AllPayload, Some(0.0), Some(SearchParams(32, false)))
  {
  }

  /** A selector with both lists set ignores the exclusion list, and empty
      lists count as absent. */
  lemma SelectorPrecedence(includeFields: seq<string>, excludeFields: seq<string>)
    ensures includeFields != [] ==> PayloadSelectorFor(Some(includeFields), Some(excludeFields)) == Include(includeFields)
    ensures PayloadSelectorFor(Some([]), Some([])) == AllPayload
    ensures PayloadSelectorFor(Some([]), None) == PayloadSelectorFor(None, None)
  {
  }
}
