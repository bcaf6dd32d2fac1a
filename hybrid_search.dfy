/** `search_text` and `search_image`: two-stage fusion of a document source
    and a map source.  Each source is over-fetched at twice the limit,
    converted, cut at its own absolute floor and standardised on its own; the
    two lists are concatenated in a fixed order, cut at the relative
    threshold 0, stably sorted by descending score and truncated. */
module HybridSearch {
  import opened Outcomes
  import opened QdrantModels
  import opened Schema
  import opened Stats
  import opened FilterTranslation
  import opened HitMapping
  import opened ScoreNormalization
  import opened Ranking

  const MapCollection := "venice_historical_map"
  const DocCollection := "venice_historical_text"

  /** Absolute floors of the text search. */
  const DocMinScore: real := 0.45
  const MapMinScore: real := 0.18
  /** Absolute floors of the image search. */
  const MapImageMinScore: real := 0.40
  const DocImageMinScore: real := 0.22
  /** Relative threshold on standardised scores. */
  const ZScoreThreshold: real := 0.0

  /** What the service calls but does not compute, as total functions; `None`
      stands for a call that raises.  `sqrt` is the square root numpy's
      standard deviation uses. */
  datatype Backends = Backends(
    textEncoder: string -> Option<Vector>,
    peTextEncoder: string -> Option<Vector>,
    imageEncoder: seq<bv8> -> Option<Vector>,
    store: QueryRequest -> Option<seq<Entry>>,
    sqrt: real -> real)

  /** One source's `query_points` call: twice the requested limit, the whole
      payload, no score threshold, default search parameters. */
  function OverFetch(collection: string, vector: Vector, using: Option<string>, filter: Option<Filter>, limit: int)
    : (r: QueryRequest)
    ensures r.limit == 2 * limit
    ensures r.collection == collection && r.query == vector && r.using == using && r.queryFilter == filter
    ensures r.withPayload == AllPayload && r.scoreThreshold.None? && r.searchParams.None?
  {
    QueryRequest(collection, vector, using, filter, limit * 2, AllPayload, None, None)
  }

  /** The converted answer of one source, or `None` when the encoder, the
      store or the conversion raises. */
  function Fetched(b: Backends, vector: Option<Vector>, request: Vector -> QueryRequest, kind: Kind, defaultContent: string)
    : Option<seq<ResultItem>>
  {
    if vector.None? then None
    else
      var hits := b.store(request(vector.value));
      if hits.None? then None else Convert(hits.value, kind, defaultContent)
  }

  /** One `try` block: the answer above the source's floor, or nothing when
      anything in the block raises. */
  function SourceResults(fetched: Option<seq<ResultItem>>, floor: real): (r: seq<ResultItem>)
    ensures fetched.None? ==> r == []
    ensures forall x :: x in r <==> fetched.Some? && x in fetched.value && x.score > floor
  {
    if fetched.None? then [] else AboveFloor(fetched.value, floor)
  }

  /** The fusion stage shared by both searches. */
  function Fuse(first: seq<ResultItem>, second: seq<ResultItem>, limit: int, sqrt: real -> real): seq<ResultItem> {
    Take(SortDesc(AboveFloor(Normalized(first, sqrt) + Normalized(second, sqrt), ZScoreThreshold)), limit)
  }

  function DocTextFetch(b: Backends, query: string, limit: int, filter: Option<Filter>): Option<seq<ResultItem>> {
    Fetched(b, b.textEncoder(query), v => OverFetch(DocCollection, v, Some("text_vector"), filter, limit), Document, "")
  }

  function MapTextFetch(b: Backends, query: string, limit: int, filter: Option<Filter>): Option<seq<ResultItem>> {
    Fetched(b, b.peTextEncoder(query), v => OverFetch(MapCollection, v, None, filter, limit), MapTile, "Map Fragment")
  }

  /** `search_text`: documents first, then maps. */
  function TextSearch(b: Backends, query: string, limit: int, filters: Option<SearchFilters>): seq<ResultItem> {
    var filter := BuildQdrantFilters(filters);
    var docs := SourceResults(DocTextFetch(b, query, limit, filter), DocMinScore);
    var maps := SourceResults(MapTextFetch(b, query, limit, filter), MapMinScore);
    Fuse(docs, maps, limit, b.sqrt)
  }

  function MapImageFetch(b: Backends, vector: Vector, limit: int): Option<seq<ResultItem>> {
    Fetched(b, Some(vector), v => OverFetch(MapCollection, v, None, None, limit), MapTile, "Visual Match")
  }

  function DocImageFetch(b: Backends, vector: Vector, limit: int): Option<seq<ResultItem>> {
    Fetched(b, Some(vector), v => OverFetch(DocCollection, v, Some("pe_vector"), None, limit), Document, "")
  }

  /** `search_image`: an image that cannot be decoded or encoded is an error;
      otherwise maps first, then documents. */
  function ImageSearch(b: Backends, image: seq<bv8>, limit: int): Result<seq<ResultItem>> {
    var vector := b.imageEncoder(image);
    if vector.None? then Failure("Invalid image")
    else
      var maps := SourceResults(MapImageFetch(b, vector.value, limit), MapImageMinScore);
      var docs := SourceResults(DocImageFetch(b, vector.value, limit), DocImageMinScore);
      Success(Fuse(maps, docs, limit, b.sqrt))
  }

  /** Every fused item is an item of one of the two lists with only its score
      changed, and that score is positive. */
  lemma FuseProvenance(first: seq<ResultItem>, second: seq<ResultItem>, limit: int, sqrt: real -> real)
    ensures forall x :: x in Fuse(first, second, limit, sqrt) ==>
      && x.score > ZScoreThreshold
      && ((exists i :: 0 <= i < |first| && SameButScore(x, first[i])) ||
          (exists j :: 0 <= j < |second| && SameButScore(x, second[j])))
  {
    var n1 := Normalized(first, sqrt);
    var n2 := Normalized(second, sqrt);
    var kept := AboveFloor(n1 + n2, ZScoreThreshold);
    SortDescPermutation(kept);
    NormalizedShape(first, sqrt);
    NormalizedShape(second, sqrt);
    forall x | x in Fuse(first, second, limit, sqrt)
      ensures x.score > ZScoreThreshold
      ensures (exists i :: 0 <= i < |first| && SameButScore(x, first[i])) ||
              (exists j :: 0 <= j < |second| && SameButScore(x, second[j]))
    {
      assert x in SortDesc(kept);
      assert x in multiset(SortDesc(kept));
      assert x in kept;
      if x in n1 {
        var i :| 0 <= i < |n1| && n1[i] == x;
        assert SameButScore(x, first[i]);
      } else {
        var j :| 0 <= j < |n2| && n2[j] == x;
        assert SameButScore(x, second[j]);
      }
    }
  }

  /** The fused list is sorted by non-increasing score and holds at most
      `limit` items (for a non-negative limit) and at most as many as the two
      lists together. */
  lemma FuseOrderAndSize(first: seq<ResultItem>, second: seq<ResultItem>, limit: int, sqrt: real -> real)
    ensures SortedDesc(Fuse(first, second, limit, sqrt))
    ensures limit >= 0 ==> |Fuse(first, second, limit, sqrt)| <= limit
    ensures |Fuse(first, second, limit, sqrt)| <= |first| + |second|
  {
    var kept := AboveFloor(Normalized(first, sqrt) + Normalized(second, sqrt), ZScoreThreshold);
    SortDescSorted(kept);
    SortDescPermutation(kept);
    NormalizedShape(first, sqrt);
    NormalizedShape(second, sqrt);
    TakeKeepsOrder(SortDesc(kept), limit, 0.0);
  }

  /** Among items of equal (standardised) score, every item of the first list
      precedes every item of the second, and each list keeps its own order:
      the tie class in the output is a prefix of the first list's tie class
      followed by the second's. */
  lemma FuseTieOrder(first: seq<ResultItem>, second: seq<ResultItem>, limit: int, sqrt: real -> real, v: real)
    ensures WithScore(Fuse(first, second, limit, sqrt), v)
         <= WithScore(Normalized(first, sqrt), v) + WithScore(Normalized(second, sqrt), v)
  {
    var all := Normalized(first, sqrt) + Normalized(second, sqrt);
    var kept := AboveFloor(all, ZScoreThreshold);
    WithScorePrefix(Take(SortDesc(kept), limit), SortDesc(kept), v);
    SortDescStable(kept, v);
    AboveFloorWithScore(all, ZScoreThreshold, v);
    WithScoreAppend(Normalized(first, sqrt), Normalized(second, sqrt), v);
  }

  /** An empty list contributes nothing: the fusion is then made of the other
      list's items alone. */
  lemma FuseWithEmpty(first: seq<ResultItem>, second: seq<ResultItem>, limit: int, sqrt: real -> real)
    ensures first == [] ==> forall x :: x in Fuse(first, second, limit, sqrt) ==>
              exists j :: 0 <= j < |second| && SameButScore(x, second[j])
    ensures second == [] ==> forall x :: x in Fuse(first, second, limit, sqrt) ==>
              exists i :: 0 <= i < |first| && SameButScore(x, first[i])
  {
    FuseProvenance(first, second, limit, sqrt);
  }

  /** What `search_text` promises: a sorted list of at most `limit` items
      with positive standardised scores, each one a document whose raw score
      beat 0.45 or a map tile whose raw score beat 0.18, carried over from the
      source's converted answer with only its score changed. */
  lemma TextSearchGuarantees(b: Backends, query: string, limit: int, filters: Option<SearchFilters>)
    ensures var r := TextSearch(b, query, limit, filters);
      && SortedDesc(r)
      && (limit >= 0 ==> |r| <= limit)
      && forall x :: x in r ==> x.score > 0.0
    ensures var filter := BuildQdrantFilters(filters);
      var docs := DocTextFetch(b, query, limit, filter);
      var maps := MapTextFetch(b, query, limit, filter);
      forall x :: x in TextSearch(b, query, limit, filters) ==>
        || (docs.Some? && exists y :: y in docs.value && y.score > DocMinScore && SameButScore(x, y))
        || (maps.Some? && exists y :: y in maps.value && y.score > MapMinScore && SameButScore(x, y))
  {
    var filter := BuildQdrantFilters(filters);
    var docs := SourceResults(DocTextFetch(b, query, limit, filter), DocMinScore);
    var maps := SourceResults(MapTextFetch(b, query, limit, filter), MapMinScore);
    FuseOrderAndSize(docs, maps, limit, b.sqrt);
    FuseProvenance(docs, maps, limit, b.sqrt);
    forall x | x in TextSearch(b, query, limit, filters)
      ensures || (DocTextFetch(b, query, limit, filter).Some? &&
                  exists y :: y in DocTextFetch(b, query, limit, filter).value && y.score > DocMinScore && SameButScore(x, y))
              || (MapTextFetch(b, query, limit, filter).Some? &&
                  exists y :: y in MapTextFetch(b, query, limit, filter).value && y.score > MapMinScore && SameButScore(x, y))
    {
      if exists i :: 0 <= i < |docs| && SameButScore(x, docs[i]) {
        var i :| 0 <= i < |docs| && SameButScore(x, docs[i]);
        assert docs[i] in docs;
      } else {
        var j :| 0 <= j < |maps| && SameButScore(x, maps[j]);
        assert maps[j] in maps;
      }
    }
  }

  /** Each item keeps its kind through the fusion, so when the document
      source fails only map tiles come back, and the other way round. */
  lemma TextSearchSourceFailure(b: Backends, query: string, limit: int, filters: Option<SearchFilters>)
    ensures DocTextFetch(b, query, limit, BuildQdrantFilters(filters)).None? ==>
      forall x :: x in TextSearch(b, query, limit, filters) ==> x.kind == MapTile
    ensures MapTextFetch(b, query, limit, BuildQdrantFilters(filters)).None? ==>
      forall x :: x in TextSearch(b, query, limit, filters) ==> x.kind == Document
  {
    var filter := BuildQdrantFilters(filters);
    var docs := SourceResults(DocTextFetch(b, query, limit, filter), DocMinScore);
    var maps := SourceResults(MapTextFetch(b, query, limit, filter), MapMinScore);
    FuseProvenance(docs, maps, limit, b.sqrt);
    KindsOf(DocTextFetch(b, query, limit, filter), DocMinScore, Document, b, b.textEncoder(query),
            v => OverFetch(DocCollection, v, Some("text_vector"), filter, limit), "");
    KindsOf(MapTextFetch(b, query, limit, filter), MapMinScore, MapTile, b, b.peTextEncoder(query),
            v => OverFetch(MapCollection, v, None, filter, limit), "Map Fragment");
  }

  /** A source's results all carry the source's kind. */
  lemma KindsOf(fetched: Option<seq<ResultItem>>, floor: real, kind: Kind, b: Backends,
                vector: Option<Vector>, request: Vector -> QueryRequest, defaultContent: string)
    requires fetched == Fetched(b, vector, request, kind, defaultContent)
    ensures forall x :: x in SourceResults(fetched, floor) ==> x.kind == kind
  {
    if fetched.Some? {
      ConvertProvenance(b.store(request(vector.value)).value, kind, defaultContent);
    }
  }

  /** `search_image` fails exactly when the image cannot be decoded and
      encoded; otherwise its result is sorted, at most `limit` long and
      positive, and on equal scores map tiles come before documents.  The
      floors 0.40 and 0.22 are stated by `ImageSearchProvenance`. */
  lemma ImageSearchGuarantees(b: Backends, image: seq<bv8>, limit: int, v: real)
    ensures ImageSearch(b, image, limit).Failure? <==> b.imageEncoder(image).None?
    ensures ImageSearch(b, image, limit).Success? ==>
      var vector := b.imageEncoder(image).value;
      var maps := SourceResults(MapImageFetch(b, vector, limit), MapImageMinScore);
      var docs := SourceResults(DocImageFetch(b, vector, limit), DocImageMinScore);
      var r := ImageSearch(b, image, limit).value;
      && SortedDesc(r)
      && (limit >= 0 ==> |r| <= limit)
      && (forall x :: x in r ==> x.score > 0.0)
      && WithScore(r, v) <= WithScore(Normalized(maps, b.sqrt), v) + WithScore(Normalized(docs, b.sqrt), v)
  {
    if b.imageEncoder(image).Some? {
      var vector := b.imageEncoder(image).value;
      var maps := SourceResults(MapImageFetch(b, vector, limit), MapImageMinScore);
      var docs := SourceResults(DocImageFetch(b, vector, limit), DocImageMinScore);
      FuseOrderAndSize(maps, docs, limit, b.sqrt);
      FuseProvenance(maps, docs, limit, b.sqrt);
      FuseTieOrder(maps, docs, limit, b.sqrt, v);
    }
  }

  /** Every item of a successful image search is a map tile whose raw score
      beat 0.40 or a document whose raw score beat 0.22, carried over from
      its source's converted answer with only its score changed. */
  lemma ImageSearchProvenance(b: Backends, image: seq<bv8>, limit: int)
    ensures ImageSearch(b, image, limit).Success? ==>
      var vector := b.imageEncoder(image).value;
      var maps := MapImageFetch(b, vector, limit);
      var docs := DocImageFetch(b, vector, limit);
      forall x :: x in ImageSearch(b, image, limit).value ==>
        || (maps.Some? && exists y :: y in maps.value && y.score > MapImageMinScore && SameButScore(x, y))
        || (docs.Some? && exists y :: y in docs.value && y.score > DocImageMinScore && SameButScore(x, y))
  {
    if b.imageEncoder(image).Some? {
      var vector := b.imageEncoder(image).value;
      var mapsFetch := MapImageFetch(b, vector, limit);
      var docsFetch := DocImageFetch(b, vector, limit);
      var maps := SourceResults(mapsFetch, MapImageMinScore);
      var docs := SourceResults(docsFetch, DocImageMinScore);
      FuseProvenance(maps, docs, limit, b.sqrt);
      forall x | x in ImageSearch(b, image, limit).value
        ensures || (mapsFetch.Some? && exists y :: y in mapsFetch.value && y.score > MapImageMinScore && SameButScore(x, y))
                || (docsFetch.Some? && exists y :: y in docsFetch.value && y.score > DocImageMinScore && SameButScore(x, y))
      {
        if exists i :: 0 <= i < |maps| && SameButScore(x, maps[i]) {
          var i :| 0 <= i < |maps| && SameButScore(x, maps[i]);
          assert maps[i] in maps;
        } else {
          var j :| 0 <= j < |docs| && SameButScore(x, docs[j]);
          assert docs[j] in docs;
        }
      }
    }
  }

  /** A fresh array holding `s`. */
  method ToArray(s: seq<ResultItem>) returns (a: array<ResultItem>)
    ensures fresh(a) && a[..] == s
  {
    a := new ResultItem[|s|](i requires 0 <= i < |s| => s[i]);
  }

  /** The fusion stage, with the in-place normalisation and the in-place sort. */
  method FuseResults(first: seq<ResultItem>, second: seq<ResultItem>, limit: int, sqrt: real -> real)
    returns (r: seq<ResultItem>)
    ensures r == Fuse(first, second, limit, sqrt)
  {
    var firstArray := ToArray(first);
    if firstArray.Length > 0 {
      NormalizeScores(firstArray, sqrt);
    }
    var secondArray := ToArray(second);
    if secondArray.Length > 0 {
      NormalizeScores(secondArray, sqrt);
    }
    var all := firstArray[..] + secondArray[..];
    var finalResults := ToArray(AboveFloor(all, ZScoreThreshold));
    SortByScoreDesc(finalResults);
    r := Take(finalResults[..], limit);
  }

  /** One source's `try` block as statements. */
  method RunSource(b: Backends, vector: Option<Vector>, request: Vector -> QueryRequest, kind: Kind,
                   defaultContent: string, floor: real)
    returns (r: seq<ResultItem>)
    ensures r == SourceResults(Fetched(b, vector, request, kind, defaultContent), floor)
  {
    r := [];
    if vector.None? {
      return;
    }
    var hits := b.store(request(vector.value));
    if hits.None? {
      return;
    }
    var raw := HitsToResults(hits.value, kind, defaultContent);
    if raw.Some? {
      r := AboveFloor(raw.value, floor);
    }
  }

  /** `search_text`; `threshold` is accepted and ignored. */
  method SearchText(b: Backends, query: string, limit: int, threshold: real, filters: Option<SearchFilters>)
    returns (r: seq<ResultItem>)
    ensures r == TextSearch(b, query, limit, filters)
  {
    var qFilter := BuildQdrantFilters(filters);
    var docResults := RunSource(b, b.textEncoder(query),
      v => OverFetch(DocCollection, v, Some("text_vector"), qFilter, limit), Document, "", DocMinScore);
    var mapResults := RunSource(b, b.peTextEncoder(query),
      v => OverFetch(MapCollection, v, None, qFilter, limit), MapTile, "Map Fragment", MapMinScore);
    r := FuseResults(docResults, mapResults, limit, b.sqrt);
  }

  /** `search_image`; `threshold` is accepted and ignored. */
  method SearchImage(b: Backends, image: seq<bv8>, limit: int, threshold: real)
    returns (r: Result<seq<ResultItem>>)
    ensures r == ImageSearch(b, image, limit)
  {
    var vector := b.imageEncoder(image);
    if vector.None? {
      return Failure("Invalid image");
    }
    var mapResults := RunSource(b, vector,
      v => OverFetch(MapCollection, v, None, None, limit), MapTile, "Visual Match", MapImageMinScore);
    var docResults := RunSource(b, vector,
      v => OverFetch(DocCollection, v, Some("pe_vector"), None, limit), Document, "", DocImageMinScore);
    var fused := FuseResults(mapResults, docResults, limit, b.sqrt);
    r := Success(fused);
  }
}
