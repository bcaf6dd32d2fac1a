# Hybrid search fusion — a Dafny model

This project models the search core of a historical-atlas back end. Its
`SearchService` answers three kinds of request against two vector
collections: map tiles (`venice_historical_map`) and text documents
(`venice_historical_text`).

- **Text search** queries both collections.
  - Each source asks the store for twice the requested limit.
  - Each answer is turned into result records.
  - Each source keeps the hits above its own absolute floor: 0.45 for documents, 0.18 for maps.
  - Each source is standardised on its own with a Z-score (x − mean) / std.
  - The two lists are concatenated (documents first) and the items with a positive standardised score are kept.
  - The list is stably sorted by descending score and cut to the limit.
- **Image search** does the same with the floors 0.40 for maps and 0.22 for documents, maps first. An image that cannot be encoded is an error.
- **Heatmap** asks each collection for half the limit, with only the `location` field and a score threshold (0.35 for documents, 0.20 for maps). It emits one point per hit that has a location; map scores are weighted by 1.1.

The filter translation and the request assembly of `QdrantRepository` are
modelled as well.

What the service calls but does not compute is passed in as total functions in a `Backends` value, where `None` stands for a call that raises:

- the text encoder;
- the perception encoder, for both text and image;
- the store's `query_points`;
- the square root inside numpy's standard deviation.

Scores are mathematical reals.

Modules, one per concern:

| file | module | contents |
|---|---|---|
| outcomes.dfy | `Outcomes` | `Option`, `Result`, `Min`, `Max` |
| qdrant_models.dfy | `QdrantModels` | payload values, scored points, store entries, filter conditions and their meaning, the `query_points` request |
| schema.dfy | `Schema` | `SearchFilters`, `ResultItem`, `HeatmapPoint` |
| filter_translation.dfy | `FilterTranslation` | `_build_qdrant_filters` and its meaning |
| stats.dfy | `Stats` | sum, mean, population variance, standardisation algebra |
| score_normalization.dfy | `ScoreNormalization` | `_normalize_scores`, as a function and as an in-place method over an array |
| hit_mapping.dfy | `HitMapping` | `_hits_to_results`, as a function and as its loop |
| ranking.dfy | `Ranking` | score floors, the stable descending sort (function and in-place array method), `[:limit]` |
| hybrid_search.dfy | `HybridSearch` | `search_text`, `search_image` and the shared fusion stage |
| heatmap.dfy | `Heatmap` | `get_heatmap_data` |
| qdrant_repo.dfy | `QdrantRepo` | `QdrantRepository._build_filters` and `search` |

## Model

| member | source | states |
|---|---|---|
| FilterTranslation.ConditionFor | backend/app/service/search_service.py:1357-1373 | the condition a requested field yields: a lower year bound, an upper year bound, an exact `source_image` match, or a box whose top-left corner is (b[0], b[3]) and bottom-right corner is (b[2], b[1]) |
| FilterTranslation.ConditionsUpToShape | backend/app/service/search_service.py:1356-1373 | after the first k guarded appends, the list holds exactly the conditions of the requested fields among the first k, in field order |
| FilterTranslation.ConditionsShape | backend/app/service/search_service.py:1356-1374 | the condition list holds every requested field's condition and nothing unjustified, in field order; it is empty iff no field is requested |
| FilterTranslation.BuildQdrantFilters | backend/app/service/search_service.py:1351-1374 | `None` iff there are no filters or no field is requested: a year bound counts whenever it is present (0 included), a source only when non-empty, a box only with exactly four numbers; otherwise a conjunction in field order |
| FilterTranslation.JustifiedIsConditionFor | backend/app/service/search_service.py:1357-1373 | every condition the translation may emit is the condition of exactly one requested field |
| FilterTranslation.ConditionForMeaning | backend/app/service/search_service.py:1357-1373 | a payload satisfies a field's condition iff it meets what that front-end field asks for |
| FilterTranslation.TranslationMeaning | backend/app/service/search_service.py:1351-1374 | the built filter admits a payload iff the payload meets every requested front-end field, and admits everything when nothing is requested |
| FilterTranslation.BoxExample | backend/app/service/search_service.py:1364-1373 | the box [12, 45, 13, 46] becomes a single bounding-box condition with corners (13, 45) and (12, 46) |
| Stats.SquaredDeviationPositive | backend/app/service/search_service.py:1339 | the sum of squared deviations is non-negative, and positive once one value differs from the centre |
| Stats.VarianceZero | backend/app/service/search_service.py:1339-1343 | the population variance is non-negative, and zero iff all values are equal |
| Stats.Standardized | backend/app/service/search_service.py:1346-1347 | standardising keeps the length and maps each value x to (x − m) / sd |
| Stats.SumDeviations | backend/app/service/search_service.py:1347 | subtracting m from each of n values lowers their sum by n·m |
| Stats.SumScaled | backend/app/service/search_service.py:1347 | dividing each value by sd divides their sum by sd |
| Stats.SquaredDeviationShift | backend/app/service/search_service.py:1339-1347 | subtracting m from each value turns the squared deviation from m into the squared deviation from zero |
| Stats.SquaredDeviationSum | backend/app/service/search_service.py:1339 | the squared deviation is the sum of the per-value squared deviations |
| Stats.SquaredDeviationScaled | backend/app/service/search_service.py:1339-1347 | dividing each value by sd divides the squared deviation from zero by v = sd² |
| Stats.StandardizedVarianceOne | backend/app/service/search_service.py:1339-1347 | values standardised around their own mean by a square root of their variance have variance one |
| Stats.StandardizedMeanZero | backend/app/service/search_service.py:1336-1347 | values standardised around their own mean have mean zero |
| ScoreNormalization.Scores | backend/app/service/search_service.py:1337 | definition only: the score list, one entry per item in order (no property proved beyond that) |
| ScoreNormalization.Rescored | backend/app/service/search_service.py:1346-1347 | each item keeps every field but its score, in order |
| ScoreNormalization.StdDevZero | backend/app/service/search_service.py:1339-1343 | the standard deviation is non-negative, and zero iff all scores are equal |
| ScoreNormalization.NormalizedShape | backend/app/service/search_service.py:1327-1349 | normalisation keeps the length, the order and every field but the score |
| ScoreNormalization.NormalizedCases | backend/app/service/search_service.py:1333-1347 | fewer than two items, or all scores equal: the list is unchanged; otherwise it is standardised with a positive standard deviation |
| ScoreNormalization.NormalizedOrder | backend/app/service/search_service.py:1346-1347 | for any two items, the strict order and the equality of their scores survive normalisation |
| ScoreNormalization.NormalizedSign | backend/app/service/search_service.py:1346-1347 | when standardised, a score is positive iff it was above the list's mean |
| ScoreNormalization.RescoredScores | backend/app/service/search_service.py:1346-1347 | the rescored items' scores are the standardised score list |
| ScoreNormalization.NormalizedMeanZero | backend/app/service/search_service.py:1336-1347 | after a real standardisation, the scores have mean zero |
| ScoreNormalization.NormalizedUnitVariance | backend/app/service/search_service.py:1336-1347 | after a real standardisation, the scores have population variance one |
| ScoreNormalization.NormalizeScores | backend/app/service/search_service.py:1327-1349 | the in-place update of the array leaves exactly the normalised list |
| HitMapping.Preview | backend/app/service/search_service.py:1390-1391 | the preview is the first min(200, n) characters followed by "...", also for short text |
| HitMapping.ContentText | backend/app/service/search_service.py:1390-1391 | a document's content must be text, otherwise building the record raises; text content becomes its preview, and a document without content gets "..."; a map tile shows "<default> (<year>)" |
| HitMapping.Coordinates | backend/app/service/search_service.py:1387-1398 | without a location the coordinates are (0, 0); with a location record they are its `lat` and `lon`, each 0.0 when missing; a location that is not a record raises |
| HitMapping.PixelCoords | backend/app/service/search_service.py:1403 | absent or null pixel coordinates give none, a list of integers is kept as it is, anything else fails validation |
| HitMapping.ImageSource | backend/app/service/search_service.py:1404 | an absent or null `source_image` gives none, a text is kept as it is, anything else fails validation |
| HitMapping.SourceDataset | backend/app/service/search_service.py:1399 | the first truthy value of `source_dataset` and `source_image`, else "Unknown"; never falsy |
| HitMapping.ToItem | backend/app/service/search_service.py:1386-1406 | the record carries the hit's id text, its raw score, the kind, the whole payload, the content, coordinates, pixels and image source of its parts, the payload's year (0 when absent) and its dataset; a hit without a location sits at (0, 0); it fails iff one of content, location, pixels or image source fails |
| HitMapping.EmptyPayloadParts | backend/app/service/search_service.py:1387-1404 | on the empty payload, every part takes its default: position (0, 0), no pixels, no image, dataset "Unknown", content "..." or "<default> (Unknown)" |
| HitMapping.EmptyPayloadDefaults | backend/app/service/search_service.py:1386-1404 | a hit without a payload gets position (0, 0), year 0, dataset "Unknown", no pixels, no image, and the bare preview |
| HitMapping.ScoredPoints | backend/app/service/search_service.py:1383-1384 | tuples and entries without a score are skipped; exactly the scored points remain |
| HitMapping.ScoredPointsAppend | backend/app/service/search_service.py:1383-1384 | the scored points are picked entry by entry: those of a concatenation are those of its parts in order, and one entry gives its own point or nothing |
| HitMapping.ConvertMeaning | backend/app/service/search_service.py:1376-1409 | the conversion succeeds iff every scored point converts; the records are then the scored points' records, one for one and in order |
| HitMapping.ConvertProvenance | backend/app/service/search_service.py:1383-1408 | each record comes from a scored point of the answer with the same id and raw score; there are never more records than hits |
| HitMapping.ConvertSuccess | backend/app/service/search_service.py:1383-1409 | a successful conversion holds one record per scored point, in order |
| HitMapping.ConvertFailure | backend/app/service/search_service.py:1383-1408 | a failed conversion has a scored point whose record cannot be built |
| HitMapping.HitsToResults | backend/app/service/search_service.py:1376-1409 | the loop yields the conversion of the whole answer, and abandons it at the first record that cannot be built |
| HitMapping.PrefixFailure | backend/app/service/search_service.py:1383-1408 | once a prefix of the answer fails to convert, the whole answer fails |
| Ranking.AboveFloor | backend/app/service/search_service.py:1490 | exactly the items scoring strictly above the floor are kept, never more items than given |
| Ranking.AboveFloorAppend | backend/app/service/search_service.py:1490 | the floor is applied item by item: filtering a concatenation concatenates the filtered parts, so the kept items stay in input order |
| Ranking.AboveFloorWithScore | backend/app/service/search_service.py:1490 | the floor keeps each tie class above it whole and in order, and drops each tie class at or below it |
| Ranking.InsertSorted | backend/app/service/search_service.py:1493 | inserting into a descending list keeps it descending |
| Ranking.InsertMultiset | backend/app/service/search_service.py:1493 | inserting adds exactly the one item |
| Ranking.InsertWithScore | backend/app/service/search_service.py:1493 | the inserted item goes before the items that tie with it, and no tie class is reordered |
| Ranking.SortDescSorted | backend/app/service/search_service.py:1493 | the sorted list is in non-increasing score order |
| Ranking.SortDescPermutation | backend/app/service/search_service.py:1493 | the sorted list is a permutation of the input |
| Ranking.SortDescStable | backend/app/service/search_service.py:1493 | the sort is stable: each tie class keeps its input order |
| Ranking.SliceLength | backend/app/service/search_service.py:1495 | definition only: the length Python gives `s[:limit]`, min(limit, n) or n + limit (at least 0) for a negative limit; used by `Ranking.Take` |
| Ranking.Take | backend/app/service/search_service.py:1495 | the slice is a prefix of the list of that length |
| Ranking.TakeKeepsOrder | backend/app/service/search_service.py:1493-1495 | a prefix of a sorted list is sorted and keeps a prefix of each tie class |
| Ranking.ShiftHigher | backend/app/service/search_service.py:1493 | the inner loop shifts the items that score above the inserted one a place left and stops at the first that does not |
| Ranking.InsertStep | backend/app/service/search_service.py:1493 | one in-place step moves an item right past the higher-scoring items of the sorted suffix |
| Ranking.SortByScoreDesc | backend/app/service/search_service.py:1493 | the in-place sort leaves exactly the stably sorted list |
| HybridSearch.OverFetch | backend/app/service/search_service.py:1442-1449 | definition only: the request of one source, twice the limit, the whole payload, no score threshold |
| HybridSearch.SourceResults | backend/app/service/search_service.py:1437-1454 | a source that raises contributes nothing; otherwise exactly its records above the floor |
| HybridSearch.KindsOf | backend/app/service/search_service.py:1450-1473 | all records of a source carry the source's kind |
| HybridSearch.FuseProvenance | backend/app/service/search_service.py:1477-1495 | every fused item is an item of one of the two lists with only its score changed, and that score is positive |
| HybridSearch.FuseOrderAndSize | backend/app/service/search_service.py:1477-1495 | the fused list is sorted by non-increasing score, and holds at most `limit` items and at most as many as both lists |
| HybridSearch.FuseTieOrder | backend/app/service/search_service.py:1486-1495 | within a tie, the first list's items precede the second's and each list keeps its own order |
| HybridSearch.FuseWithEmpty | backend/app/service/search_service.py:1479-1495 | when one source is empty, the result comes from the other alone |
| HybridSearch.TextSearchGuarantees | backend/app/service/search_service.py:1415-1495 | the text search result is sorted, at most `limit` long, and every score is positive; every item is a document above 0.45 or a map tile above 0.18 from its source's answer |
| HybridSearch.TextSearchSourceFailure | backend/app/service/search_service.py:1437-1486 | when the document source fails only map tiles come back, and the other way round |
| HybridSearch.ImageSearchGuarantees | backend/app/service/search_service.py:1501-1559 | the image search fails iff the image cannot be encoded; otherwise the result is sorted, at most `limit` long and positive, and ties put map tiles before documents |
| HybridSearch.ImageSearchProvenance | backend/app/service/search_service.py:1522-1559 | every image-search item is a map tile above 0.40 or a document above 0.22 from its source's answer, with only its score changed |
| HybridSearch.FuseResults | backend/app/service/search_service.py:1477-1495 | the fusion stage with the in-place normalisation and sort computes the fused list |
| HybridSearch.RunSource | backend/app/service/search_service.py:1437-1454 | one source's `try` block computes that source's floored records |
| HybridSearch.SearchText | backend/app/service/search_service.py:1415-1495 | the statement-level text search computes the text search result |
| HybridSearch.SearchImage | backend/app/service/search_service.py:1501-1559 | the statement-level image search computes the image search result or the "Invalid image" error |
| Heatmap.HitOutcome | backend/app/service/search_service.py:1583-1585 | a hit yields a point iff it is scored and its location record has both coordinates; the point carries them and score × weight; it is skipped iff its location is falsy; otherwise it raises |
| Heatmap.HeatRequest | backend/app/service/search_service.py:1578-1581 | the heatmap asks for floor(limit / 2) hits, only the location field, the source's score threshold and no filter |
| Heatmap.SourcePoints | backend/app/service/search_service.py:1575-1587 | a source whose encoder or store call raises adds no point; otherwise its points are those its loop collects from the store's answer |
| Heatmap.CollectProvenance | backend/app/service/search_service.py:1583-1585 | every point comes from a hit that yields it, with score × weight; never more points than hits |
| Heatmap.CollectStopsAtRaise | backend/app/service/search_service.py:1583-1587 | a hit that raises ends the loop: the points before it are kept and those after it are lost |
| Heatmap.CollectAppend | backend/app/service/search_service.py:1583-1585 | without a raising hit, the points of an answer are those of its parts, in order |
| Heatmap.HeatmapGuarantees | backend/app/service/search_service.py:1565-1607 | the document points come first; each document point comes from a hit of the documents' store answer with its raw score, each map point from a hit of the maps' answer with 1.1 × score; a source whose encoder or store call fails adds nothing |
| Heatmap.AppendPoints | backend/app/service/search_service.py:1583-1585 | the loop appends exactly the collected points to the points already there |
| Heatmap.RunHeatSource | backend/app/service/search_service.py:1575-1587 | one source's `try` block appends exactly that source's points |
| Heatmap.GetHeatmapData | backend/app/service/search_service.py:1565-1607 | the statement-level heatmap returns the document points followed by the map points |
| QdrantRepo.BuildFilters | backend/app/repository/qdrant_repo.py:13-36 | the repository's translation is `None` iff nothing is requested, and admits a payload iff the payload meets every requested field, like the service's copy |
| QdrantRepo.PayloadSelectorFor | backend/app/repository/qdrant_repo.py:56-60 | a non-empty inclusion list wins; a non-empty exclusion list applies only without one; otherwise the whole payload is returned |
| QdrantRepo.SearchRequest | backend/app/repository/qdrant_repo.py:53-79 | `using` is set iff the vector name is non-empty; the limit and the threshold pass through; the search is approximate with the given `hnsw_ef`; the filter means the front-end filters |
| QdrantRepo.Search | backend/app/repository/qdrant_repo.py:65-91 | definition only: the store's answer, or the empty answer when the store call raises |
| QdrantRepo.DefaultRequest | backend/app/repository/qdrant_repo.py:38-48 | with the defaults, the request has no filter, no `using`, the whole payload, threshold 0.0, limit 10 and `hnsw_ef` 32 |
| QdrantRepo.SelectorPrecedence | backend/app/repository/qdrant_repo.py:56-60 | with both lists given the exclusion list is ignored, and empty lists count as absent |

## Left out

- Floating point: scores, means and the standard deviation are exact reals. numpy's float64 rounding is not modelled, so a standard deviation that rounds to a tiny non-zero value is not covered.
- numpy's square root is a parameter. It is assumed non-negative, zero exactly at zero and exact (its square is its argument); float64 rounding of the root is not modelled.
- Payload values are modelled as null, integers, text, integer lists and records of numbers. Floats, booleans and nested records are not modelled, and a record's text form is an opaque "{...}".
- The unwrapping of a tuple or `.points` response is not modelled: the store is taken to answer with the list of entries.
- The `print` calls and the log lines in the exception handlers are left out.
- The encoders, the image decoding and the vector unwrapping (`tolist`, first row) are foreign code. Each is one function from input to an optional vector.
- Where the encoders come from is not modelled: every failure to obtain or call a model counts as that call raising. Two cases follow from this:
  - `GlobalState.get_pe_model()` in `search_image` sits outside the `try`, so a failure there is the same error as an undecodable image.
  - `backend/app/utils/global_state.py` is not part of this model, so it is not modelled whether `get_text_model`/`get_pe_model` exist.
- `HeatmapPoint` is imported from the schema module but not defined there. It is modelled as (lat, lng, score).
- The result record keeps `year` and `source_dataset`, which the declared schema would drop, so their defaults can be stated.
- `geo_polygon` (from `geo_detail`) is not modelled.
- The object identity of result records is not modelled. Records are values held in an array that the normalisation and the sort update in place, so aliasing between the service's lists is not captured.
- The `threshold` argument of both searches is accepted and unused, as in the source.
- The HTTP endpoints, the router, concurrency and request time-outs are not part of this model.
- The bounding-box condition is the store's plain rectangle test. A box that crosses the antimeridian is not modelled.
- `QdrantRepository.__init__` (obtaining the client) is not modelled; the store is a parameter.
- Heatmap.SourcePoints: a failure inside a heatmap loop keeps the points already appended, as the code does. So "a source that raises contributes no points" holds only for a failing encoder or store call. A hit that raises inside the loop is covered by `Heatmap.CollectStopsAtRaise`.
- HitMapping.YearText: the year is rendered as "Unknown" only when the key is absent, following the code. A present null year renders as "None".
