/** `get_heatmap_data`: raw-score points for the 3D heatmap.  Each
    collection is asked for half the limit with only the `location` field;
    hits without a location are skipped, document points keep their score
    and map points are weighted by 1.1.  A failure before a source's loop
    loses that source; a failure inside the loop keeps the points already
    appended. */
module Heatmap {
  import opened Outcomes
  import opened QdrantModels
  import opened Schema
  import opened HybridSearch

  const DocHeatThreshold: real := 0.35
  const MapHeatThreshold: real := 0.20
  const DocWeight: real := 1.0
  const MapWeight: real := 1.1

  /** What one iteration of a heatmap loop does with a hit. */
  datatype Outcome = Skip | Emit(point: HeatmapPoint) | Raise

  /** `h.payload`, absent on a tuple. */
  function EntryPayload(e: Entry): Option<Payload> {
    match e
    case Point(p) => p.payload
    case Unscored(payload) => payload
    case Pair => None
  }

  /** Reading `h.payload.get('location')`, then `loc['lat']`, `loc['lon']`
      and `h.score` when the location is truthy: a tuple or a missing payload
      raises, a falsy location is skipped, a record with both coordinates
      gives a point, and anything else raises. */
  function HitOutcome(e: Entry, weight: real): (r: Outcome)
    ensures r.Emit? <==> e.Point? && e.point.payload.Some? && "location" in e.point.payload.value
                          && e.point.payload.value["location"].Object?
                          && "lat" in e.point.payload.value["location"].fields
                          && "lon" in e.point.payload.value["location"].fields
    ensures r.Emit? ==> var fields := e.point.payload.value["location"].fields;
                        r.point == HeatmapPoint(fields["lat"], fields["lon"], e.point.score * weight)
    ensures r.Skip? <==> EntryPayload(e).Some? && !Truthy(Get(EntryPayload(e).value, "location", Null))
  {
    match e
    case Pair => Raise
    case Unscored(payload) =>
      if payload.None? || Truthy(Get(payload.value, "location", Null)) then Raise else Skip
    case Point(p) =>
      if p.payload.None? then Raise
      else
        var loc := Get(p.payload.value, "location", Null);
        if !Truthy(loc) then Skip
        else match loc
          case Object(fields) =>
            if "lat" in fields && "lon" in fields
            then Emit(HeatmapPoint(fields["lat"], fields["lon"], p.score * weight))
            else Raise
          case _ => Raise
  }

  /** The points one loop appends: those of the hits before the first one
      that raises. */
  function Collect(hits: seq<Entry>, weight: real): seq<HeatmapPoint> {
    if hits == [] then []
    else match HitOutcome(hits[0], weight)
      case Skip => Collect(hits[1..], weight)
      case Emit(point) => [point] + Collect(hits[1..], weight)
      case Raise => []
  }

  /** The heatmap's `query_points` call: half the limit (floor division),
      only the location field, a score threshold, no filter. */
  function HeatRequest(collection: string, vector: Vector, using: Option<string>, limit: int, threshold: real)
    : (r: QueryRequest)
    ensures 2 * r.limit <= limit < 2 * r.limit + 2
    ensures r.collection == collection && r.query == vector && r.using == using && r.queryFilter.None?
    ensures r.withPayload == Include(["location"]) && r.scoreThreshold == Some(threshold)
  {
    QueryRequest(collection, vector, using, None, limit / 2, Include(["location"]), Some(threshold), None)
  }

  /** One source: nothing when the encoder or the store raises, otherwise
      the points its loop appends from the store's answer. */
  function SourcePoints(b: Backends, vector: Option<Vector>, request: Vector -> QueryRequest, weight: real)
    : (r: seq<HeatmapPoint>)
    ensures vector.None? ==> r == []
    ensures vector.Some? && b.store(request(vector.value)).None? ==> r == []
    ensures vector.Some? && b.store(request(vector.value)).Some? ==>
      r == Collect(b.store(request(vector.value)).value, weight)
  {
    if vector.None? then []
    else
      var hits := b.store(request(vector.value));
      if hits.None? then [] else Collect(hits.value, weight)
  }

  function DocHeatPoints(b: Backends, query: string, limit: int): seq<HeatmapPoint> {
    SourcePoints(b, b.textEncoder(query),
      v => HeatRequest(DocCollection, v, Some("text_vector"), limit, DocHeatThreshold), DocWeight)
  }

  function MapHeatPoints(b: Backends, query: string, limit: int): seq<HeatmapPoint> {
    SourcePoints(b, b.peTextEncoder(query),
      v => HeatRequest(MapCollection, v, None, limit, MapHeatThreshold), MapWeight)
  }

  /** Document points, then map points. */
  function HeatmapData(b: Backends, query: string, limit: int): seq<HeatmapPoint> {
    DocHeatPoints(b, query, limit) + MapHeatPoints(b, query, limit)
  }

  /** Every point comes from a scored hit whose location record has both
      coordinates, and carries that hit's score times the weight; a loop
      never yields more points than hits. */
  lemma {:induction false} CollectProvenance(hits: seq<Entry>, weight: real)
    ensures |Collect(hits, weight)| <= |hits|
    ensures forall pt :: pt in Collect(hits, weight) ==>
      exists e :: e in hits && HitOutcome(e, weight) == Emit(pt) && pt.score == e.point.score * weight
  {
    if hits != [] {
      CollectProvenance(hits[1..], weight);
      forall pt | pt in Collect(hits, weight)
        ensures exists e :: e in hits && HitOutcome(e, weight) == Emit(pt) && pt.score == e.point.score * weight
      {
        if pt in Collect(hits[1..], weight) {
          var e :| e in hits[1..] && HitOutcome(e, weight) == Emit(pt) && pt.score == e.point.score * weight;
          assert e in hits;
        } else {
          assert HitOutcome(hits[0], weight) == Emit(pt);
        }
      }
    }
  }

  /** A hit that raises ends the loop: what comes after it is lost, what came
      before it is kept. */
  lemma {:induction false} CollectStopsAtRaise(hits: seq<Entry>, weight: real, k: nat)
    requires k < |hits| && HitOutcome(hits[k], weight).Raise?
    ensures Collect(hits, weight) == Collect(hits[..k], weight)
  {
    if k > 0 {
      CollectStopsAtRaise(hits[1..], weight, k - 1);
      assert hits[..k][1..] == hits[1..][..k - 1];
    }
  }

  /** Without a raising hit, the loop keeps exactly the emitted points of
      both halves of the answer, in order. */
  lemma {:induction false} CollectAppend(a: seq<Entry>, b: seq<Entry>, weight: real)
    requires forall i :: 0 <= i < |a| ==> !HitOutcome(a[i], weight).Raise?
    ensures Collect(a + b, weight) == Collect(a, weight) + Collect(b, weight)
  {
    if a == [] {
      assert a + b == b;
    } else {
      assert (a + b)[1..] == a[1..] + b;
      assert (a + b)[0] == a[0];
      CollectAppend(a[1..], b, weight);
    }
  }

  /** Document points keep the raw score and map points carry 1.1 times it;
      each point comes from a hit of its own source's answer whose location
      record has both coordinates; document points come first; a source
      whose encoder or store call fails adds no point. */
  lemma HeatmapGuarantees(b: Backends, query: string, limit: int)
    ensures HeatmapData(b, query, limit)[..|DocHeatPoints(b, query, limit)|] == DocHeatPoints(b, query, limit)
    ensures var vec := b.textEncoder(query);
      var answer := if vec.None? then None
                    else b.store(HeatRequest(DocCollection, vec.value, Some("text_vector"), limit, DocHeatThreshold));
      && (answer.None? ==> DocHeatPoints(b, query, limit) == [])
      && forall pt :: pt in DocHeatPoints(b, query, limit) ==>
           answer.Some? &&
           exists e :: e in answer.value && HitOutcome(e, DocWeight) == Emit(pt) && pt.score == e.point.score
    ensures var vec := b.peTextEncoder(query);
      var answer := if vec.None? then None
                    else b.store(HeatRequest(MapCollection, vec.value, None, limit, MapHeatThreshold));
      && (answer.None? ==> MapHeatPoints(b, query, limit) == [])
      && forall pt :: pt in MapHeatPoints(b, query, limit) ==>
           answer.Some? &&
           exists e :: e in answer.value && HitOutcome(e, MapWeight) == Emit(pt) && pt.score == e.point.score * 1.1
    ensures b.textEncoder(query).None? ==> HeatmapData(b, query, limit) == MapHeatPoints(b, query, limit)
    ensures b.peTextEncoder(query).None? ==> HeatmapData(b, query, limit) == DocHeatPoints(b, query, limit)
  {
    var docVec := b.textEncoder(query);
    if docVec.Some? {
      var hits := b.store(HeatRequest(DocCollection, docVec.value, Some("text_vector"), limit, DocHeatThreshold));
      if hits.Some? {
        CollectProvenance(hits.value, DocWeight);
      }
    }
    var mapVec := b.peTextEncoder(query);
    if mapVec.Some? {
      var hits := b.store(HeatRequest(MapCollection, mapVec.value, None, limit, MapHeatThreshold));
      if hits.Some? {
        CollectProvenance(hits.value, MapWeight);
      }
    }
    assert HeatmapData(b, query, limit) == DocHeatPoints(b, query, limit) + MapHeatPoints(b, query, limit);
  }

  /** `for h in hits: ... points.append(...)`; the first hit that raises
      leaves the loop, keeping what was appended. */
  method AppendPoints(hits: seq<Entry>, weight: real, points: seq<HeatmapPoint>)
    returns (r: seq<HeatmapPoint>)
    ensures r == points + Collect(hits, weight)
  {
    r := points;
    var i := 0;
    while i < |hits|
      invariant 0 <= i <= |hits|
      invariant r + Collect(hits[i..], weight) == points + Collect(hits, weight)
    {
      assert hits[i..][1..] == hits[i + 1..];
      match HitOutcome(hits[i], weight) {
        case Skip =>
        case Emit(point) =>
          r := r + [point];
        case Raise =>
          return;
      }
      i := i + 1;
    }
  }

  /** One source's `try` block. */
  method RunHeatSource(b: Backends, vector: Option<Vector>, request: Vector -> QueryRequest, weight: real,
                       points: seq<HeatmapPoint>)
    returns (r: seq<HeatmapPoint>)
    ensures r == points + SourcePoints(b, vector, request, weight)
  {
    r := points;
    if vector.None? {
      return;
    }
    var hits := b.store(request(vector.value));
    if hits.None? {
      return;
    }
    r := AppendPoints(hits.value, weight, points);
  }

  /** `get_heatmap_data` */
  method GetHeatmapData(b: Backends, query: string, limit: int) returns (points: seq<HeatmapPoint>)
    ensures points == HeatmapData(b, query, limit)
  {
    points := [];
    points := RunHeatSource(b, b.textEncoder(query),
      v => HeatRequest(DocCollection, v, Some("text_vector"), limit, DocHeatThreshold), DocWeight, points);
    points := RunHeatSource(b, b.peTextEncoder(query),
      v => HeatRequest(MapCollection, v, None, limit, MapHeatThreshold), MapWeight, points);
  }
}
