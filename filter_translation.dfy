/** Filter translation of the search service: an optional `SearchFilters`
    becomes a conjunction of store conditions, or no filter at all. */
module FilterTranslation {
  import opened Outcomes
  import opened QdrantModels
  import opened Schema

  /** Position of a condition in the fixed order: lower year bound, upper
      year bound, source image, bounding box. */
  function Rank(c: FieldCondition): nat {
    match c.test
    case Range(gte, _) => if gte.Some? then 0 else 1
    case MatchValue(_) => 2
    case GeoBoundingBox(_, _) => 3
  }

  /** Whether the field of rank `k` asks for a condition: a year bound
      whenever it is given (0 included), a source tag only when non-empty, a
      box only with exactly four numbers. */
  predicate Requested(f: SearchFilters, k: nat) {
    if k == 0 then f.yearStart.Some?
    else if k == 1 then f.yearEnd.Some?
    else if k == 2 then f.mapSource.Some? && f.mapSource.value != ""
    else k == 3 && f.geoBbox.Some? && |f.geoBbox.value| == 4
  }

  /** `c` is the condition that one requested field of `f` stands for.  The
      box [min_lon, min_lat, max_lon, max_lat] has its top-left corner at
      (lon b[0], lat b[3]) and its bottom-right corner at (lon b[2], lat b[1]). */
  predicate Justified(c: FieldCondition, f: SearchFilters) {
    || (f.yearStart.Some? && c == FieldCondition("year", Range(Some(f.yearStart.value), None)))
    || (f.yearEnd.Some? && c == FieldCondition("year", Range(None, Some(f.yearEnd.value))))
    || (Requested(f, 2) && c == FieldCondition("source_image", MatchValue(f.mapSource.value)))
    || (Requested(f, 3) &&
        var b := f.geoBbox.value;
        c == FieldCondition("location", GeoBoundingBox(GeoPoint(b[2], b[1]), GeoPoint(b[0], b[3]))))
  }

  /** Conditions strictly ordered by rank, every rank below `k`. */
  predicate RankedBelow(s: seq<FieldCondition>, k: nat) {
    && (forall i, j :: 0 <= i < j < |s| ==> Rank(s[i]) < Rank(s[j]))
    && (forall c :: c in s ==> Rank(c) < k)
  }

  /** The conditions list, built by the four guarded appends in source order. */
  function Conditions(f: SearchFilters): seq<FieldCondition> {
    var lower := if f.yearStart.Some?
                 then [FieldCondition("year", Range(Some(f.yearStart.value), None))] else [];
    var upper := if f.yearEnd.Some?
                 then lower + [FieldCondition("year", Range(None, Some(f.yearEnd.value)))] else lower;
    var source := if f.mapSource.Some? && f.mapSource.value != ""
                  then upper + [FieldCondition("source_image", MatchValue(f.mapSource.value))] else upper;
    if f.geoBbox.Some? && |f.geoBbox.value| == 4
    then var b := f.geoBbox.value;
         source + [FieldCondition("location", GeoBoundingBox(GeoPoint(b[2], b[1]), GeoPoint(b[0], b[3])))]
    else source
  }

  /** Appending a justified rank-`k` condition keeps the list ordered. */
  lemma AppendStep(s: seq<FieldCondition>, c: FieldCondition, k: nat, f: SearchFilters)
    requires RankedBelow(s, k) && Rank(c) == k
    requires forall d :: d in s ==> Justified(d, f)
    requires Justified(c, f)
    ensures RankedBelow(s + [c], k + 1)
    ensures forall d :: d in s + [c] ==> Justified(d, f)
  {
    var t := s + [c];
    forall i, j | 0 <= i < j < |t| ensures Rank(t[i]) < Rank(t[j]) {
      if j == |s| { assert t[i] in s; }
    }
  }

  /** The condition the field of rank `k` stands for (meaningful when requested). */
  function ConditionFor(f: SearchFilters, k: nat): (c: FieldCondition)
    requires k < 4 && Requested(f, k)
    ensures Rank(c) == k && Justified(c, f)
  {
    if k == 0 then FieldCondition("year", Range(Some(f.yearStart.value), None))
    else if k == 1 then FieldCondition("year", Range(None, Some(f.yearEnd.value)))
    else if k == 2 then FieldCondition("source_image", MatchValue(f.mapSource.value))
    else var b := f.geoBbox.value;
         FieldCondition("location", GeoBoundingBox(GeoPoint(b[2], b[1]), GeoPoint(b[0], b[3])))
  }

  /** The appends for the first `k` fields, one field at a time. */
  function ConditionsUpTo(f: SearchFilters, k: nat): seq<FieldCondition>
    requires k <= 4
  {
    if k == 0 then []
    else if Requested(f, k - 1) then ConditionsUpTo(f, k - 1) + [ConditionFor(f, k - 1)]
    else ConditionsUpTo(f, k - 1)
  }

  lemma {:induction false} ConditionsUpToShape(f: SearchFilters, k: nat)
    requires k <= 4
    ensures RankedBelow(ConditionsUpTo(f, k), k)
    ensures forall c :: c in ConditionsUpTo(f, k) ==> Justified(c, f)
    ensures forall j :: 0 <= j < k && Requested(f, j) ==> ConditionFor(f, j) in ConditionsUpTo(f, k)
    ensures ConditionsUpTo(f, k) == [] <==> forall j :: 0 <= j < k ==> !Requested(f, j)
  {
    if k > 0 {
      ConditionsUpToShape(f, k - 1);
      if Requested(f, k - 1) {
        AppendStep(ConditionsUpTo(f, k - 1), ConditionFor(f, k - 1), k - 1, f);
      }
    }
  }

  lemma ConditionsShape(f: SearchFilters)
    ensures RankedBelow(Conditions(f), 4)
    ensures forall c :: c in Conditions(f) ==> Justified(c, f)
    ensures forall k :: 0 <= k < 4 && Requested(f, k) ==> ConditionFor(f, k) in Conditions(f)
    ensures Conditions(f) == [] <==> forall k :: 0 <= k < 4 ==> !Requested(f, k)
  {
    ConditionsUpToShape(f, 4);
    var lower := if f.yearStart.Some?
                 then [FieldCondition("year", Range(Some(f.yearStart.value), None))] else [];
    assert ConditionsUpTo(f, 1) == lower;
    var upper := if f.yearEnd.Some?
                 then lower + [FieldCondition("year", Range(None, Some(f.yearEnd.value)))] else lower;
    assert ConditionsUpTo(f, 2) == upper;
    var source := if f.mapSource.Some? && f.mapSource.value != ""
                  then upper + [FieldCondition("source_image", MatchValue(f.mapSource.value))] else upper;
    assert ConditionsUpTo(f, 3) == source;
    assert ConditionsUpTo(f, 4) == Conditions(f);
  }

  /** `_build_qdrant_filters` */
  function BuildQdrantFilters(filters: Option<SearchFilters>): (r: Option<Filter>)
    ensures r.None? <==> filters.None? || forall k :: 0 <= k < 4 ==> !Requested(filters.value, k)
    ensures r.Some? ==> forall i, j :: 0 <= i < j < |r.value.must| ==> Rank(r.value.must[i]) < Rank(r.value.must[j])
    ensures r.Some? ==> forall c :: c in r.value.must ==> Justified(c, filters.value)
    ensures r.Some? ==> forall k :: 0 <= k < 4 && Requested(filters.value, k) ==>
                          ConditionFor(filters.value, k) in r.value.must
  {
    if filters.None? then None
    else
      ConditionsShape(filters.value);
      var conditions := Conditions(filters.value);
      if conditions != [] then Some(Filter(conditions)) else None
  }

  /** What field `k` of the filters asks of a stored point, read from the
      request alone: the year within the given bound, the source image equal
      to the tag, the location inside [min_lon, min_lat, max_lon, max_lat]. */
  predicate FieldAdmits(f: SearchFilters, k: nat, p: Payload)
    requires k < 4 && Requested(f, k)
  {
    if k == 0 then "year" in p && p["year"].Int? && p["year"].i >= f.yearStart.value
    else if k == 1 then "year" in p && p["year"].Int? && p["year"].i <= f.yearEnd.value
    else if k == 2 then "source_image" in p && p["source_image"] == Str(f.mapSource.value)
    else
      var b := f.geoBbox.value;
      "location" in p && p["location"].Object? &&
      "lon" in p["location"].fields && "lat" in p["location"].fields &&
      b[0] <= p["location"].fields["lon"] <= b[2] &&
      b[1] <= p["location"].fields["lat"] <= b[3]
  }

  /** A point passes the filters when it satisfies every requested field;
      absent filters, or filters that request nothing, admit every point. */
  predicate Admits(filters: Option<SearchFilters>, p: Payload) {
    filters.None? ||
    forall k :: 0 <= k < 4 && Requested(filters.value, k) ==> FieldAdmits(filters.value, k, p)
  }

  lemma JustifiedIsConditionFor(c: FieldCondition, f: SearchFilters)
    requires Justified(c, f)
    ensures Rank(c) < 4 && Requested(f, Rank(c)) && c == ConditionFor(f, Rank(c))
  {
  }

  lemma ConditionForMeaning(f: SearchFilters, k: nat, p: Payload)
    requires k < 4 && Requested(f, k)
    ensures Holds(ConditionFor(f, k), p) <==> FieldAdmits(f, k, p)
  {
  }

  /** The translated filter admits exactly the points the request asks for;
      in particular latitude and longitude are not swapped in the box. */
  lemma TranslationMeaning(filters: Option<SearchFilters>, p: Payload)
    ensures Matches(BuildQdrantFilters(filters), p) <==> Admits(filters, p)
  {
    var r := BuildQdrantFilters(filters);
    if r.Some? {
      var f := filters.value;
      var must := r.value.must;
      if Matches(r, p) {
        forall k | 0 <= k < 4 && Requested(f, k) ensures FieldAdmits(f, k, p) {
          var i :| 0 <= i < |must| && must[i] == ConditionFor(f, k);
          ConditionForMeaning(f, k, p);
        }
      }
      if Admits(filters, p) {
        forall i | 0 <= i < |must| ensures Holds(must[i], p) {
          JustifiedIsConditionFor(must[i], f);
          ConditionForMeaning(f, Rank(must[i]), p);
        }
      }
    }
  }

  /** The bounding box [12.0, 45.0, 13.0, 46.0] becomes a box from
      (lon 12.0, lat 46.0) to (lon 13.0, lat 45.0). */
  lemma BoxExample()
    ensures BuildQdrantFilters(Some(SearchFilters(None, None, None, Some([12.0, 45.0, 13.0, 46.0]))))
         == Some(Filter([FieldCondition("location", GeoBoundingBox(GeoPoint(13.0, 45.0), GeoPoint(12.0, 46.0)))]))
  {
    var f := SearchFilters(None, None, None, Some([12.0, 45.0, 13.0, 46.0]));
    assert Requested(f, 3);
    assert Conditions(f) == [ConditionFor(f, 3)];
  }
}
