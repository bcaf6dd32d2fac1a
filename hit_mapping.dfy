/** `_hits_to_results`: the store's answer becomes result records.  Tuples
    and entries without a score are skipped; every scored point is mapped
    field by field with the payload defaults; a payload field of the wrong
    kind makes the conversion raise, which the callers catch, so the whole
    answer is then lost. */
module HitMapping {
  import opened Outcomes
  import opened QdrantModels
  import opened Schema

  /** Number of content characters kept in a document preview. */
  const PreviewLength := 200

  /** `content[:200] + "..."`: the first (at most) 200 characters followed by
      an ellipsis, which is appended even to short text. */
  function Preview(content: string): (r: string)
    ensures |r| == Min(PreviewLength, |content|) + 3
    ensures r[|r| - 3..] == "..."
    ensures r[..|r| - 3] == content[..|r| - 3]
    ensures |content| <= PreviewLength ==> r == content + "..."
  {
    content[..Min(PreviewLength, |content|)] + "..."
  }

  /** `payload.get('year', 'Unknown')` as the f-string renders it. */
  function YearText(payload: Payload): string {
    if "year" in payload then ValueText(payload["year"]) else "Unknown"
  }

  /** The content shown for one hit, or `None` where building it raises: a
      document needs a text `content` (absent counts as the empty text); any
      other kind is "<default> (<year>)". */
  function ContentText(payload: Payload, kind: Kind, defaultContent: string): (r: Option<string>)
    ensures kind == Document ==> (r.Some? <==> Get(payload, "content", Str("")).Str?)
    ensures kind == Document && Get(payload, "content", Str("")).Str? ==>
      r == Some(Preview(Get(payload, "content", Str("")).s))
    ensures kind == Document && "content" !in payload ==> r == Some("...")
    ensures kind == MapTile ==> r == Some(defaultContent + " (" + YearText(payload) + ")")
  {
    if kind == Document then
      match Get(payload, "content", Str(""))
      case Str(s) => Some(Preview(s))
      case _ => None
    else Some(defaultContent + " (" + YearText(payload) + ")")
  }

  /** `loc.get(key, 0.0)` on a location record. */
  function Coordinate(fields: map<string, real>, key: string): real {
    if key in fields then fields[key] else 0.0
  }

  /** (lat, lng) of a hit: 0.0 for whatever the location lacks, `None` when
      the location is present but is not a record (`.get` then raises). */
  function Coordinates(payload: Payload): (r: Option<(real, real)>)
    ensures r.None? <==> "location" in payload && !payload["location"].Object?
    ensures "location" !in payload ==> r == Some((0.0, 0.0))
    ensures "location" in payload && payload["location"].Object? ==>
      var m := payload["location"].fields;
      r == Some((if "lat" in m then m["lat"] else 0.0, if "lon" in m then m["lon"] else 0.0))
  {
    match Get(payload, "location", Object(map[]))
    case Object(fields) => Some((Coordinate(fields, "lat"), Coordinate(fields, "lon")))
    case _ => None
  }

  /** `pixel_coords`: absent or null gives none, a list of integers is kept,
      anything else fails the record's validation. */
  function PixelCoords(payload: Payload): (r: Option<Option<seq<int>>>)
    ensures r.None? <==> "pixel_coords" in payload && !payload["pixel_coords"].Null? && !payload["pixel_coords"].IntList?
    ensures ("pixel_coords" !in payload || payload["pixel_coords"].Null?) ==> r == Some(None)
    ensures "pixel_coords" in payload && payload["pixel_coords"].IntList? ==>
      r == Some(Some(payload["pixel_coords"].xs))
  {
    match Get(payload, "pixel_coords", Null)
    case Null => Some(None)
    case IntList(xs) => Some(Some(xs))
    case _ => None
  }

  /** `image_source`: absent or null gives none, a text is kept, anything
      else fails the record's validation. */
  function ImageSource(payload: Payload): (r: Option<Option<string>>)
    ensures r.None? <==> "source_image" in payload && !payload["source_image"].Null? && !payload["source_image"].Str?
    ensures ("source_image" !in payload || payload["source_image"].Null?) ==> r == Some(None)
    ensures "source_image" in payload && payload["source_image"].Str? ==>
      r == Some(Some(payload["source_image"].s))
  {
    match Get(payload, "source_image", Null)
    case Null => Some(None)
    case Str(s) => Some(Some(s))
    case _ => None
  }

  /** `source_dataset or source_image or 'Unknown'`: the first truthy one. */
  function SourceDataset(payload: Payload): (r: Value)
    ensures Truthy(r)
    ensures Truthy(Get(payload, "source_dataset", Null)) ==> r == payload["source_dataset"]
    ensures (!Truthy(Get(payload, "source_dataset", Null)) && Truthy(Get(payload, "source_image", Null)))
              ==> r == payload["source_image"]
    ensures (!Truthy(Get(payload, "source_dataset", Null)) && !Truthy(Get(payload, "source_image", Null)))
              ==> r == Str("Unknown")
  {
    var dataset := Get(payload, "source_dataset", Null);
    var image := Get(payload, "source_image", Null);
    if Truthy(dataset) then dataset else if Truthy(image) then image else Str("Unknown")
  }

  /** `hit.payload or {}` */
  function PayloadOf(p: ScoredPoint): Payload {
    if p.payload.Some? then p.payload.value else map[]
  }

  /** The record built from one scored point, or `None` when building it raises. */
  function ToItem(p: ScoredPoint, kind: Kind, defaultContent: string): (r: Option<ResultItem>)
    ensures r.None? <==> ContentText(PayloadOf(p), kind, defaultContent).None? || Coordinates(PayloadOf(p)).None?
                         || PixelCoords(PayloadOf(p)).None? || ImageSource(PayloadOf(p)).None?
    ensures r.Some? ==> r.value.id == IdText(p.id) && r.value.score == p.score && r.value.kind == kind
    ensures r.Some? ==> r.value.fullData == PayloadOf(p)
    ensures r.Some? ==>
      && r.value.content == ContentText(PayloadOf(p), kind, defaultContent).value
      && (r.value.lat, r.value.lng) == Coordinates(PayloadOf(p)).value
      && r.value.pixelCoords == PixelCoords(PayloadOf(p)).value
      && r.value.imageSource == ImageSource(PayloadOf(p)).value
      && r.value.year == Get(PayloadOf(p), "year", Int(0))
      && r.value.sourceDataset == SourceDataset(PayloadOf(p))
    ensures r.Some? && "year" !in PayloadOf(p) ==> r.value.year == Int(0)
    ensures r.Some? && "location" !in PayloadOf(p) ==> r.value.lat == 0.0 && r.value.lng == 0.0
  {
    var payload := PayloadOf(p);
    var content := ContentText(payload, kind, defaultContent);
    var location := Coordinates(payload);
    var pixels := PixelCoords(payload);
    var image := ImageSource(payload);
    if content.None? || location.None? || pixels.None? || image.None? then None
    else Some(ResultItem(
      id := IdText(p.id),
      score := p.score,
      lat := location.value.0,
      lng := location.value.1,
      pixelCoords := pixels.value,
      imageSource := image.value,
      content := content.value,
      kind := kind,
      fullData := payload,
      year := Get(payload, "year", Int(0)),
      sourceDataset := SourceDataset(payload)))
  }

  /** A hit without any payload gets every default: position (0, 0), year 0,
      dataset "Unknown", no pixels, no image, and the bare preview. */
  lemma EmptyPayloadDefaults(p: ScoredPoint, kind: Kind, defaultContent: string)
    requires p.payload.None? || p.payload == Some(map[])
    ensures ToItem(p, kind, defaultContent).Some?
    ensures var item := ToItem(p, kind, defaultContent).value;
      && item.lat == 0.0 && item.lng == 0.0
      && item.year == Int(0) && item.sourceDataset == Str("Unknown")
      && item.pixelCoords.None? && item.imageSource.None?
      && item.content == (if kind == Document then "..." else defaultContent + " (Unknown)")
  {
    var payload := PayloadOf(p);
    assert payload == map[];
    EmptyPayloadParts(kind, defaultContent);
    var r := ToItem(p, kind, defaultContent);
    assert r.Some?;
    assert "year" !in payload && "location" !in payload;
  }

  /** Each part of a record built from the empty payload takes its default. */
  lemma EmptyPayloadParts(kind: Kind, defaultContent: string)
    ensures Coordinates(map[]) == Some((0.0, 0.0))
    ensures PixelCoords(map[]) == Some(None) && ImageSource(map[]) == Some(None)
    ensures SourceDataset(map[]) == Str("Unknown")
    ensures ContentText(map[], kind, defaultContent)
      == Some(if kind == Document then "..." else defaultContent + " (Unknown)")
  {
    var payload: Payload := map[];
    if kind == Document {
      assert Get(payload, "content", Str("")) == Str("");
      assert Preview("") == "...";
      assert ContentText(payload, kind, defaultContent) == Some("...");
    } else {
      assert YearText(payload) == "Unknown";
      assert defaultContent + " (" + "Unknown" + ")" == defaultContent + " (Unknown)";
    }
  }

  /** The scored points of an answer, in order; tuples and entries without a
      score are dropped. */
  function ScoredPoints(hits: seq<Entry>): (r: seq<ScoredPoint>)
    ensures |r| <= |hits|
    ensures forall p :: p in r <==> Point(p) in hits
  {
    if hits == [] then []
    else
      var rest := ScoredPoints(hits[..|hits| - 1]);
      assert hits == hits[..|hits| - 1] + [hits[|hits| - 1]];
      match hits[|hits| - 1]
      case Point(p) => rest + [p]
      case _ => rest
  }

  /** Scored points are picked entry by entry: those of a concatenation are
      those of its parts, in the same order, and a single entry contributes
      its own point or nothing. */
  lemma {:induction false} ScoredPointsAppend(a: seq<Entry>, b: seq<Entry>)
    ensures ScoredPoints(a + b) == ScoredPoints(a) + ScoredPoints(b)
    ensures forall e :: ScoredPoints([e]) == if e.Point? then [e.point] else []
  {
    forall e ensures ScoredPoints([e]) == if e.Point? then [e.point] else [] {
      assert [e][..0] == [];
    }
    if b == [] {
      assert a + b == a;
    } else {
      var front := b[..|b| - 1];
      assert (a + b)[..|a + b| - 1] == a + front;
      assert (a + b)[|a + b| - 1] == b[|b| - 1];
      ScoredPointsAppend(a, front);
    }
  }

  /** The conversion of a whole answer, element by element from the front;
      `None` once one scored point cannot be converted. */
  function Convert(hits: seq<Entry>, kind: Kind, defaultContent: string): Option<seq<ResultItem>> {
    if hits == [] then Some([])
    else
      var rest := Convert(hits[..|hits| - 1], kind, defaultContent);
      match hits[|hits| - 1]
      case Point(p) =>
        var item := ToItem(p, kind, defaultContent);
        if rest.None? || item.None? then None else Some(rest.value + [item.value])
      case _ => rest
  }

  /** The conversion succeeds exactly when every scored point converts, and
      then it is the image of the scored points, in order and one for one:
      same id, same raw score, the requested kind. */
  lemma ConvertMeaning(hits: seq<Entry>, kind: Kind, defaultContent: string)
    ensures var points := ScoredPoints(hits);
      Convert(hits, kind, defaultContent).Some? <==>
        forall i :: 0 <= i < |points| ==> ToItem(points[i], kind, defaultContent).Some?
    ensures var points := ScoredPoints(hits);
      Convert(hits, kind, defaultContent).Some? ==>
        var items := Convert(hits, kind, defaultContent).value;
        && |items| == |points|
        && forall i :: 0 <= i < |items| ==> Some(items[i]) == ToItem(points[i], kind, defaultContent)
  {
    ConvertSuccess(hits, kind, defaultContent);
    ConvertFailure(hits, kind, defaultContent);
  }

  /** A successful conversion is the scored points' records, one for one. */
  lemma {:induction false} ConvertSuccess(hits: seq<Entry>, kind: Kind, defaultContent: string)
    ensures var points := ScoredPoints(hits);
      Convert(hits, kind, defaultContent).Some? ==>
        var items := Convert(hits, kind, defaultContent).value;
        && |items| == |points|
        && forall i :: 0 <= i < |items| ==> Some(items[i]) == ToItem(points[i], kind, defaultContent)
  {
    if hits != [] && Convert(hits, kind, defaultContent).Some? {
      var front := hits[..|hits| - 1];
      ConvertSuccess(front, kind, defaultContent);
      assert hits == front + [hits[|hits| - 1]];
      var points := ScoredPoints(hits);
      var before := ScoredPoints(front);
      var rest := Convert(front, kind, defaultContent);
      var items := Convert(hits, kind, defaultContent).value;
      assert rest.Some?;
      if hits[|hits| - 1].Point? {
        var p := hits[|hits| - 1].point;
        assert points == before + [p];
        assert items == rest.value + [ToItem(p, kind, defaultContent).value];
        forall i | 0 <= i < |items| ensures Some(items[i]) == ToItem(points[i], kind, defaultContent) {
          if i < |before| {
            assert items[i] == rest.value[i] && points[i] == before[i];
          }
        }
      } else {
        assert points == before && items == rest.value;
      }
    }
  }

  /** A failed conversion has a scored point whose record cannot be built. */
  lemma {:induction false} ConvertFailure(hits: seq<Entry>, kind: Kind, defaultContent: string)
    ensures var points := ScoredPoints(hits);
      Convert(hits, kind, defaultContent).None? ==>
        exists i :: 0 <= i < |points| && ToItem(points[i], kind, defaultContent).None?
  {
    if hits != [] && Convert(hits, kind, defaultContent).None? {
      var front := hits[..|hits| - 1];
      assert hits == front + [hits[|hits| - 1]];
      var points := ScoredPoints(hits);
      var before := ScoredPoints(front);
      assert before <= points by {
        if hits[|hits| - 1].Point? {
          assert points == before + [hits[|hits| - 1].point];
        }
      }
      if Convert(front, kind, defaultContent).None? {
        ConvertFailure(front, kind, defaultContent);
        var i :| 0 <= i < |before| && ToItem(before[i], kind, defaultContent).None?;
        assert i < |points| && points[i] == before[i];
        assert ToItem(points[i], kind, defaultContent).None?;
        assert exists j :: 0 <= j < |ScoredPoints(hits)| && ToItem(ScoredPoints(hits)[j], kind, defaultContent).None?;
      } else {
        assert hits[|hits| - 1].Point?;
        var p := hits[|hits| - 1].point;
        assert ToItem(p, kind, defaultContent).None?;
        assert points == before + [p];
        assert points[|before|] == p;
        assert exists j :: 0 <= j < |ScoredPoints(hits)| && ToItem(ScoredPoints(hits)[j], kind, defaultContent).None?;
      }
    }
  }

  /** Every converted record comes from a scored point of the answer and
      keeps its raw score, so the conversion never outgrows the answer. */
  lemma ConvertProvenance(hits: seq<Entry>, kind: Kind, defaultContent: string)
    requires Convert(hits, kind, defaultContent).Some?
    ensures |Convert(hits, kind, defaultContent).value| <= |hits|
    ensures forall x :: x in Convert(hits, kind, defaultContent).value ==>
      exists p :: Point(p) in hits && x.score == p.score && x.id == IdText(p.id) && x.kind == kind
  {
    ConvertMeaning(hits, kind, defaultContent);
    var items := Convert(hits, kind, defaultContent).value;
    var points := ScoredPoints(hits);
    forall x | x in items
      ensures exists p :: Point(p) in hits && x.score == p.score && x.id == IdText(p.id) && x.kind == kind
    {
      var i :| 0 <= i < |items| && items[i] == x;
      assert points[i] in points;
      assert Point(points[i]) in hits;
    }
  }

  /** The loop of `_hits_to_results`: records are appended one hit at a time;
      the first record that cannot be built abandons the whole list. */
  method HitsToResults(hits: seq<Entry>, kind: Kind, defaultContent: string)
    returns (r: Option<seq<ResultItem>>)
    ensures r == Convert(hits, kind, defaultContent)
  {
    var results: seq<ResultItem> := [];
    if hits == [] {
      return Some(results);
    }
    for i := 0 to |hits|
      invariant Convert(hits[..i], kind, defaultContent) == Some(results)
    {
      assert hits[..i + 1][..i] == hits[..i];
      match hits[i]
      case Point(p) =>
        var item := ToItem(p, kind, defaultContent);
        if item.None? {
          r := None;
          PrefixFailure(hits, i + 1, kind, defaultContent);
          return;
        }
        results := results + [item.value];
      case _ =>
    }
    assert hits[..|hits|] == hits;
    r := Some(results);
  }

  /** Once a prefix of the answer fails to convert, so does the answer. */
  lemma {:induction false} PrefixFailure(hits: seq<Entry>, n: nat, kind: Kind, defaultContent: string)
    requires n <= |hits|
    requires Convert(hits[..n], kind, defaultContent).None?
    ensures Convert(hits, kind, defaultContent).None?
  {
    if n < |hits| {
      assert hits[..|hits| - 1][..n] == hits[..n];
      PrefixFailure(hits[..|hits| - 1], n, kind, defaultContent);
    } else {
      assert hits[..n] == hits;
    }
  }
}
