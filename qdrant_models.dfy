/** The parts of the vector store's client model that the search core
    builds or reads: JSON payload values, scored points, filter conditions
    and the arguments of one `query_points` call.  The store itself is not
    modelled; `Holds` and `Matches` give the meaning of a filter so that the
    filter translation can be stated against it. */
module QdrantModels {
  import opened Outcomes

  /** A JSON payload value, restricted to the kinds the search core inspects. */
  datatype Value =
    | Null
    | Int(i: int)
    | Str(s: string)
    | IntList(xs: seq<int>)
    | Object(fields: map<string, real>)   // a numeric record such as `location` {lat, lon}

  type Payload = map<string, Value>

  /** Python truthiness of a payload value (`None`, `0`, `""`, `[]`, `{}` are false). */
  predicate Truthy(v: Value) {
    match v
    case Null => false
    case Int(i) => i != 0
    case Str(s) => s != ""
    case IntList(xs) => xs != []
    case Object(m) => m != map[]
  }

  /** `payload.get(key, default)` */
  function Get(p: Payload, key: string, default: Value): Value {
    if key in p then p[key] else default
  }

  /** A point id is an unsigned integer or a UUID string. */
  datatype PointId = Num(n: nat) | Uuid(u: string)

  datatype ScoredPoint = ScoredPoint(id: PointId, score: real, payload: Option<Payload>)

  /** One element of the list the store answers with.  Besides scored points
      the search code defends against tuples and objects without a score. */
  datatype Entry =
    | Point(point: ScoredPoint)
    | Pair
    | Unscored(payload: Option<Payload>)

  datatype GeoPoint = GeoPoint(lon: real, lat: real)

  datatype FieldTest =
    | Range(gte: Option<int>, lte: Option<int>)
    | MatchValue(value: string)
    | GeoBoundingBox(bottomRight: GeoPoint, topLeft: GeoPoint)

  datatype FieldCondition = FieldCondition(key: string, test: FieldTest)

  /** A conjunction: a point passes when every `must` condition holds. */
  datatype Filter = Filter(must: seq<FieldCondition>)

  /** The store's reading of one condition against a point's payload.  A
      bounding box holds between its corners (no antimeridian wrap). */
  predicate Holds(c: FieldCondition, p: Payload) {
    c.key in p &&
    match c.test
    case Range(gte, lte) =>
      p[c.key].Int? &&
      (gte.Some? ==> p[c.key].i >= gte.value) &&
      (lte.Some? ==> p[c.key].i <= lte.value)
    case MatchValue(v) => p[c.key] == Str(v)
    case GeoBoundingBox(br, tl) =>
      p[c.key].Object? && "lat" in p[c.key].fields && "lon" in p[c.key].fields &&
      tl.lon <= p[c.key].fields["lon"] <= br.lon &&
      br.lat <= p[c.key].fields["lat"] <= tl.lat
  }

  /** No filter admits every point. */
  predicate Matches(f: Option<Filter>, p: Payload) {
    f.None? || forall i :: 0 <= i < |f.value.must| ==> Holds(f.value.must[i], p)
  }

  /** `with_payload`: the whole payload (`True`), or only / all but some fields. */
  datatype PayloadSelector = AllPayload | Include(included: seq<string>) | Exclude(excluded: seq<string>)

  datatype SearchParams = SearchParams(hnswEf: int, exact: bool)

  type Vector = seq<real>

  /** The keyword arguments of one `query_points` call. */
  datatype QueryRequest = QueryRequest(
    collection: string,
    query: Vector,
    using: Option<string>,
    queryFilter: Option<Filter>,
    limit: int,
    withPayload: PayloadSelector,
    scoreThreshold: Option<real>,
    searchParams: Option<SearchParams>)

  /** `str(n)` for a natural number. */
  function NatText(n: nat): (r: string)
    ensures |r| > 0
    ensures forall k :: 0 <= k < |r| ==> '0' <= r[k] <= '9'
  {
    if n < 10 then ["0123456789"[n]] else NatText(n / 10) + ["0123456789"[n % 10]]
  }

  /** `str(i)` for an integer. */
  function IntText(i: int): string {
    if i < 0 then "-" + NatText(-i) else NatText(i)
  }

  /** `str(v)` for a payload value.  An object is rendered as the fixed
      text "{...}" rather than Python's dict repr. */
  function ValueText(v: Value): string {
    match v
    case Null => "None"
    case Int(i) => IntText(i)
    case Str(s) => s
    case IntList(xs) => "[" + IntsText(xs) + "]"
    case Object(_) => "{...}"
  }

  function IntsText(xs: seq<int>): string {
    if xs == [] then ""
    else if |xs| == 1 then IntText(xs[0])
    else IntText(xs[0]) + ", " + IntsText(xs[1..])
  }

  /** `str(hit.id)` */
  function IdText(id: PointId): string {
    match id
    case Num(n) => NatText(n)
    case Uuid(u) => u
  }
}
