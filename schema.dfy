/** The request and response records of the search API. */
module Schema {
  import opened Outcomes
  import opened QdrantModels

  /** `SearchFilters`: every field optional; `geoBbox` is read as
      [min_lon, min_lat, max_lon, max_lat]. */
  datatype SearchFilters = SearchFilters(
    yearStart: Option<int>,
    yearEnd: Option<int>,
    mapSource: Option<string>,
    geoBbox: Option<seq<real>>)

  /** The `type` discriminator: "document" or "map_tile". */
  datatype Kind = Document | MapTile

  /** `SearchResultItem`.  `year` and `sourceDataset` are the values the
      search code passes to the constructor; the schema itself drops them. */
  datatype ResultItem = ResultItem(
    id: string,
    score: real,
    lat: real,
    lng: real,
    pixelCoords: Option<seq<int>>,
    imageSource: Option<string>,
    content: string,
    kind: Kind,
    fullData: Payload,
    year: Value,
    sourceDataset: Value)

  /** One heatmap point. */
  datatype HeatmapPoint = HeatmapPoint(lat: real, lng: real, score: real)

  /** Two items that differ at most in their score. */
  predicate SameButScore(x: ResultItem, y: ResultItem) {
    x == y.(score := x.score)
  }
}
