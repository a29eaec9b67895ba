/** `POST /recommend/user`: the readiness guard, the distance ranking, the
    catalog lookup and the assembly of the recommendation list with its
    sentinel fallback. The scaler, `kmeans.predict` and the per-centroid
    Euclidean distances are foreign numerics and enter as a `Scoring`; the
    product table and the price draws are parameters. */
module Recommend {
  import opened Wrappers
  import opened Ranking
  import opened Catalog

  /** The request-time feature order passed to `scaler.transform`. */
  const UseCols: seq<string> := [
    "Recency", "Frequency", "Monetary_Log", "Avg_Items",
    "Unique_Products", "Wishlist_Count", "Add_to_Cart_Count", "Page_Views"
  ]

  /** The `detail` of the HTTP 500 raised when the models are not loaded. */
  const NotReadyDetail: string := "Model ML belum siap di server."

  /** Which artifacts loaded at import time. A failed load leaves
      `scaler = None`, `kmeans = None` and `topN = {}`. */
  datatype Artifacts = Artifacts(scalerLoaded: bool, kmeansLoaded: bool, topN: CatalogMap)

  /** What the foreign numerics produce for one request: the label of
      `kmeans.predict` and one distance per centroid, in centroid order, or
      an exception from `scaler.transform` or `kmeans.predict` (a NaN
      feature, for instance, from `log1p` of a Monetary below -1). */
  datatype Scoring =
    | Scored(predicted: int, distances: seq<real>)
    | Raised

  /** A `Product` row: id, name and category. */
  datatype Product = Product(productId: int, name: string, category: string)

  /** A draw of `np.random.uniform(20, 500)`; the rounding to cents is not
      modelled. */
  newtype Price = x: real | 20.0 <= x <= 500.0 witness 20.0

  datatype RecItem = RecItem(productId: int, name: string, category: string, price: real)

  /** The single item returned when no product resolves. */
  const NoRecommendation: RecItem := RecItem(0, "Tidak ada rekomendasi", "General", 0.0)

  /** Every failure is answered with HTTP 500: `ModelNotReady` with
      `NotReadyDetail`, the others with the text of the caught exception. */
  datatype Failure =
    | ModelNotReady
    | ScoringRaised                // `scaler.transform` or `kmeans.predict` raised
    | NoCentroids                  // `distances[0]` on an empty list
    | BadCatalogEntry(ShapeError)  // a catalog item of the wrong shape

  /** The HTTP error raised for a failure: its status and, where the
      source fixes it, its detail text. The other details are the text of
      the caught exception, which is not modelled. */
  datatype HttpError = HttpError(status: nat, detail: Option<string>)

  function ErrorOf(f: Failure): (e: HttpError)
    ensures e.status == 500
    ensures e.detail.Some? <==> f == ModelNotReady
    ensures e.detail.Some? ==> e.detail.value == NotReadyDetail
  {
    HttpError(500, if f == ModelNotReady then Some(NotReadyDetail) else None)
  }

  datatype Metrics = Metrics(
    userDistance: real,
    nearestCluster: nat,
    nextNearestCluster: Option<nat>,
    margin: real,
    allDistances: seq<DistanceRecord>)

  datatype Response = Response(cluster: int, metrics: Metrics, recommendations: seq<RecItem>)

  /** The `PredictionLog` row the request inserts. */
  datatype PredictionLog = PredictionLog(userId: int, predictedCluster: int, recommendedItems: seq<RecItem>)

  /** The readiness guard: both the scaler and the k-means model loaded. */
  predicate Ready(art: Artifacts) {
    art.scalerLoaded && art.kmeansLoaded
  }

  /** `db.query(Product).filter(Product.product_id.in_(ids)).all()`, in
      table order: each row whose id is one of `ids`, once. */
  function Query(table: seq<Product>, ids: seq<int>): (found: seq<Product>)
    ensures |found| <= |table|
    ensures forall p :: p in found <==> p in table && p.productId in ids
  {
    if table == [] then []
    else (if table[0].productId in ids then [table[0]] else []) + Query(table[1..], ids)
  }

  /** The query neither repeats nor drops a row: each selected row occurs in
      the result exactly as often as in the table, and no other row occurs. */
  lemma {:induction false} QueryKeepsMultiplicity(table: seq<Product>, ids: seq<int>)
    ensures forall p :: multiset(Query(table, ids))[p] == if p.productId in ids then multiset(table)[p] else 0
  {
    if table != [] {
      assert table == [table[0]] + table[1..];
      QueryKeepsMultiplicity(table[1..], ids);
    }
  }

  /** No id selects no row. */
  lemma QueryWithoutIds(table: seq<Product>)
    ensures Query(table, []) == []
  {
    if Query(table, []) != [] {
      assert Query(table, [])[0] in Query(table, []);
    }
  }

  function PricedItem(p: Product, price: Price): RecItem {
    RecItem(p.productId, p.name, p.category, price as real)
  }

  /** The list `final_recs` ends up as: one priced item per resolved
      product, the k-th product with the k-th draw, or the sentinel alone. */
  predicate AssembledFrom(recs: seq<RecItem>, found: seq<Product>, draw: nat -> Price) {
    if found == [] then recs == [NoRecommendation]
    else |recs| == |found| && forall k :: 0 <= k < |found| ==> recs[k] == PricedItem(found[k], draw(k))
  }

  /** Lines `final_recs = []` up to the sentinel fallback. */
  method AssembleRecommendations(ids: seq<int>, table: seq<Product>, draw: nat -> Price)
    returns (recs: seq<RecItem>)
    ensures AssembledFrom(recs, Query(table, ids), draw)
    ensures recs != []
    ensures Query(table, ids) == [] ==> recs == [NoRecommendation]
    ensures Query(table, ids) != [] ==>
      forall k :: 0 <= k < |recs| ==>
        && recs[k].productId in ids
        && 20.0 <= recs[k].price <= 500.0
        && Product(recs[k].productId, recs[k].name, recs[k].category) in table
  {
    recs := [];
    var found: seq<Product> := [];
    if ids != [] {
      found := Query(table, ids);
      var k := 0;
      while k < |found|
        invariant 0 <= k <= |found|
        invariant |recs| == k
        invariant forall m :: 0 <= m < k ==> recs[m] == PricedItem(found[m], draw(m))
      {
        recs := recs + [PricedItem(found[k], draw(k))];
        k := k + 1;
      }
    }
    if recs == [] {
      recs := [NoRecommendation];
    }
    if ids == [] {
      QueryWithoutIds(table);
    }
  }

  /** `recommend_user`, minus the database commit: the response, and the
      log row to insert (`None` when the request fails before the insert). */
  method RecommendUser(art: Artifacts, sc: Scoring, table: seq<Product>, draw: nat -> Price, userId: int)
    returns (r: Result<Response, Failure>, log: Option<PredictionLog>)
    ensures !Ready(art) ==> r == Err(ModelNotReady) && log == None
    ensures Ready(art) && sc.Raised? ==> r == Err(ScoringRaised) && log == None
    ensures Ready(art) && sc.Scored? && sc.distances == [] ==> r == Err(NoCentroids) && log == None
    ensures Ready(art) && sc.Scored? && sc.distances != [] && NormaliseEntry(Lookup(art.topN, sc.predicted)).Err? ==>
      r == Err(BadCatalogEntry(NormaliseEntry(Lookup(art.topN, sc.predicted)).error)) && log == None
    ensures r.Ok? <==>
      Ready(art) && sc.Scored? && sc.distances != [] && NormaliseEntry(Lookup(art.topN, sc.predicted)).Ok?
    ensures r.Ok? ==> log == Some(PredictionLog(userId, sc.predicted, r.value.recommendations))
    ensures r.Ok? ==>
      var m := r.value.metrics;
      var K := |sc.distances|;
      && r.value.cluster == sc.predicted
      && StablySortedFrom(IndexedDistances(sc.distances), m.allDistances)
      && TiesByCluster(m.allDistances)
      && m.nearestCluster == m.allDistances[0].cluster
      && FirstMinimum(sc.distances, m.nearestCluster)
      && m.userDistance == sc.distances[m.nearestCluster]
      && (m.nextNearestCluster.Some? <==> K > 1)
      && (K > 1 ==> m.nextNearestCluster == Some(m.allDistances[1].cluster))
      && (m.nextNearestCluster.Some? ==>
            m.nextNearestCluster.value < K && m.nextNearestCluster.value != m.nearestCluster)
      && m.margin == (if K > 1 then m.allDistances[1].distance - m.allDistances[0].distance else 0.0)
      && m.margin >= 0.0
      && r.value.recommendations != []
      && AssembledFrom(r.value.recommendations,
                       Query(table, NormaliseEntry(Lookup(art.topN, sc.predicted)).value), draw)
  {
    if !(art.scalerLoaded && art.kmeansLoaded) {
      return Err(ModelNotReady), None;
    }
    if sc.Raised? {
      return Err(ScoringRaised), None;
    }
    var records := BuildDistances(sc.distances);
    var a := new DistanceRecord[|records|](i requires 0 <= i < |records| => records[i]);
    assert a[..] == records;
    StableSortByDistance(a);
    var sorted := a[..];
    RankOfSortedDistances(sc.distances, sorted);
    MarginOfSortedDistances(sc.distances, sorted);
    SortedDistancesBreakTiesByIndex(sc.distances, sorted);
    var ranking := Rank(sorted);
    if ranking.None? {
      return Err(NoCentroids), None;
    }
    var rk := ranking.value;
    var entry := NormaliseEntry(Lookup(art.topN, sc.predicted));
    if entry.Err? {
      return Err(BadCatalogEntry(entry.error)), None;
    }
    var recs := AssembleRecommendations(entry.value, table, draw);
    var next := if rk.second.Some? then Some(rk.second.value.cluster) else None;
    var metrics := Metrics(rk.nearest.distance, rk.nearest.cluster, next, Margin(rk), sorted);
    r := Ok(Response(sc.predicted, metrics, recs));
    log := Some(PredictionLog(userId, sc.predicted, recs));
  }
}
