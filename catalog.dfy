/** The recommendation catalog `topN`: cluster id to a list of items, as
    unpickled from the training artifact. Items come in whatever shape the
    pickle holds, so normalising an entry into product ids inspects the
    first item only and then converts every item the same way. */
module Catalog {
  import opened Wrappers

  /** One element of a catalog entry: a dict (with its `"product_id"`
      value, or `None` when the key is absent), a Python `int`, numpy
      integer or `bool` (converted to its integer value), a finite `float`,
      or any other object. */
  datatype CatalogItem =
    | DictItem(productId: Option<int>)
    | IntItem(n: int)
    | FloatItem(x: real)
    | OtherItem

  type CatalogMap = map<int, seq<CatalogItem>>

  /** The exception a comprehension raises on a bad item: `KeyError` for a
      dict without `"product_id"`, `TypeError` for subscripting a non-dict,
      `TypeError` for `int()` of something that is not a number. */
  datatype ShapeError = MissingProductId | NotSubscriptable | NotConvertible

  predicate IsNumber(item: CatalogItem) {
    item.IntItem? || item.FloatItem?
  }

  predicate HasProductId(item: CatalogItem) {
    item.DictItem? && item.productId.Some?
  }

  /** Python's `int(x)` on a float: truncation toward zero. */
  function Truncate(x: real): (n: int)
    ensures 0.0 <= x ==> n as real <= x < n as real + 1.0
    ensures x < 0.0 ==> n as real - 1.0 < x <= n as real
  {
    if 0.0 <= x then x.Floor else -((-x).Floor)
  }

  /** `int(x)` of a numeric item. */
  function IntOf(item: CatalogItem): int
    requires IsNumber(item)
  {
    match item
    case IntItem(n) => n
    case FloatItem(x) => Truncate(x)
  }

  /** `[item['product_id'] for item in raw_recs]`. */
  function ProductIdsOfDicts(items: seq<CatalogItem>): (r: Result<seq<int>, ShapeError>)
    ensures r.Ok? <==> forall k :: 0 <= k < |items| ==> HasProductId(items[k])
    ensures r.Ok? ==> |r.value| == |items|
    ensures r.Ok? ==> forall k :: 0 <= k < |items| ==> r.value[k] == items[k].productId.value
  {
    if items == [] then Ok([])
    else
      match items[0]
      case DictItem(None) => Err(MissingProductId)
      case DictItem(Some(id)) =>
        (match ProductIdsOfDicts(items[1..])
         case Ok(ids) => Ok([id] + ids)
         case Err(e) => Err(e))
      case _ => Err(NotSubscriptable)
  }

  /** `[int(x) for x in raw_recs]`. */
  function IntsOfNumbers(items: seq<CatalogItem>): (r: Result<seq<int>, ShapeError>)
    ensures r.Ok? <==> forall k :: 0 <= k < |items| ==> IsNumber(items[k])
    ensures r.Ok? ==> |r.value| == |items|
    ensures r.Ok? ==> forall k :: 0 <= k < |items| ==> r.value[k] == IntOf(items[k])
  {
    if items == [] then Ok([])
    else if !IsNumber(items[0]) then Err(NotConvertible)
    else
      match IntsOfNumbers(items[1..])
      case Ok(ids) => Ok([IntOf(items[0])] + ids)
      case Err(e) => Err(e)
  }

  /** The product ids of one catalog entry. An empty entry gives none; the
      first item decides the shape: dicts give their `product_id`s, numbers
      give `int(x)`, anything else gives no ids. A later item of the wrong
      shape makes the comprehension raise. */
  function NormaliseEntry(entry: seq<CatalogItem>): (r: Result<seq<int>, ShapeError>)
    ensures entry == [] ==> r == Ok([])
    ensures entry != [] && entry[0].DictItem? ==>
      && (r.Ok? <==> forall k :: 0 <= k < |entry| ==> HasProductId(entry[k]))
      && (r.Ok? ==> |r.value| == |entry| && forall k :: 0 <= k < |entry| ==> r.value[k] == entry[k].productId.value)
    ensures entry != [] && IsNumber(entry[0]) ==>
      && (r.Ok? <==> forall k :: 0 <= k < |entry| ==> IsNumber(entry[k]))
      && (r.Ok? ==> |r.value| == |entry| && forall k :: 0 <= k < |entry| ==> r.value[k] == IntOf(entry[k]))
    ensures entry != [] && entry[0].OtherItem? ==> r == Ok([])
  {
    if entry == [] then Ok([])
    else if entry[0].DictItem? then ProductIdsOfDicts(entry)
    else if IsNumber(entry[0]) then IntsOfNumbers(entry)
    else Ok([])
  }

  /** `topN.get(cluster, [])`. */
  function Lookup(topN: CatalogMap, cid: int): (entry: seq<CatalogItem>)
    ensures cid in topN ==> entry == topN[cid]
    ensures cid !in topN ==> entry == []
  {
    if cid in topN then topN[cid] else []
  }

  /** The body of `GET /recommend/by_cluster/{cid}`. */
  datatype ByClusterResponse = ByClusterResponse(cluster: int, recommendations: seq<CatalogItem>)

  /** `recommend_by_cluster`: echoes `cid` and returns its raw catalog
      entry, or an empty list for an unknown cluster. */
  function RecommendByCluster(topN: CatalogMap, cid: int): (r: ByClusterResponse)
    ensures r.cluster == cid
    ensures cid in topN ==> r.recommendations == topN[cid]
    ensures cid !in topN ==> r.recommendations == []
  {
    ByClusterResponse(cid, Lookup(topN, cid))
  }
}
