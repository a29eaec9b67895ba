/** The discrete part of the training script: raw k-means labels are
    renumbered so that label 0 is the cluster with the lowest mean
    Monetary, the rows and the centroid array follow the renumbering, the
    cluster sizes are reported in label order, and a fixed catalog is
    written. The k-means fit, the per-cluster means and the centroid rows
    are inputs. */
module Training {
  import opened Wrappers
  import opened Catalog

  /** `n_clusters=4`. */
  const NClusters: nat := 4

  const Features: seq<string> := [
    "Recency", "Frequency", "Monetary_Log", "Avg_Items",
    "Unique_Products", "Wishlist_Count", "Add_to_Cart_Count", "Page_Views"
  ]

  const FeatureReadable: seq<string> := [
    "Recency", "Frequency", "Monetary (Log)", "Avg Items",
    "Unique Prod", "Wishlist", "Add Cart", "Views"
  ]

  const ClusterNames: seq<string> := ["Newbie", "Window Shopper", "Loyalist", "Sultan"]

  predicate Distinct(s: seq<nat>) {
    forall i, j :: 0 <= i < j < |s| ==> s[i] != s[j]
  }

  predicate Indexes(s: seq<nat>, n: nat) {
    forall k :: 0 <= k < |s| ==> s[k] < n
  }

  /** The labels in `s` appear in ascending order of their mean. */
  predicate AscendingByMean(means: seq<real>, s: seq<nat>)
    requires Indexes(s, |means|)
  {
    forall i, j :: 0 <= i < j < |s| ==> means[s[i]] <= means[s[j]]
  }

  /** Inserts label `x` before the first label of no smaller mean. */
  function InsertByMean(means: seq<real>, s: seq<nat>, x: nat): (r: seq<nat>)
    requires Indexes(s, |means|) && x < |means|
    requires AscendingByMean(means, s) && Distinct(s) && x !in s
    ensures |r| == |s| + 1 && Indexes(r, |means|)
    ensures forall y :: y in r <==> y in s || y == x
    ensures AscendingByMean(means, r) && Distinct(r)
  {
    if s == [] then [x]
    else if means[x] <= means[s[0]] then
      InsertAtFront(means, s, x);
      [x] + s
    else
      var rest := InsertByMean(means, s[1..], x);
      InsertBehindHead(means, s, x, rest);
      [s[0]] + rest
  }

  lemma InsertAtFront(means: seq<real>, s: seq<nat>, x: nat)
    requires Indexes(s, |means|) && x < |means| && s != []
    requires AscendingByMean(means, s) && Distinct(s) && x !in s
    requires means[x] <= means[s[0]]
    ensures AscendingByMean(means, [x] + s) && Distinct([x] + s)
  {
    var r := [x] + s;
    forall i, j | 0 <= i < j < |r| ensures means[r[i]] <= means[r[j]] && r[i] != r[j] {
      if i == 0 {
        assert r[j] == s[j - 1] && s[j - 1] in s;
        assert means[s[0]] <= means[s[j - 1]];
      } else {
        assert r[i] == s[i - 1] && r[j] == s[j - 1];
      }
    }
  }

  /** The head of `s` stays in front of the insertion into its tail. */
  lemma InsertBehindHead(means: seq<real>, s: seq<nat>, x: nat, rest: seq<nat>)
    requires Indexes(s, |means|) && x < |means| && s != []
    requires AscendingByMean(means, s) && Distinct(s) && x !in s
    requires means[s[0]] < means[x]
    requires Indexes(rest, |means|) && AscendingByMean(means, rest) && Distinct(rest)
    requires forall y :: y in rest <==> y in s[1..] || y == x
    ensures AscendingByMean(means, [s[0]] + rest) && Distinct([s[0]] + rest)
  {
    forall k | 0 <= k < |rest| ensures means[s[0]] <= means[rest[k]] && rest[k] != s[0] {
      var y := rest[k];
      assert y in rest;
      if y != x {
        var m :| 0 <= m < |s[1..]| && s[1..][m] == y;
        assert s[m + 1] == y;
      }
    }
    var r := [s[0]] + rest;
    forall i, j | 0 <= i < j < |r| ensures means[r[i]] <= means[r[j]] && r[i] != r[j] {
      assert r[j] == rest[j - 1];
      if i > 0 {
        assert r[i] == rest[i - 1];
      }
    }
  }

  function SortLabelsByMean(means: seq<real>, n: nat): (r: seq<nat>)
    requires n <= |means|
    ensures |r| == n && Indexes(r, |means|)
    ensures forall y: nat :: y in r <==> y < n
    ensures AscendingByMean(means, r) && Distinct(r)
  {
    if n == 0 then []
    else
      var prev := SortLabelsByMean(means, n - 1);
      assert n - 1 !in prev;
      InsertByMean(means, prev, n - 1)
  }

  /** `cluster_means.sort_values().index`: the old labels in ascending
      order of mean. pandas' default sort is not stable, so the contract
      leaves the order of equal means open. */
  function SortByMean(means: seq<real>): (order: seq<nat>)
    ensures |order| == |means| && Indexes(order, |means|) && Distinct(order)
    ensures forall o: nat :: o in order <==> o < |means|
    ensures AscendingByMean(means, order)
  {
    SortLabelsByMean(means, |means|)
  }

  /** `{old_label: new_label for new_label, old_label in enumerate(order)}`. */
  function MappingOf(order: seq<nat>): (m: map<nat, nat>)
    requires Distinct(order)
    ensures forall n :: 0 <= n < |order| ==> order[n] in m && m[order[n]] == n
    ensures forall o :: o in m ==> o in order
  {
    map n | 0 <= n < |order| :: order[n] := n
  }

  /** `mapping.items()`: the (old, new) pairs in insertion order, which
      is the order of the new labels. */
  function MappingItems(order: seq<nat>): (items: seq<(nat, nat)>)
    ensures |items| == |order| && forall n :: 0 <= n < |order| ==> items[n] == (order[n], n)
  {
    seq(|order|, n requires 0 <= n < |order| => (order[n], n))
  }

  /** The renumbering: a bijection from the old labels 0..K-1 onto the new
      labels 0..K-1 under which a smaller new label never has a larger
      mean, and a strictly smaller mean always gets a smaller new label. */
  function RelabelMapping(means: seq<real>): (m: map<nat, nat>)
    ensures forall n :: 0 <= n < |means| ==> SortByMean(means)[n] in m && m[SortByMean(means)[n]] == n
    ensures forall o: nat :: o in m <==> o < |means|
    ensures forall o :: o in m ==> m[o] < |means|
    ensures forall o1, o2 :: o1 in m && o2 in m && o1 != o2 ==> m[o1] != m[o2]
    ensures forall o1, o2 :: o1 in m && o2 in m && m[o1] < m[o2] ==> means[o1] <= means[o2]
    ensures forall o1, o2 :: o1 in m && o2 in m && means[o1] < means[o2] ==> m[o1] < m[o2]
  {
    var order := SortByMean(means);
    var m := MappingOf(order);
    MappingFacts(means, order, m);
    m
  }

  lemma MappingFacts(means: seq<real>, order: seq<nat>, m: map<nat, nat>)
    requires order == SortByMean(means)
    requires forall n :: 0 <= n < |order| ==> order[n] in m && m[order[n]] == n
    requires forall o :: o in m ==> o in order
    ensures forall o: nat :: o in m <==> o < |means|
    ensures forall o :: o in m ==> m[o] < |means| && order[m[o]] == o
    ensures forall o1, o2 :: o1 in m && o2 in m && o1 != o2 ==> m[o1] != m[o2]
    ensures forall o1, o2 :: o1 in m && o2 in m && m[o1] < m[o2] ==> means[o1] <= means[o2]
    ensures forall o1, o2 :: o1 in m && o2 in m && means[o1] < means[o2] ==> m[o1] < m[o2]
  {
    forall o | o in m ensures m[o] < |means| && order[m[o]] == o {
      var n :| 0 <= n < |order| && order[n] == o;
    }
    forall o: nat | o < |means| ensures o in m {
      assert o in order;
      var n :| 0 <= n < |order| && order[n] == o;
    }
  }

  /** `df["Temp_Cluster"].map(mapping)`. */
  function Relabel(raw: seq<nat>, m: map<nat, nat>): (labels: seq<nat>)
    requires forall r :: 0 <= r < |raw| ==> raw[r] in m
    ensures |labels| == |raw|
    ensures forall r :: 0 <= r < |raw| ==> labels[r] == m[raw[r]]
  {
    seq(|raw|, r requires 0 <= r < |raw| => m[raw[r]])
  }

  /** The number of rows carrying label `l`. */
  function Count(labels: seq<nat>, l: nat): nat {
    if labels == [] then 0 else (if labels[0] == l then 1 else 0) + Count(labels[1..], l)
  }

  lemma {:induction false} CountUnderInjection(raw: seq<nat>, m: map<nat, nat>, o: nat)
    requires forall r :: 0 <= r < |raw| ==> raw[r] in m
    requires forall o1, o2 :: o1 in m && o2 in m && o1 != o2 ==> m[o1] != m[o2]
    requires o in m
    ensures Count(Relabel(raw, m), m[o]) == Count(raw, o)
  {
    if raw != [] {
      assert Relabel(raw, m)[1..] == Relabel(raw[1..], m);
      CountUnderInjection(raw[1..], m, o);
    }
  }

  /** Renumbering moves whole clusters: the new cluster `mapping[o]` has
      exactly as many rows as the old cluster `o`. */
  lemma {:induction false} RelabelKeepsClusterSizes(raw: seq<nat>, means: seq<real>, o: nat)
    requires Indexes(raw, |means|) && o < |means|
    ensures Count(Relabel(raw, RelabelMapping(means)), RelabelMapping(means)[o]) == Count(raw, o)
  {
    CountUnderInjection(raw, RelabelMapping(means), o);
  }

  /** After renumbering, a row with a smaller label belongs to a cluster of
      no larger mean, and the rows labelled 0 belong to a cluster of
      minimum mean. */
  lemma {:induction false} RelabelOrdersRowsByMean(raw: seq<nat>, means: seq<real>)
    requires Indexes(raw, |means|)
    ensures forall r1, r2 ::
      (0 <= r1 < |raw| && 0 <= r2 < |raw| &&
       Relabel(raw, RelabelMapping(means))[r1] < Relabel(raw, RelabelMapping(means))[r2]) ==>
        means[raw[r1]] <= means[raw[r2]]
    ensures forall r, o :: 0 <= r < |raw| && Relabel(raw, RelabelMapping(means))[r] == 0 && 0 <= o < |means| ==>
      means[raw[r]] <= means[o]
  {
    var m := RelabelMapping(means);
    var labels := Relabel(raw, m);
    forall r1, r2 | 0 <= r1 < |raw| && 0 <= r2 < |raw| && labels[r1] < labels[r2]
      ensures means[raw[r1]] <= means[raw[r2]]
    {
      assert raw[r1] in m && raw[r2] in m;
    }
    forall r, o | 0 <= r < |raw| && labels[r] == 0 && 0 <= o < |means| ensures means[raw[r]] <= means[o] {
      assert o in m && raw[r] in m;
      if m[o] != 0 {
        assert m[raw[r]] < m[o];
      }
    }
  }

  /** One `{label: count}` entry of `cluster_counts`. */
  datatype LabelCount = LabelCount(cluster: nat, count: nat)

  /** Entries for the labels in `lo..hi-1` that occur, in ascending order. */
  function CountsFrom(labels: seq<nat>, lo: nat, hi: nat): (r: seq<LabelCount>)
    decreases hi - lo
    ensures forall k :: 0 <= k < |r| ==>
      lo <= r[k].cluster < hi && r[k].count == Count(labels, r[k].cluster) && r[k].count > 0
    ensures forall i, j :: 0 <= i < j < |r| ==> r[i].cluster < r[j].cluster
    ensures forall l: nat :: lo <= l < hi && Count(labels, l) > 0 ==> LabelCount(l, Count(labels, l)) in r
  {
    if hi <= lo then []
    else
      var rest := CountsFrom(labels, lo + 1, hi);
      if Count(labels, lo) > 0 then
        var r := [LabelCount(lo, Count(labels, lo))] + rest;
        assert forall k :: 0 < k < |r| ==> r[k] == rest[k - 1];
        r
      else rest
  }

  function SumCounts(cs: seq<LabelCount>): nat {
    if cs == [] then 0 else cs[0].count + SumCounts(cs[1..])
  }

  /** The number of rows whose label lies in `lo..hi-1`. */
  function CountInRange(labels: seq<nat>, lo: nat, hi: nat): nat {
    if labels == [] then 0
    else (if lo <= labels[0] < hi then 1 else 0) + CountInRange(labels[1..], lo, hi)
  }

  lemma {:induction false} CountInRangeSplit(labels: seq<nat>, lo: nat, hi: nat)
    requires lo < hi
    ensures CountInRange(labels, lo, hi) == Count(labels, lo) + CountInRange(labels, lo + 1, hi)
  {
    if labels != [] {
      CountInRangeSplit(labels[1..], lo, hi);
    }
  }

  lemma {:induction false} CountInRangeAll(labels: seq<nat>, hi: nat)
    requires Indexes(labels, hi)
    ensures CountInRange(labels, 0, hi) == |labels|
  {
    if labels != [] {
      CountInRangeAll(labels[1..], hi);
    }
  }

  lemma {:induction false} SumCountsFrom(labels: seq<nat>, lo: nat, hi: nat)
    decreases hi - lo
    ensures SumCounts(CountsFrom(labels, lo, hi)) == CountInRange(labels, lo, hi)
  {
    if hi <= lo {
      if CountInRange(labels, lo, hi) != 0 {
        CountInRangeEmpty(labels, lo, hi);
      }
    } else {
      SumCountsFrom(labels, lo + 1, hi);
      CountInRangeSplit(labels, lo, hi);
      var rest := CountsFrom(labels, lo + 1, hi);
      if Count(labels, lo) > 0 {
        assert ([LabelCount(lo, Count(labels, lo))] + rest)[1..] == rest;
      }
    }
  }

  lemma {:induction false} CountInRangeEmpty(labels: seq<nat>, lo: nat, hi: nat)
    requires hi <= lo
    ensures CountInRange(labels, lo, hi) == 0
  {
    if labels != [] {
      CountInRangeEmpty(labels[1..], lo, hi);
    }
  }

  /** `df["Cluster"].value_counts().sort_index().to_dict()`: one entry per
      label that occurs, keyed in ascending label order, each with the
      number of rows carrying it; together they count every row. */
  function ClusterCounts(labels: seq<nat>, k: nat): (r: seq<LabelCount>)
    requires Indexes(labels, k)
    ensures forall i :: 0 <= i < |r| ==> r[i].count == Count(labels, r[i].cluster) && r[i].count > 0
    ensures forall i, j :: 0 <= i < j < |r| ==> r[i].cluster < r[j].cluster
    ensures forall row :: 0 <= row < |labels| ==> LabelCount(labels[row], Count(labels, labels[row])) in r
    ensures SumCounts(r) == |labels|
  {
    var r := CountsFrom(labels, 0, k);
    SumCountsFrom(labels, 0, k);
    CountInRangeAll(labels, k);
    assert forall row :: 0 <= row < |labels| ==> Count(labels, labels[row]) > 0 by {
      forall row | 0 <= row < |labels| ensures Count(labels, labels[row]) > 0 {
        CountPositive(labels, row);
      }
    }
    r
  }

  lemma {:induction false} CountPositive(labels: seq<nat>, row: nat)
    requires row < |labels|
    ensures Count(labels, labels[row]) > 0
  {
    if row > 0 {
      assert labels[1..][row - 1] == labels[row];
      CountPositive(labels[1..], row - 1);
    }
  }

  function Zeros(width: nat): (z: seq<real>)
    ensures |z| == width && forall k :: 0 <= k < width ==> z[k] == 0.0
  {
    seq(width, _ => 0.0)
  }

  /** The rows `c[order[0]], c[order[1]], ...`. */
  function PickRows<T>(c: seq<T>, order: seq<nat>): (r: seq<T>)
    requires Indexes(order, |c|)
    ensures |r| == |order| && forall k :: 0 <= k < |order| ==> r[k] == c[order[k]]
  {
    seq(|order|, k requires 0 <= k < |order| => c[order[k]])
  }

  /** A permutation of 0..n-1 without its entry n-1 is a permutation of
      0..n-2. */
  lemma DropLargest(order: seq<nat>, n: nat, p: nat)
    requires n > 0 && |order| == n && Indexes(order, n) && Distinct(order)
    requires forall o: nat :: o < n ==> o in order
    requires p < n && order[p] == n - 1
    ensures var order' := order[..p] + order[p + 1..];
      && |order'| == n - 1 && Indexes(order', n - 1) && Distinct(order')
      && (forall o: nat :: o < n - 1 ==> o in order')
  {
    var order' := order[..p] + order[p + 1..];
    assert forall k :: 0 <= k < n - 1 ==> order'[k] == (if k < p then order[k] else order[k + 1]);
    forall k | 0 <= k < n - 1 ensures order'[k] < n - 1 {
      if k < p { assert order[k] != order[p]; } else { assert order[k + 1] != order[p]; }
    }
    forall i, j | 0 <= i < j < n - 1 ensures order'[i] != order'[j] {
      var i0 := if i < p then i else i + 1;
      var j0 := if j < p then j else j + 1;
      assert i0 < j0;
    }
    forall o: nat | o < n - 1 ensures o in order' {
      assert o in order;
      var k :| 0 <= k < n && order[k] == o;
      if k < p { assert order'[k] == o; } else { assert order'[k - 1] == o; }
    }
  }

  /** If `t` is `u` with the last row of `c` inserted at `p`, and `u`
      rearranges all but the last row of `c`, then `t` rearranges `c`. */
  lemma MultisetOfInsertion<T>(c: seq<T>, t: seq<T>, u: seq<T>, p: nat)
    requires |c| > 0 && p < |t|
    requires t[..p] + t[p + 1..] == u && t[p] == c[|c| - 1]
    requires multiset(u) == multiset(c[..|c| - 1])
    ensures multiset(t) == multiset(c)
  {
    assert t == t[..p] + [t[p]] + t[p + 1..];
    assert c == c[..|c| - 1] + [c[|c| - 1]];
  }

  /** Dropping the entry `n - 1` from `order` drops the last row from the
      rows it picks. */
  lemma PickWithoutLargest<T>(c: seq<T>, order: seq<nat>, p: nat)
    requires |c| > 0 && Indexes(order, |c|) && p < |order| && order[p] == |c| - 1
    requires Indexes(order[..p] + order[p + 1..], |c| - 1)
    ensures PickRows(c, order)[..p] + PickRows(c, order)[p + 1..] ==
            PickRows(c[..|c| - 1], order[..p] + order[p + 1..])
  {
    var order' := order[..p] + order[p + 1..];
    assert forall k :: 0 <= k < |order'| ==> order'[k] == (if k < p then order[k] else order[k + 1]);
  }

  /** Picking the rows of `c` in the order of a permutation of its indices
      rearranges them. */
  lemma {:induction false} PermutedRowsMultiset<T>(c: seq<T>, order: seq<nat>)
    requires |order| == |c| && Indexes(order, |c|) && Distinct(order)
    requires forall o: nat :: o < |c| ==> o in order
    ensures multiset(PickRows(c, order)) == multiset(c)
  {
    var n := |c|;
    if n > 0 {
      assert n - 1 in order;
      var p :| 0 <= p < n && order[p] == n - 1;
      var order' := order[..p] + order[p + 1..];
      DropLargest(order, n, p);
      PermutedRowsMultiset(c[..n - 1], order');
      PickWithoutLargest(c, order, p);
      MultisetOfInsertion(c, PickRows(c, order), PickRows(c[..n - 1], order'), p);
    }
  }

  /** The centroid array after renumbering: row n is the centroid of the
      old cluster with the n-th smallest mean. */
  function SortedCentroids<T>(c: seq<T>, means: seq<real>): (rows: seq<T>)
    requires |means| == |c|
    ensures |rows| == |c|
  {
    PickRows(c, SortByMean(means))
  }

  /** The renumbered centroid array holds centroid `o` at row `mapping[o]`. */
  lemma {:induction false} SortedCentroidsFollowMapping<T>(c: seq<T>, means: seq<real>)
    requires |means| == |c|
    ensures forall o :: 0 <= o < |c| ==>
      RelabelMapping(means)[o] < |c| && SortedCentroids(c, means)[RelabelMapping(means)[o]] == c[o]
  {
    var order := SortByMean(means);
    var m := RelabelMapping(means);
    forall o | 0 <= o < |c| ensures m[o] < |c| && PickRows(c, order)[m[o]] == c[o] {
      assert o in order;
      var k :| 0 <= k < |order| && order[k] == o;
      assert m[order[k]] == k;
    }
  }

  /** The renumbered centroid array is a rearrangement of the original rows. */
  lemma {:induction false} SortedCentroidsRearrange<T>(c: seq<T>, means: seq<real>)
    requires |means| == |c|
    ensures multiset(SortedCentroids(c, means)) == multiset(c)
  {
    PermutedRowsMultiset(c, SortByMean(means));
  }

  /** `sorted_centroids`: zero-initialised like the centroid array, then
      row `mapping[old]` receives centroid `old`, for each dict item in
      insertion order. Every row is overwritten. */
  method PermuteCentroids(centroids: seq<seq<real>>, means: seq<real>) returns (sorted: array<seq<real>>)
    requires |means| == |centroids|
    ensures fresh(sorted)
    ensures sorted[..] == SortedCentroids(centroids, means)
  {
    var order := SortByMean(means);
    sorted := new seq<real>[|centroids|](i requires 0 <= i < |centroids| => Zeros(|centroids[i]|));
    AssignRows(sorted, centroids, MappingItems(order), order);
  }

  /** The loop `for old_lbl, new_lbl in mapping.items()`. */
  method AssignRows(sorted: array<seq<real>>, centroids: seq<seq<real>>, items: seq<(nat, nat)>, ghost order: seq<nat>)
    requires sorted.Length == |centroids| == |order| && Indexes(order, |centroids|)
    requires items == MappingItems(order)
    modifies sorted
    ensures sorted[..] == PickRows(centroids, order)
  {
    var k := 0;
    while k < |items|
      invariant 0 <= k <= |items|
      invariant forall n :: 0 <= n < k ==> sorted[n] == centroids[order[n]]
    {
      var (oldLbl, newLbl) := items[k];
      sorted[newLbl] := centroids[oldLbl];
      k := k + 1;
    }
  }

  /** The catalog `topN_dict` as written by the script. */
  const TrainedTopN: CatalogMap := map[
    0 := [DictItem(Some(101)), DictItem(Some(102)), DictItem(Some(103))],
    1 := [DictItem(Some(104)), DictItem(Some(105)), DictItem(Some(106))],
    2 := [DictItem(Some(107)), DictItem(Some(108)), DictItem(Some(109))],
    3 := [DictItem(Some(110)), DictItem(Some(111)), DictItem(Some(112))]
  ]

  /** `topN_dict` built by successive key assignments: clusters 0..3, three
      dict items each, cluster c holding ids 101 + 3c, 102 + 3c and
      103 + 3c, so every id lies in 101..112 and no id is in two clusters. */
  method BuildTopN() returns (topN: CatalogMap)
    ensures topN == TrainedTopN
    ensures topN.Keys == {0, 1, 2, 3}
    ensures forall c :: c in topN ==> |topN[c]| == 3
    ensures forall c, k :: c in topN && 0 <= k < 3 ==> topN[c][k] == DictItem(Some(101 + 3 * c + k))
    ensures forall c, k :: c in topN && 0 <= k < 3 ==> 101 <= topN[c][k].productId.value <= 112
    ensures forall c1, c2, k1, k2 :: c1 in topN && c2 in topN && 0 <= k1 < 3 && 0 <= k2 < 3 && c1 != c2 ==>
      topN[c1][k1] != topN[c2][k2]
  {
    topN := map[];
    topN := topN[0 := [DictItem(Some(101)), DictItem(Some(102)), DictItem(Some(103))]];
    topN := topN[1 := [DictItem(Some(104)), DictItem(Some(105)), DictItem(Some(106))]];
    topN := topN[2 := [DictItem(Some(107)), DictItem(Some(108)), DictItem(Some(109))]];
    topN := topN[3 := [DictItem(Some(110)), DictItem(Some(111)), DictItem(Some(112))]];
  }

  /** The `model_metrics.json` document. `centroids_real` holds one
      column-to-value dict per centroid. */
  datatype ModelMetrics = ModelMetrics(
    silhouetteScore: real,
    inertia: real,
    features: seq<string>,
    featureReadable: seq<string>,
    clusterNames: seq<string>,
    centroidsScaled: seq<seq<real>>,
    centroidsReal: seq<map<string, real>>,
    clusterCounts: seq<LabelCount>)

  /** The metadata dict: eight features with eight readable names, one
      cluster name per cluster of the fit, and the given numbers passed
      through. */
  function Metadata(silhouette: real, inertia: real, centroidsScaled: seq<seq<real>>,
                    centroidsReal: seq<map<string, real>>, counts: seq<LabelCount>): (md: ModelMetrics)
    ensures md.features == Features && md.clusterNames == ClusterNames
    ensures |md.features| == 8 && |md.featureReadable| == |md.features|
    ensures |md.clusterNames| == NClusters
    ensures md.silhouetteScore == silhouette && md.inertia == inertia
    ensures md.centroidsScaled == centroidsScaled && md.centroidsReal == centroidsReal
    ensures md.clusterCounts == counts
  {
    ModelMetrics(silhouette, inertia, Features, FeatureReadable, ClusterNames,
                 centroidsScaled, centroidsReal, counts)
  }
}
