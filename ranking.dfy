/** The per-request distance list of `recommend_user`: one record per
    centroid, sorted ascending by distance with a stable sort, then the
    nearest record, the optional second-nearest one and the margin between
    them. Distances are abstract reals (the Euclidean norm and the rounding
    to four decimals happen outside the model). */
module Ranking {
  import opened Wrappers

  /** One `{"cluster": i, "distance": d}` entry of `all_distances`. */
  datatype DistanceRecord = DistanceRecord(cluster: nat, distance: real)

  /** The list the enumeration loop builds, as a value: entry i pairs
      centroid i with its distance. */
  function IndexedDistances(dists: seq<real>): (rs: seq<DistanceRecord>)
    ensures |rs| == |dists|
  {
    seq(|dists|, i requires 0 <= i < |dists| => DistanceRecord(i, dists[i]))
  }

  /** The records form exactly one entry per centroid: the record at
      position i is centroid i with its own distance, so every record sits
      at the index named by its cluster field and the cluster fields are a
      permutation of 0..K-1. */
  lemma IndexedDistancesOnePerCentroid(dists: seq<real>)
    ensures forall i :: 0 <= i < |dists| ==>
              IndexedDistances(dists)[i] == DistanceRecord(i, dists[i])
    ensures forall x :: x in IndexedDistances(dists) ==>
              x.cluster < |dists| && IndexedDistances(dists)[x.cluster] == x
  {
  }

  /** `distances.append(...)` inside `for i, center in enumerate(centroids)`. */
  method BuildDistances(dists: seq<real>) returns (records: seq<DistanceRecord>)
    ensures records == IndexedDistances(dists)
  {
    records := [];
    var i := 0;
    while i < |dists|
      invariant 0 <= i <= |dists|
      invariant records == IndexedDistances(dists[..i])
    {
      records := records + [DistanceRecord(i, dists[i])];
      i := i + 1;
    }
    assert dists[..i] == dists;
  }

  predicate SortedByDistance(s: seq<DistanceRecord>) {
    forall i, j :: 0 <= i < j < |s| ==> s[i].distance <= s[j].distance
  }

  /** Records of equal distance appear in ascending cluster order. */
  predicate TiesByCluster(s: seq<DistanceRecord>) {
    forall i, j :: 0 <= i < j < |s| && s[i].distance == s[j].distance ==> s[i].cluster < s[j].cluster
  }

  /** The subsequence of the records whose distance is `d`. */
  function KeyFilter(s: seq<DistanceRecord>, d: real): (r: seq<DistanceRecord>)
    ensures |r| <= |s|
  {
    if s == [] then []
    else (if s[0].distance == d then [s[0]] else []) + KeyFilter(s[1..], d)
  }

  /** `t` is what a stable sort may make of `s`: for every key, the records
      with that key keep their relative order. */
  ghost predicate StableReorder(s: seq<DistanceRecord>, t: seq<DistanceRecord>) {
    forall d :: KeyFilter(t, d) == KeyFilter(s, d)
  }

  /** What `distances.sort(key=lambda x: x['distance'])` guarantees. */
  ghost predicate StablySortedFrom(s: seq<DistanceRecord>, t: seq<DistanceRecord>) {
    && |t| == |s|
    && multiset(t) == multiset(s)
    && SortedByDistance(t)
    && StableReorder(s, t)
  }

  lemma {:induction false} KeyFilterAppend(a: seq<DistanceRecord>, b: seq<DistanceRecord>, d: real)
    ensures KeyFilter(a + b, d) == KeyFilter(a, d) + KeyFilter(b, d)
  {
    if a == [] {
      assert a + b == b;
    } else {
      var head := if a[0].distance == d then [a[0]] else [];
      assert (a + b)[0] == a[0];
      assert (a + b)[1..] == a[1..] + b;
      calc {
        KeyFilter(a + b, d);
        head + KeyFilter(a[1..] + b, d);
        { KeyFilterAppend(a[1..], b, d); }
        head + (KeyFilter(a[1..], d) + KeyFilter(b, d));
        { assert head + (KeyFilter(a[1..], d) + KeyFilter(b, d)) == (head + KeyFilter(a[1..], d)) + KeyFilter(b, d); }
        KeyFilter(a, d) + KeyFilter(b, d);
      }
    }
  }

  function Swap(s: seq<DistanceRecord>, j: nat): (r: seq<DistanceRecord>)
    requires 0 < j < |s|
    ensures |r| == |s|
  {
    s[j - 1 := s[j]][j := s[j - 1]]
  }

  /** The records that `KeyFilter` keeps are those of `s` with that key. */
  lemma {:induction false} KeyFilterMembers(s: seq<DistanceRecord>, d: real, x: DistanceRecord)
    ensures x in KeyFilter(s, d) <==> x in s && x.distance == d
  {
    if s != [] {
      KeyFilterMembers(s[1..], d, x);
      assert s == [s[0]] + s[1..];
    }
  }

  /** Exchanging two neighbours with different distances leaves the
      subsequence of each key unchanged. */
  lemma SwapKeepsKeyFilter(s: seq<DistanceRecord>, j: nat, d: real)
    requires 0 < j < |s|
    requires s[j - 1].distance != s[j].distance
    ensures KeyFilter(Swap(s, j), d) == KeyFilter(s, d)
  {
    var pre, x, y, post := s[..j - 1], s[j - 1], s[j], s[j + 1..];
    assert s == pre + ([x, y] + post);
    assert Swap(s, j) == pre + ([y, x] + post);
    KeyFilterAppend(pre, [x, y] + post, d);
    KeyFilterAppend([x, y], post, d);
    KeyFilterAppend(pre, [y, x] + post, d);
    KeyFilterAppend([y, x], post, d);
    assert [x, y][1..] == [y];
    assert [y, x][1..] == [x];
    assert KeyFilter([x, y], d) == KeyFilter([y, x], d);
  }

  lemma SwapKeepsStableOrder(s: seq<DistanceRecord>, t: seq<DistanceRecord>, j: nat)
    requires StableReorder(s, t)
    requires 0 < j < |t|
    requires t[j - 1].distance != t[j].distance
    ensures StableReorder(s, Swap(t, j))
  {
    forall d ensures KeyFilter(Swap(t, j), d) == KeyFilter(s, d) {
      SwapKeepsKeyFilter(t, j, d);
    }
  }

  lemma StableReorderTransitive(s: seq<DistanceRecord>, t: seq<DistanceRecord>, u: seq<DistanceRecord>)
    requires StableReorder(s, t) && StableReorder(t, u)
    ensures StableReorder(s, u)
  {
  }

  /** The state of one insertion pass over `s[..i + 1]` while the moving
      record sits at `j`: the rest is sorted and everything to the right of
      the moving record is strictly farther. */
  predicate Sinking(s: seq<DistanceRecord>, i: nat, j: nat) {
    && j <= i < |s|
    && (forall p, q :: 0 <= p < q <= i && p != j && q != j ==> s[p].distance <= s[q].distance)
    && (forall q :: j < q <= i ==> s[j].distance < s[q].distance)
  }

  lemma SinkStart(s: seq<DistanceRecord>, i: nat)
    requires i < |s| && SortedByDistance(s[..i])
    ensures Sinking(s, i, i)
  {
    assert forall p :: 0 <= p < i ==> s[..i][p] == s[p];
  }

  lemma SinkStep(s: seq<DistanceRecord>, i: nat, j: nat)
    requires Sinking(s, i, j) && 0 < j && s[j - 1].distance > s[j].distance
    ensures Sinking(Swap(s, j), i, j - 1)
  {
  }

  lemma SinkDone(s: seq<DistanceRecord>, i: nat, j: nat)
    requires Sinking(s, i, j)
    requires j == 0 || s[j - 1].distance <= s[j].distance
    ensures SortedByDistance(s[..i + 1])
  {
    forall p, q | 0 <= p < q <= i ensures s[p].distance <= s[q].distance {
      if q == j && p < j - 1 {
        assert s[p].distance <= s[j - 1].distance;
      }
    }
  }

  /** One pass of insertion: moves `a[i]` left past every strictly farther
      record, so that `a[..i + 1]` is sorted. */
  method SinkInto(a: array<DistanceRecord>, i: nat)
    requires i < a.Length
    requires SortedByDistance(a[..i])
    modifies a
    ensures SortedByDistance(a[..i + 1])
    ensures multiset(a[..]) == multiset(old(a[..]))
    ensures StableReorder(old(a[..]), a[..])
    ensures a[i + 1..] == old(a[i + 1..])
  {
    var j: nat := i;
    SinkStart(a[..], i);
    while j > 0 && a[j - 1].distance > a[j].distance
      invariant Sinking(a[..], i, j)
      invariant multiset(a[..]) == multiset(old(a[..]))
      invariant StableReorder(old(a[..]), a[..])
      invariant a[i + 1..] == old(a[i + 1..])
    {
      ghost var before := a[..];
      SwapKeepsStableOrder(old(a[..]), before, j);
      SinkStep(before, i, j);
      a[j - 1], a[j] := a[j], a[j - 1];
      assert a[..] == Swap(before, j);
      j := j - 1;
    }
    SinkDone(a[..], i, j);
  }

  /** Python's list sort is stable; the model sorts by insertion, moving a
      record left only past strictly farther ones. Every stable sort by the
      same key yields the same list. */
  method StableSortByDistance(a: array<DistanceRecord>)
    modifies a
    ensures StablySortedFrom(old(a[..]), a[..])
  {
    var i := 0;
    while i < a.Length
      invariant 0 <= i <= a.Length
      invariant SortedByDistance(a[..i])
      invariant multiset(a[..]) == multiset(old(a[..]))
      invariant StableReorder(old(a[..]), a[..])
    {
      ghost var before := a[..];
      SinkInto(a, i);
      StableReorderTransitive(old(a[..]), before, a[..]);
      i := i + 1;
    }
    assert a[..a.Length] == a[..];
  }

  /** Every record `KeyFilter` keeps has distance `d`; under `TiesByCluster`
      the kept records are in strictly ascending cluster order. */
  lemma {:induction false} KeyFilterTiesByCluster(s: seq<DistanceRecord>, d: real)
    requires TiesByCluster(s)
    ensures TiesByCluster(KeyFilter(s, d))
  {
    if s != [] {
      var rest := KeyFilter(s[1..], d);
      assert TiesByCluster(s[1..]) by {
        forall i, j | 0 <= i < j < |s[1..]| && s[1..][i].distance == s[1..][j].distance
          ensures s[1..][i].cluster < s[1..][j].cluster
        {
          assert s[1..][i] == s[i + 1] && s[1..][j] == s[j + 1];
        }
      }
      KeyFilterTiesByCluster(s[1..], d);
      if s[0].distance == d {
        forall k | 0 <= k < |rest| ensures rest[k].distance == d && s[0].cluster < rest[k].cluster {
          KeyFilterMembers(s[1..], d, rest[k]);
          var m :| 0 <= m < |s[1..]| && s[1..][m] == rest[k];
          assert s[m + 1] == rest[k];
        }
        var f := KeyFilter(s, d);
        assert f == [s[0]] + rest;
        forall i, j | 0 <= i < j < |f| && f[i].distance == f[j].distance ensures f[i].cluster < f[j].cluster {
          if i == 0 {
            assert f[j] == rest[j - 1];
          } else {
            assert f[i] == rest[i - 1] && f[j] == rest[j - 1];
          }
        }
      } else {
        assert KeyFilter(s, d) == rest;
      }
    }
  }

  /** Two records of key `d` at positions i < j of `t` appear in that order
      in the subsequence of key `d`. */
  lemma {:induction false} KeyFilterKeepsOrder(t: seq<DistanceRecord>, i: nat, j: nat, d: real)
    requires i < j < |t| && t[i].distance == d && t[j].distance == d
    ensures exists p, q :: 0 <= p < q < |KeyFilter(t, d)| && KeyFilter(t, d)[p] == t[i] && KeyFilter(t, d)[q] == t[j]
  {
    var rest := KeyFilter(t[1..], d);
    if i == 0 {
      KeyFilterMembers(t[1..], d, t[j]);
      assert t[1..][j - 1] == t[j];
      var q :| 0 <= q < |rest| && rest[q] == t[j];
      assert KeyFilter(t, d) == [t[0]] + rest;
      assert KeyFilter(t, d)[0] == t[i] && KeyFilter(t, d)[q + 1] == t[j];
    } else {
      assert t[1..][i - 1] == t[i] && t[1..][j - 1] == t[j];
      KeyFilterKeepsOrder(t[1..], i - 1, j - 1, d);
      var p, q :| 0 <= p < q < |rest| && rest[p] == t[i] && rest[q] == t[j];
      if t[0].distance == d {
        assert KeyFilter(t, d) == [t[0]] + rest;
        assert KeyFilter(t, d)[p + 1] == t[i] && KeyFilter(t, d)[q + 1] == t[j];
      } else {
        assert KeyFilter(t, d) == rest;
      }
    }
  }

  /** Stability: a reordering that keeps every key's subsequence keeps
      equal distances in ascending cluster order. */
  lemma StableReorderKeepsTies(s: seq<DistanceRecord>, t: seq<DistanceRecord>)
    requires TiesByCluster(s) && StableReorder(s, t)
    ensures TiesByCluster(t)
  {
    forall i, j | 0 <= i < j < |t| && t[i].distance == t[j].distance ensures t[i].cluster < t[j].cluster {
      var d := t[i].distance;
      KeyFilterKeepsOrder(t, i, j, d);
      KeyFilterTiesByCluster(s, d);
      var f := KeyFilter(t, d);
      var p, q :| 0 <= p < q < |f| && f[p] == t[i] && f[q] == t[j];
    }
  }

  /** After the sort, records of equal distance keep ascending cluster
      index, because the list was built in index order and the sort is
      stable. */
  lemma SortedDistancesBreakTiesByIndex(dists: seq<real>, sorted: seq<DistanceRecord>)
    requires StablySortedFrom(IndexedDistances(dists), sorted)
    ensures SortedByDistance(sorted)
    ensures TiesByCluster(sorted)
  {
    StableReorderKeepsTies(IndexedDistances(dists), sorted);
  }

  /** `c` is the lowest index at which `dists` reaches its minimum. */
  predicate FirstMinimum(dists: seq<real>, c: nat) {
    && c < |dists|
    && (forall i :: 0 <= i < |dists| ==> dists[c] <= dists[i])
    && (forall i :: 0 <= i < c ==> dists[c] < dists[i])
  }

  /** `nearest` and `second_nearest`: the first two entries of the sorted
      list; `None` where Python's `distances[0]` raises `IndexError`. */
  datatype Ranking = Ranking(nearest: DistanceRecord, second: Option<DistanceRecord>)

  function Rank(sorted: seq<DistanceRecord>): (r: Option<Ranking>)
    ensures r.None? <==> sorted == []
    ensures r.Some? ==> r.value.nearest == sorted[0]
    ensures r.Some? ==> (r.value.second.Some? <==> |sorted| > 1)
    ensures r.Some? && r.value.second.Some? ==> r.value.second.value == sorted[1]
  {
    if sorted == [] then None
    else Some(Ranking(sorted[0], if |sorted| > 1 then Some(sorted[1]) else None))
  }

  /** `second_nearest['distance'] - nearest['distance']`, or 0 without a
      second record. */
  function Margin(rk: Ranking): (d: real)
    ensures rk.second.None? ==> d == 0.0
    ensures rk.second.Some? ==> rk.nearest.distance + d == rk.second.value.distance
    ensures rk.second.Some? && rk.nearest.distance <= rk.second.value.distance ==> d >= 0.0
  {
    if rk.second.Some? then rk.second.value.distance - rk.nearest.distance else 0.0
  }

  /** What the ranking of a request means in terms of the per-centroid
      distances: the nearest record is the lowest-index centroid at minimum
      distance, and a second record exists iff there are at least two
      centroids; it is another centroid, no farther than any centroid but
      the nearest. */
  lemma RankOfSortedDistances(dists: seq<real>, sorted: seq<DistanceRecord>)
    requires StablySortedFrom(IndexedDistances(dists), sorted)
    ensures Rank(sorted).Some? <==> |dists| > 0
    ensures Rank(sorted).Some? ==>
      var rk := Rank(sorted).value;
      && FirstMinimum(dists, rk.nearest.cluster)
      && rk.nearest.distance == dists[rk.nearest.cluster]
      && (rk.second.Some? <==> |dists| > 1)
      && (rk.second.Some? ==>
            && rk.second.value.cluster < |dists|
            && rk.second.value.cluster != rk.nearest.cluster
            && rk.second.value.distance == dists[rk.second.value.cluster]
            && (forall i :: 0 <= i < |dists| && i != rk.nearest.cluster ==> rk.second.value.distance <= dists[i]))
  {
    var rs := IndexedDistances(dists);
    if |dists| > 0 {
      SortedDistancesBreakTiesByIndex(dists, sorted);
      IndexedDistancesOnePerCentroid(dists);
      // Every record of the sorted list is an input record, and back.
      assert forall x :: x in sorted <==> x in rs by {
        forall x ensures x in sorted <==> x in rs {
          assert x in sorted <==> x in multiset(sorted);
          assert x in rs <==> x in multiset(rs);
        }
      }
      var n := sorted[0];
      assert n in sorted;
      var c := n.cluster;
      assert n == rs[c];
      forall i | 0 <= i < |dists| ensures dists[c] <= dists[i] && (i < c ==> dists[c] < dists[i]) {
        assert rs[i] in rs;
        var p :| 0 <= p < |sorted| && sorted[p] == rs[i];
        if p != 0 && i < c && dists[i] == dists[c] {
          assert false;
        }
      }
      if |dists| > 1 {
        var m := sorted[1];
        assert m in sorted;
        assert m == rs[m.cluster];
        assert m != n;
        forall i | 0 <= i < |dists| && i != c ensures m.distance <= dists[i] {
          assert rs[i] in rs;
          var p :| 0 <= p < |sorted| && sorted[p] == rs[i];
          assert p != 0;
        }
      }
    }
  }

  /** The margin is the gap between the two nearest distances: never
      negative, and exactly 0 when there is only one centroid. */
  lemma MarginOfSortedDistances(dists: seq<real>, sorted: seq<DistanceRecord>)
    requires StablySortedFrom(IndexedDistances(dists), sorted)
    ensures Rank(sorted).Some? ==>
      && Margin(Rank(sorted).value) >= 0.0
      && (|dists| > 1 ==> Margin(Rank(sorted).value) == sorted[1].distance - sorted[0].distance)
      && (|dists| == 1 ==> Margin(Rank(sorted).value) == 0.0)
  {
    if |dists| > 1 {
      assert sorted[0].distance <= sorted[1].distance;
    }
  }
}
