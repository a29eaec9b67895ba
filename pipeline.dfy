/** Properties that tie the training script's artifacts to the request
    handler that consumes them. */
module Pipeline {
  import opened Wrappers
  import opened Catalog
  import Recommend
  import Training

  /** The training features and the request-time columns are the same
      eight names in the same order, and there is one cluster name per
      cluster of the fit. */
  lemma FeatureOrderAgrees()
    ensures Training.Features == Recommend.UseCols
    ensures |Training.Features| == 8 && |Training.FeatureReadable| == 8
    ensures |Training.ClusterNames| == Training.NClusters
  {
  }

  /** Every cluster of the trained catalog normalises to its three product
      ids, in order; any other cluster id normalises to no ids. */
  lemma TrainedCatalogNormalises(cid: int)
    ensures 0 <= cid < 4 ==>
      NormaliseEntry(Lookup(Training.TrainedTopN, cid)) == Ok([101 + 3 * cid, 102 + 3 * cid, 103 + 3 * cid])
    ensures !(0 <= cid < 4) ==> NormaliseEntry(Lookup(Training.TrainedTopN, cid)) == Ok([])
  {
    var entry := Lookup(Training.TrainedTopN, cid);
    if 0 <= cid < 4 {
      var r := NormaliseEntry(entry);
      assert r.Ok?;
      assert r.value == [101 + 3 * cid, 102 + 3 * cid, 103 + 3 * cid];
    }
  }

  /** `GET /recommend/by_cluster/{cid}` on the trained catalog: the three
      dict items of a cluster 0..3, and nothing for any other id. */
  lemma ByClusterOnTrainedCatalog(cid: int)
    ensures RecommendByCluster(Training.TrainedTopN, cid).cluster == cid
    ensures |RecommendByCluster(Training.TrainedTopN, cid).recommendations| == (if 0 <= cid < 4 then 3 else 0)
  {
  }
}
