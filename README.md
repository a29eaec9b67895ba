# Cluster-based recommendation: a verified model

This project models the discrete logic of a small e-commerce recommender
built on k-means. The service has two parts.

- **Training script** (`scripts/2_train_model.py`). After the k-means fit,
  the raw cluster labels are renumbered so that label 0 is the cluster with
  the lowest mean Monetary. The row labels and the centroid array follow
  the renumbering. The script then reports per-label row counts, writes
  metadata and writes a fixed catalog from cluster to products.
- **Request handler** (`app/routers/recommend.py`). `POST /recommend/user`
  first rejects the request when the scaler or the k-means model did not
  load. It then builds one `{cluster, distance}` record per centroid and
  sorts them with Python's stable sort. It picks the nearest and the
  second-nearest record and computes the margin between them. It
  normalises the catalog entry of the predicted cluster into product ids,
  looks the products up, and assembles the recommendation list. When
  nothing resolves, the list falls back to a single sentinel item.
  `GET /recommend/by_cluster/{cid}` is a catalog lookup that defaults to an
  empty list.

The floating-point work is not modelled: the scaler, `kmeans.predict`, the
Euclidean norms and the per-cluster means. It enters the model as abstract
`real` inputs, and the model verifies the logic built on top of them.

Modules, one file each:

- `Wrappers` (`wrappers.dfy`): `Option` and `Result`.
- `Ranking` (`ranking.dfy`): distance records, the stable in-place sort, nearest, second-nearest and margin.
- `Catalog` (`catalog.dfy`): catalog item shapes, entry normalisation and the by-cluster lookup.
- `Recommend` (`recommend.dfy`): the readiness guard, the product query, recommendation assembly and the whole `recommend_user` handler.
- `Training` (`training.dfy`): the relabelling by mean, the remapping of rows and centroids, cluster counts, the catalog and the metadata.
- `Pipeline` (`pipeline.dfy`): facts that connect the training artifacts to the handler.

Stability is stated in general terms. `StableReorder(s, t)` says that, for
every distance `d`, the records of distance `d` appear in the same order in
`t` as in `s`. Because the records are built in centroid order, this gives
two results. Equal distances stay in ascending cluster order. The nearest
record is the lowest-index centroid among those at minimum distance.

## Model

| member | source | states |
|---|---|---|
| `Ranking.BuildDistances` | app/routers/recommend.py:57-64 | The enumeration loop returns exactly the list built by `IndexedDistances`: one record per centroid, with entry i equal to (i, distance i). |
| `Ranking.IndexedDistancesOnePerCentroid` | app/routers/recommend.py:57-64 | Record i is centroid i with its own distance. Every record sits at the index named by its cluster field, so the cluster fields are a permutation of 0..K-1. |
| `Ranking.KeyFilterAppend` | app/routers/recommend.py:66 | Taking the records of one distance distributes over concatenation. This is the building block of the stability proof. |
| `Ranking.SwapKeepsKeyFilter` | app/routers/recommend.py:66 | Exchanging two neighbours with different distances leaves the order of the records of every distance unchanged. |
| `Ranking.StableSortByDistance` | app/routers/recommend.py:66 | The in-place sort leaves the array sorted by distance and a permutation of its input. For every distance, the records with that distance keep their input order. |
| `Ranking.SinkInto` | app/routers/recommend.py:66 | One insertion pass extends the sorted prefix by one element. It preserves the multiset and the per-distance order, and it leaves every record after position i where it was. |
| `Ranking.StableReorderKeepsTies` | app/routers/recommend.py:66 | A reordering that keeps every distance's subsequence also keeps equal distances in ascending cluster order. |
| `Ranking.SortedDistancesBreakTiesByIndex` | app/routers/recommend.py:57-66 | After the sort, the distances are non-decreasing, and records of equal distance are in ascending cluster index. |
| `Ranking.Rank` | app/routers/recommend.py:67-68 | `nearest` is the first record of the sorted list. `second_nearest` is present iff the list has more than one record, and is then the second record. There is no ranking for an empty list, where `distances[0]` raises. |
| `Ranking.Margin` | app/routers/recommend.py:110 | Without a second record the margin is 0. Otherwise nearest distance plus margin is the second distance, so the margin is non-negative when the second is no nearer. |
| `Ranking.RankOfSortedDistances` | app/routers/recommend.py:67-68 | A ranking exists iff K > 0. `nearest` is the lowest-index centroid of minimum distance and carries that distance. `second_nearest` is present iff K > 1. It is a different centroid, no farther than any centroid other than the nearest. |
| `Ranking.MarginOfSortedDistances` | app/routers/recommend.py:110 | The margin is `second.distance - nearest.distance` when a second record exists. It is never negative, and it is exactly 0 when K = 1. |
| `Catalog.Truncate` | app/routers/recommend.py:78 | `int(x)` of a float truncates toward zero. |
| `Catalog.ProductIdsOfDicts` | app/routers/recommend.py:76 | The comprehension succeeds iff every item is a dict with `product_id`. It then gives each item's id, in order and with the same length. |
| `Catalog.IntsOfNumbers` | app/routers/recommend.py:78 | The comprehension succeeds iff every item is a number. It then gives `int(x)` of each item, in order. |
| `Catalog.NormaliseEntry` | app/routers/recommend.py:71-78 | An empty entry gives no ids. Otherwise the first item decides the shape: a dict gives the `product_id`s, a number gives `int(x)` for each item, and anything else gives no ids. A later item of the wrong shape raises. |
| `Catalog.Lookup` | app/routers/recommend.py:71 | `topN.get(cid, [])` returns the entry when the key is present and `[]` otherwise. |
| `Catalog.RecommendByCluster` | app/routers/recommend.py:28-30 | Echoes `cid` unchanged. Returns the catalog entry for `cid`, or an empty list when `cid` is absent. |
| `Recommend.Query` | app/routers/recommend.py:82 | A row is in the result iff it is in the table and its id is one of the requested ids. The result is no longer than the table. |
| `Recommend.QueryKeepsMultiplicity` | app/routers/recommend.py:82 | The query neither repeats nor drops a row. Each selected row occurs in the result exactly as often as in the table, and no other row occurs. |
| `Recommend.QueryWithoutIds` | app/routers/recommend.py:81-82 | With no ids, no product resolves. |
| `Recommend.AssembleRecommendations` | app/routers/recommend.py:80-92 | The list is never empty. It is exactly the sentinel (id 0, "Tidak ada rekomendasi", "General", price 0) when no product resolves. Otherwise it holds one item per resolved product, in query order. Each item has a requested id, a price in [20, 500], and the product's own name and category. |
| `Recommend.ErrorOf` | app/routers/recommend.py:38-39 | Every failure is answered with status 500. The fixed detail "Model ML belum siap di server." goes with exactly the not-ready failure. The others carry the caught exception's text (line 117), which is not modelled. |
| `Recommend.RecommendUser` | app/routers/recommend.py:32-116 | Without the scaler or the k-means model, the request fails with `ModelNotReady` before any scoring or log row. It fails with no log row when scoring raises, when there is no centroid, or when the catalog entry is malformed. Otherwise it succeeds and returns the predicted cluster unchanged. `all_distances` is the stable sort of the indexed distances. The nearest cluster is the cluster of the first sorted record, which is the lowest-index minimum. The next-nearest is present iff K > 1, and is then the cluster of the second sorted record. The margin is the gap, never negative. The recommendations are assembled from the queried products and are never empty. The log row records the user, the predicted cluster and the same items. |
| `Training.SortByMean` | scripts/2_train_model.py:32 | The index of the sorted means is a permutation of the old labels 0..K-1, in ascending order of mean. The order among equal means is left open. |
| `Training.MappingOf` | scripts/2_train_model.py:33 | The dict comprehension maps the n-th label of the order to n, and has no other keys. |
| `Training.RelabelMapping` | scripts/2_train_model.py:32-33 | `mapping` is a bijection from the old labels 0..K-1 onto the new labels 0..K-1. A smaller new label never has a larger mean, and a strictly smaller mean always gets a smaller new label. |
| `Training.Relabel` | scripts/2_train_model.py:34 | Every row's new `Cluster` equals `mapping[Temp_Cluster]`. |
| `Training.CountUnderInjection` | scripts/2_train_model.py:34 | Renaming labels with an injective map keeps the number of rows of each cluster. |
| `Training.RelabelKeepsClusterSizes` | scripts/2_train_model.py:31-34 | The new cluster `mapping[o]` has exactly as many rows as the old cluster `o`. |
| `Training.RelabelOrdersRowsByMean` | scripts/2_train_model.py:31-34 | A row with a smaller new label belongs to an old cluster of no larger mean. Rows labelled 0 belong to a cluster of minimum mean. |
| `Training.PermutedRowsMultiset` | scripts/2_train_model.py:36-38 | Picking rows through a permutation of the row indices rearranges the rows. |
| `Training.SortedCentroidsFollowMapping` | scripts/2_train_model.py:36-38 | For every old label o, `sorted_centroids[mapping[o]] == centroids[o]`. |
| `Training.SortedCentroidsRearrange` | scripts/2_train_model.py:36-38 | The renumbered centroid array is a row permutation of the original: the multiset of rows is unchanged. |
| `Training.SortedCentroids` | scripts/2_train_model.py:36-38 | The renumbered centroid array, as a value, has one row per centroid. `SortedCentroidsFollowMapping` and `SortedCentroidsRearrange` state where each row goes. |
| `Training.PermuteCentroids` | scripts/2_train_model.py:36-38 | The zero-initialised array, filled in place, ends up equal to `SortedCentroids`. |
| `Training.AssignRows` | scripts/2_train_model.py:37-38 | The loop over `mapping.items()` overwrites every row n with the centroid of the n-th old label. |
| `Training.CountsFrom` | scripts/2_train_model.py:59 | Lists the labels of a range that occur, in ascending order, each with its row count. |
| `Training.ClusterCounts` | scripts/2_train_model.py:59 | Cluster counts are keyed in strictly ascending label order. Each count is positive and equals the number of rows with that label. Every label that occurs is listed, and the counts sum to the number of rows. |
| `Training.BuildTopN` | scripts/2_train_model.py:72-76 | The catalog covers cluster ids 0..3. Each cluster has three dict items, cluster c holding ids 101+3c, 102+3c and 103+3c. All ids lie in 101..112, and no id is in two clusters. |
| `Training.Metadata` | scripts/2_train_model.py:51-60 | `features` is the training feature list and `cluster_names` the four names. `features` and `feature_readable` have 8 entries each, and `cluster_names` has one entry per cluster (4). The numeric fields are passed through unchanged. |
| `Pipeline.FeatureOrderAgrees` | scripts/2_train_model.py:19-22 | The training feature order equals the request-time column order (app/routers/recommend.py:45-48). The script has 8 readable names and 4 cluster names, matching `n_clusters=4`. |
| `Pipeline.TrainedCatalogNormalises` | app/routers/recommend.py:71-78 | On the trained catalog, cluster c in 0..3 normalises to ids [101+3c, 102+3c, 103+3c]. Any other id normalises to no ids. |
| `Pipeline.ByClusterOnTrainedCatalog` | app/routers/recommend.py:30 | On the trained catalog, `by_cluster` echoes the id. It returns three items for clusters 0..3 and none otherwise. |

## Left out

- Scaler, k-means and distances: `StandardScaler`, `KMeans.fit`/`fit_predict`/`predict`, `silhouette_score`, `inertia_` and `inverse_transform` are foreign numerics. Their outputs enter as values: the predicted label and one distance per centroid (`Scoring.Scored`) or an exception (`Scoring.Raised`), and the per-cluster means and centroid rows in training. The second fit, `kmeans_final` (scripts/2_train_model.py:40-41), is not modelled.
- Float rounding: `np.log1p`/`np.expm1`, the Euclidean norm and the rounding to 4 or 2 decimals are not modelled. Distances, margins and prices are abstract reals.
- `np.random.uniform(20, 500)`: unseeded, so it is modelled as a parameter `draw: nat -> Price`. `Price` is the reals in [20, 500], and the k-th resolved product gets `draw(k)`.
- Database: the query is modelled as a filter of a product table, in table order, because SQL gives no order here. The `PredictionLog` insert and commit are modelled only as the log row the handler returns, and a failing commit is not modelled. `jsonable_encoder` is the identity on these values.
- HTTP: authentication dependencies and FastAPI itself are not modelled. The failures that are modelled return a `Failure` value, and `ErrorOf` gives their HTTP 500. These are: the readiness guard, an exception in scaling or prediction (`Scoring.Raised`), an empty distance list, and a malformed catalog entry. The handler's other exceptions are not modelled. These are an exception from the database query (line 82) and from the log insert or commit (lines 101-102), and an exception while building the request frame (lines 41-43, outside the `try`).
- Artifact loading: loading with joblib, json and CSV at import time, and the print-on-failure fallback, is modelled only as the `Artifacts` value. The fallback has both models missing and an empty catalog. File writes in training are not modelled.
- Catalog item shapes: `int()` of a numeric string (`int("101")`), `int()` of NaN or infinity, and `product_id` values that are not integers are not modelled. Any non-dict, non-number item is taken to make `int()` raise. A `bool` item counts as an integer item, as `isinstance(True, int)` holds in Python.
- Relabel: requires every raw label to be a key of `mapping`, as k-means labels are 0..K-1 and every cluster has rows. The NaN that `Series.map` gives for an unknown label is not modelled. `PermuteCentroids` likewise requires one mean per centroid, because `groupby(...).mean()` then has K entries.
- `centroids_real`: building it (dropping `Monetary_Log`, adding `Monetary`) is float work on a DataFrame and is passed through as given.
- `app/routers/cluster.py` is not part of this model. `predict_cluster` wraps the scaler and k-means, and `get_model_metrics` reads a file.
- Absent from the source files: confidence scores, driver attribution, explanation strings, ratings and deterministic seeded pricing per product are described for the system but do not appear in `recommend.py` or the training script. The model follows the code: prices are unseeded draws in [20, 500], there is no rating, and the sentinel has price 0.
- `Training.SortByMean`: leaves the order of equal means open, because pandas' default `sort_values` is not stable. The model's insertion order is one admissible outcome, and every contract holds for any tie order.
