/**
 * The component bookkeeping of `spectral_embedding_sb` and
 * `spectral_clustering_sb`: how many eigenvectors the solver is asked for,
 * the reversal of their order, and which of them become the embedding.
 * The numerics (Laplacian, eigen-solver, degree normalisation, sign flip,
 * k-means) are outside the model and come in as functions.
 */
module Spectral {
  import opened Wrappers
  import opened Affinity

  type Vector = seq<real>

  /**
   * The calls this code makes into numerical libraries, each fixed to the
   * affinity matrix it is applied to.
   * - eigsh(affinity, normed, k): the k eigenvectors that `eigsh` returns for
   *   the negated, diagonal-adjusted Laplacian of `affinity`, normalised when
   *   `normed` holds (the rows of `diffusion_map.T`);
   * - divideByDegree(affinity, v): `v / dd`, dd the degree vector of the
   *   normalised Laplacian of `affinity`;
   * - signFlip(v): the deterministic sign flip of one eigenvector (one row);
   * - kMeans(maps, k): the labels that `k_means` assigns to the embedding.
   */
  datatype Numerics = Numerics(
    eigsh: (Matrix, bool, nat) -> seq<Vector>,
    divideByDegree: (Matrix, Vector) -> Vector,
    signFlip: Vector -> Vector,
    kMeans: (seq<Vector>, nat) -> seq<int>)

  /** The number of eigenvectors requested: one more when the first is dropped. */
  function SolverRequest(nComponents: nat, dropFirst: bool): (k: nat)
    ensures dropFirst ==> k > 0 && k - 1 == nComponents
    ensures !dropFirst ==> k == nComponents
  {
    if dropFirst then nComponents + 1 else nComponents
  }

  /** `s` in reverse order. */
  function Reverse<T>(s: seq<T>): (r: seq<T>)
    ensures |r| == |s|
    ensures forall i :: 0 <= i < |s| ==> r[i] == s[|s| - 1 - i]
  {
    if |s| == 0 then [] else [s[|s| - 1]] + Reverse(s[..|s| - 1])
  }

  /**
   * Python's `rows[start::-1]`: from `start` down to the first element, a
   * start past the end being clamped to the last index.
   */
  function SliceDownFrom<T>(rows: seq<T>, start: nat): (r: seq<T>)
    ensures |rows| == 0 ==> r == []
    ensures |rows| > 0 ==> |r| == (if start < |rows| then start else |rows| - 1) + 1
    ensures forall i :: 0 <= i < |r| ==> r[i] == rows[|r| - 1 - i]
  {
    if |rows| == 0 then []
    else
      var top := if start < |rows| then start else |rows| - 1;
      Reverse(rows[..top + 1])
  }

  /** Python's `s[lo:hi]` for non-negative bounds, both clamped to `len(s)`. */
  function Slice<T>(s: seq<T>, lo: nat, hi: nat): (r: seq<T>)
    ensures lo <= hi <= |s| ==> r == s[lo..hi]
    ensures |r| == (if lo < hi && lo < |s| then (if hi < |s| then hi else |s|) - lo else 0)
    ensures forall i :: 0 <= i < |r| ==> lo + i < |s| && r[i] == s[lo + i]
  {
    var l := if lo < |s| then lo else |s|;
    var h := if hi < |s| then hi else |s|;
    if l < h then s[l..h] else []
  }

  /** What happens to every eigenvector after the reversal: degree division when normalised, then the sign flip. */
  function PostProcess(num: Numerics, adjacency: Matrix, normLaplacian: bool, v: Vector): (r: Vector)
    ensures normLaplacian ==> r == num.signFlip(num.divideByDegree(adjacency, v))
    ensures !normLaplacian ==> r == num.signFlip(v)
  {
    var w := if normLaplacian then num.divideByDegree(adjacency, v) else v;
    num.signFlip(w)
  }

  function MapPostProcess(num: Numerics, adjacency: Matrix, normLaplacian: bool, vs: seq<Vector>): (r: seq<Vector>)
    ensures |r| == |vs|
    ensures forall i :: 0 <= i < |vs| ==> r[i] == PostProcess(num, adjacency, normLaplacian, vs[i])
  {
    seq(|vs|, i requires 0 <= i < |vs| => PostProcess(num, adjacency, normLaplacian, vs[i]))
  }

  /**
   * `spectral_embedding_sb`: the embedding, as its list of columns (one per
   * component). The solver is asked for `SolverRequest` eigenvectors; their
   * order is reversed; with `dropFirst` the first of the reversed vectors is
   * discarded, otherwise the first `nComponents` are kept. However many
   * vectors the solver returns, no more than `nComponents` come out.
   */
  function SpectralEmbeddingSb(
    adjacency: Matrix, nComponents: nat, normLaplacian: bool, dropFirst: bool, num: Numerics): (r: seq<Vector>)
    ensures |r| <= nComponents
  {
    var k := SolverRequest(nComponents, dropFirst);
    var diffusion := num.eigsh(adjacency, normLaplacian, k);
    var embedding := SliceDownFrom(diffusion, k);
    var embedding := MapPostProcess(num, adjacency, normLaplacian, embedding);
    if dropFirst then Slice(embedding, 1, k) else Slice(embedding, 0, k)
  }

  /**
   * When the solver returns the k vectors it was asked for, the embedding
   * has exactly `nComponents` columns: column i is the vector k-1-i of the
   * solver's output (k-2-i with `dropFirst`), post-processed. So the whole
   * output is reversed even though the slice starts past its end, and with
   * `dropFirst` the solver's last vector is the one discarded.
   */
  lemma EmbeddingColumns(adjacency: Matrix, nComponents: nat, normLaplacian: bool, dropFirst: bool, num: Numerics)
    requires |num.eigsh(adjacency, normLaplacian, SolverRequest(nComponents, dropFirst))| == SolverRequest(nComponents, dropFirst)
    ensures var k := SolverRequest(nComponents, dropFirst);
      var vs := num.eigsh(adjacency, normLaplacian, k);
      var r := SpectralEmbeddingSb(adjacency, nComponents, normLaplacian, dropFirst, num);
      && k == (if dropFirst then nComponents + 1 else nComponents)
      && |r| == nComponents
      && forall i :: 0 <= i < nComponents ==>
           r[i] == PostProcess(num, adjacency, normLaplacian, vs[k - 1 - i - (if dropFirst then 1 else 0)])
  {
  }

  /** `n_components` defaults to `n_clusters`. */
  function ComponentCount(nClusters: nat, nComponents: Option<nat>): (n: nat)
    ensures nComponents.None? ==> n == nClusters
    ensures nComponents.Some? ==> n == nComponents.value
  {
    if nComponents.None? then nClusters else nComponents.value
  }

  /** The embedding that `spectral_clustering_sb` hands to `k_means` (normalised Laplacian, first vector kept). */
  function ClusteringMaps(affinity: Matrix, nClusters: nat, nComponents: Option<nat>, num: Numerics): (maps: seq<Vector>)
    ensures |maps| <= ComponentCount(nClusters, nComponents)
  {
    SpectralEmbeddingSb(affinity, ComponentCount(nClusters, nComponents), true, false, num)
  }

  /**
   * Whatever `n_components` is, the clustering keeps the first eigenvector:
   * when the solver returns the vectors requested, the maps are all of them
   * in reverse order, post-processed.
   */
  lemma ClusteringMapsReversed(affinity: Matrix, nClusters: nat, nComponents: Option<nat>, num: Numerics)
    ensures var n := ComponentCount(nClusters, nComponents);
      var vs := num.eigsh(affinity, true, n);
      |vs| == n ==> ClusteringMaps(affinity, nClusters, nComponents, num) == MapPostProcess(num, affinity, true, Reverse(vs))
  {
    var n := ComponentCount(nClusters, nComponents);
    if |num.eigsh(affinity, true, n)| == n {
      EmbeddingColumns(affinity, n, true, false, num);
    }
  }

  /**
   * `spectral_clustering_sb`: k-means with `nClusters` clusters on the
   * spectral embedding. When the solver returns the vectors it was asked
   * for, k-means sees all of them, in reverse order, degree-normalised and
   * sign-flipped: none is dropped.
   */
  function SpectralClusteringSb(affinity: Matrix, nClusters: nat, nComponents: Option<nat>, num: Numerics): (labels: seq<int>)
    ensures var n := ComponentCount(nClusters, nComponents);
      var vs := num.eigsh(affinity, true, n);
      |vs| == n ==> labels == num.kMeans(MapPostProcess(num, affinity, true, Reverse(vs)), nClusters)
  {
    ClusteringMapsReversed(affinity, nClusters, nComponents, num);
    num.kMeans(ClusteringMaps(affinity, nClusters, nComponents, num), nClusters)
  }

  /**
   * With the default `n_components`, the clustering asks the solver for
   * exactly `nClusters` eigenvectors (nothing is dropped) and, when it gets
   * them, clusters an embedding of `nClusters` columns: the solver's vectors
   * in reverse order, degree-normalised and sign-flipped.
   */
  lemma DefaultClusteringMaps(affinity: Matrix, nClusters: nat, num: Numerics)
    requires |num.eigsh(affinity, true, nClusters)| == nClusters
    ensures var maps := ClusteringMaps(affinity, nClusters, None, num);
      var vs := num.eigsh(affinity, true, nClusters);
      && SolverRequest(ComponentCount(nClusters, None), false) == nClusters
      && |maps| == nClusters
      && forall i :: 0 <= i < nClusters ==> maps[i] == PostProcess(num, affinity, true, vs[nClusters - 1 - i])
  {
    EmbeddingColumns(affinity, nClusters, true, false, num);
  }
}
