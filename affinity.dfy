/**
 * The affinity matrix of `Spec_Cluster.perform_sc`: the k-nearest-neighbour
 * connectivity graph G (computed by scikit-learn, supplied here as a matrix)
 * made symmetric as `0.5 * (G + G.T)`.
 */
module Affinity {

  type Matrix = seq<seq<real>>

  /** `m` is an n-by-n matrix, stored row by row. */
  predicate IsSquare(m: Matrix, n: nat)
  {
    |m| == n && forall i :: 0 <= i < n ==> |m[i]| == n
  }

  predicate IsSymmetric(m: Matrix)
    requires IsSquare(m, |m|)
  {
    forall i, j :: 0 <= i < |m| && 0 <= j < |m| ==> m[i][j] == m[j][i]
  }

  /** A connectivity matrix: every entry is 0 or 1. */
  predicate IsBinary(m: Matrix)
    requires IsSquare(m, |m|)
  {
    forall i, j :: 0 <= i < |m| && 0 <= j < |m| ==> m[i][j] == 0.0 || m[i][j] == 1.0
  }

  /** `m.T` */
  function Transpose(m: Matrix): (t: Matrix)
    requires IsSquare(m, |m|)
    ensures IsSquare(t, |m|)
    ensures forall i, j :: 0 <= i < |m| && 0 <= j < |m| ==> t[i][j] == m[j][i]
  {
    seq(|m|, i requires 0 <= i < |m| => seq(|m|, j requires 0 <= j < |m| => m[j][i]))
  }

  /** `a + b` */
  function Add(a: Matrix, b: Matrix): (c: Matrix)
    requires IsSquare(a, |a|) && IsSquare(b, |a|)
    ensures IsSquare(c, |a|)
    ensures forall i, j :: 0 <= i < |a| && 0 <= j < |a| ==> c[i][j] == a[i][j] + b[i][j]
  {
    seq(|a|, i requires 0 <= i < |a| => seq(|a|, j requires 0 <= j < |a| => a[i][j] + b[i][j]))
  }

  /** `x * m` */
  function Scale(x: real, m: Matrix): (c: Matrix)
    requires IsSquare(m, |m|)
    ensures IsSquare(c, |m|)
    ensures forall i, j :: 0 <= i < |m| && 0 <= j < |m| ==> c[i][j] == x * m[i][j]
  {
    seq(|m|, i requires 0 <= i < |m| => seq(|m|, j requires 0 <= j < |m| => x * m[i][j]))
  }

  /**
   * `0.5 * (connectivity + connectivity.T)`: a symmetric matrix of the same
   * size whose (i, j) entry is the mean of the two directed edge weights, and
   * whose diagonal is the connectivity's own (so a graph built without
   * self-neighbours keeps a zero diagonal).
   */
  function Symmetrize(g: Matrix): (a: Matrix)
    requires IsSquare(g, |g|)
    ensures IsSquare(a, |g|) && IsSymmetric(a)
    ensures forall i, j :: 0 <= i < |g| && 0 <= j < |g| ==> a[i][j] == (g[i][j] + g[j][i]) / 2.0
    ensures forall i :: 0 <= i < |g| ==> a[i][i] == g[i][i]
  {
    Scale(0.5, Add(g, Transpose(g)))
  }

  /**
   * On a 0/1 connectivity graph the affinity is 1 exactly for edges found in
   * both directions, 0.5 for edges found in one direction only, 0 otherwise;
   * so it never exceeds 1.
   */
  lemma BinaryAffinity(g: Matrix, i: nat, j: nat)
    requires IsSquare(g, |g|) && IsBinary(g)
    requires i < |g| && j < |g|
    ensures var a := Symmetrize(g);
      && (a[i][j] == 1.0 <==> g[i][j] == 1.0 && g[j][i] == 1.0)
      && (a[i][j] == 0.5 <==> g[i][j] != g[j][i])
      && (a[i][j] == 0.0 <==> g[i][j] == 0.0 && g[j][i] == 0.0)
      && 0.0 <= a[i][j] <= 1.0
  {
  }

  /** Weights in [0, 1] stay in [0, 1]. */
  lemma AffinityBounded(g: Matrix)
    requires IsSquare(g, |g|)
    requires forall i, j :: 0 <= i < |g| && 0 <= j < |g| ==> 0.0 <= g[i][j] <= 1.0
    ensures var a := Symmetrize(g);
      forall i, j :: 0 <= i < |g| && 0 <= j < |g| ==> 0.0 <= a[i][j] <= 1.0
  {
  }

  /** A matrix that is already symmetric is left unchanged. */
  lemma SymmetrizeFixesSymmetric(g: Matrix)
    requires IsSquare(g, |g|) && IsSymmetric(g)
    ensures Symmetrize(g) == g
  {
    var a := Symmetrize(g);
    forall i | 0 <= i < |g|
      ensures a[i] == g[i]
    {
      assert forall j :: 0 <= j < |g| ==> a[i][j] == g[i][j];
    }
  }

  /** Symmetrizing twice is the same as symmetrizing once. */
  lemma SymmetrizeIdempotent(g: Matrix)
    requires IsSquare(g, |g|)
    ensures Symmetrize(Symmetrize(g)) == Symmetrize(g)
  {
    SymmetrizeFixesSymmetric(Symmetrize(g));
  }
}
