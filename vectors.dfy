/**
 * Rows of metric values and their column sums: what pandas' sum() and the
 * `month_totals[col] += value` updates of create_monthly_report compute,
 * one metric column at a time.
 */
module Vectors {
  /** Every row of `vs` has exactly `w` values (one per metric column). */
  predicate Uniform(vs: seq<seq<int>>, w: nat)
  {
    forall i :: 0 <= i < |vs| ==> |vs[i]| == w
  }

  /** The row of `w` zeros: `{col: 0 for col in numeric_cols}`. */
  function Zeros(w: nat): (z: seq<int>)
    ensures |z| == w && forall j :: 0 <= j < w ==> z[j] == 0
  {
    seq(w, _ => 0)
  }

  /** Column-wise addition of two rows of the same width. */
  function AddVec(a: seq<int>, b: seq<int>): (c: seq<int>)
    requires |a| == |b|
    ensures |c| == |a| && forall j :: 0 <= j < |a| ==> c[j] == a[j] + b[j]
  {
    seq(|a|, j requires 0 <= j < |a| => a[j] + b[j])
  }

  /** The sum of column `j` over the rows `vs`, top to bottom. */
  function ColumnSum(vs: seq<seq<int>>, j: nat): int
    requires forall i :: 0 <= i < |vs| ==> j < |vs[i]|
  {
    if vs == [] then 0 else ColumnSum(vs[..|vs| - 1], j) + vs[|vs| - 1][j]
  }

  /** The row of column sums of `vs`: entry j is the sum of column j. */
  function VecSum(vs: seq<seq<int>>, w: nat): (s: seq<int>)
    requires Uniform(vs, w)
    ensures |s| == w
  {
    seq(w, j requires 0 <= j < w => ColumnSum(vs, j))
  }

  lemma {:induction false} ColumnSumConcat(a: seq<seq<int>>, b: seq<seq<int>>, j: nat)
    requires forall i :: 0 <= i < |a| ==> j < |a[i]|
    requires forall i :: 0 <= i < |b| ==> j < |b[i]|
    ensures forall i :: 0 <= i < |a + b| ==> j < |(a + b)[i]|
    ensures ColumnSum(a + b, j) == ColumnSum(a, j) + ColumnSum(b, j)
    decreases |b|
  {
    if b == [] {
      assert a + b == a;
    } else {
      var b' := b[..|b| - 1];
      assert (a + b)[..|a + b| - 1] == a + b';
      ColumnSumConcat(a, b', j);
    }
  }

  /** Summing no rows gives zeros. */
  lemma VecSumEmpty(w: nat)
    ensures VecSum([], w) == Zeros(w)
  {
  }

  /** Adding one more row to the sum adds it column by column. */
  lemma VecSumAppend(vs: seq<seq<int>>, v: seq<int>, w: nat)
    requires Uniform(vs, w) && |v| == w
    ensures Uniform(vs + [v], w)
    ensures VecSum(vs + [v], w) == AddVec(VecSum(vs, w), v)
  {
    assert (vs + [v])[..|vs|] == vs;
  }

  /** The column sums of two stacked blocks of rows are the sums of each block's column sums. */
  lemma VecSumConcat(a: seq<seq<int>>, b: seq<seq<int>>, w: nat)
    requires Uniform(a, w) && Uniform(b, w)
    ensures Uniform(a + b, w)
    ensures VecSum(a + b, w) == AddVec(VecSum(a, w), VecSum(b, w))
  {
    forall j | 0 <= j < w
      ensures VecSum(a + b, w)[j] == VecSum(a, w)[j] + VecSum(b, w)[j]
    {
      ColumnSumConcat(a, b, j);
    }
  }

  /** The sum of a single row is that row. */
  lemma VecSumSingle(v: seq<int>)
    ensures Uniform([v], |v|) && VecSum([v], |v|) == v
  {
    VecSumAppend([], v, |v|);
    assert [] + [v] == [v];
  }

  lemma AddVecZeros(a: seq<int>)
    ensures AddVec(Zeros(|a|), a) == a && AddVec(a, Zeros(|a|)) == a
  {
  }

  lemma AddVecCommutes(a: seq<int>, b: seq<int>)
    requires |a| == |b|
    ensures AddVec(a, b) == AddVec(b, a)
  {
  }

  lemma AddVecAssociates(a: seq<int>, b: seq<int>, c: seq<int>)
    requires |a| == |b| == |c|
    ensures AddVec(AddVec(a, b), c) == AddVec(a, AddVec(b, c))
  {
  }
}
