/** Rank-3 tensors and boolean matrices as values that carry their shape, so
    that a tensor with an empty leading axis still knows its other lengths,
    as a `torch.Tensor` does. */
module Tensors {

  /** A `d0 x d1 x d2` tensor; entry `(i, j, k)` is `v[i][j][k]`. */
  datatype Tensor<T> = Tensor(d0: nat, d1: nat, d2: nat, v: seq<seq<seq<T>>>) {
    predicate Valid() {
      |v| == d0 &&
      forall i :: 0 <= i < |v| ==> |v[i]| == d1 && forall j :: 0 <= j < |v[i]| ==> |v[i][j]| == d2
    }
  }

  /** A `rows x cols` matrix. */
  datatype Grid<T> = Grid(rows: nat, cols: nat, v: seq<seq<T>>) {
    predicate Valid() {
      |v| == rows && forall i :: 0 <= i < |v| ==> |v[i]| == cols
    }
  }

  /** The fibre along the first axis at `(j, k)`: `t[:, j, k]`. */
  function Column<T>(t: Tensor<T>, j: nat, k: nat): (c: seq<T>)
    requires t.Valid() && j < t.d1 && k < t.d2
    ensures |c| == t.d0 && forall i :: 0 <= i < t.d0 ==> c[i] == t.v[i][j][k]
  {
    seq(t.d0, i requires 0 <= i < t.d0 => t.v[i][j][k])
  }

  /** `w[0] * a[0] + ... + w[n-1] * a[n-1]`, the contraction of `torch.bmm`. */
  function DotUpTo(w: seq<real>, a: seq<real>, n: nat): real
    requires n <= |w| && n <= |a|
  {
    if n == 0 then 0.0 else DotUpTo(w, a, n - 1) + w[n - 1] * a[n - 1]
  }

  function Dot(w: seq<real>, a: seq<real>): real
    requires |w| == |a|
  {
    DotUpTo(w, a, |w|)
  }

  function SumUpTo(w: seq<real>, n: nat): real
    requires n <= |w|
  {
    if n == 0 then 0.0 else SumUpTo(w, n - 1) + w[n - 1]
  }

  function Sum(w: seq<real>): real {
    SumUpTo(w, |w|)
  }

  /** Positions with weight zero do not contribute. */
  lemma {:induction false} DotIgnoresZeroWeights(w: seq<real>, a: seq<real>, b: seq<real>, n: nat)
    requires n <= |w| && n <= |a| && n <= |b|
    requires forall i :: 0 <= i < n ==> w[i] == 0.0 || a[i] == b[i]
    ensures DotUpTo(w, a, n) == DotUpTo(w, b, n)
  {
    if n > 0 {
      DotIgnoresZeroWeights(w, a, b, n - 1);
      var x, y, z := w[n - 1], a[n - 1], b[n - 1];
      if x == 0.0 {
        assert x * y == 0.0 && x * z == 0.0;
      } else {
        assert y == z;
      }
      assert x * y == x * z;
    }
  }

  /** All-zero weights contract to zero. */
  lemma {:induction false} DotZeroWeights(w: seq<real>, a: seq<real>, n: nat)
    requires n <= |w| && n <= |a|
    requires forall i :: 0 <= i < n ==> w[i] == 0.0
    ensures DotUpTo(w, a, n) == 0.0
  {
    if n > 0 {
      DotZeroWeights(w, a, n - 1);
    }
  }
}
