/** `torch.softmax(sim, dim=0)` followed by the NaN-to-zero replacement, on one
    (sample, concept) column of the token axis. The exponential is kept
    abstract: any positive function `exp`; `exp(-inf)` is 0. A weight is
    `exp(v_l)` divided by the sum of `exp` over the column's finite entries. */
module TokenSoftmax {
  import opened ExtendedReals
  import opened Tensors

  /** A float result that may be NaN. */
  datatype Float = NaN | Num(x: real)

  /** What the model needs of the exponential. */
  ghost predicate PositiveFunction(exp: real -> real) {
    forall r :: exp(r) > 0.0
  }

  function ExpTerm(e: ExtReal, exp: real -> real): real {
    if e.Fin? then exp(e.r) else 0.0
  }

  function ExpSumUpTo(c: seq<ExtReal>, n: nat, exp: real -> real): real
    requires n <= |c|
  {
    if n == 0 then 0.0 else ExpSumUpTo(c, n - 1, exp) + ExpTerm(c[n - 1], exp)
  }

  /** The softmax denominator of a column. */
  function ExpSum(c: seq<ExtReal>, exp: real -> real): real {
    ExpSumUpTo(c, |c|, exp)
  }

  predicate AllNegInf(c: seq<ExtReal>) {
    forall i :: 0 <= i < |c| ==> c[i].NegInf?
  }

  /** `torch.softmax` along one column: every entry is NaN when the whole
      column is `-inf` (`exp(-inf - (-inf))`), otherwise the normalised
      exponentials. */
  function Softmax(c: seq<ExtReal>, exp: real -> real): (r: seq<Float>)
    requires PositiveFunction(exp)
    ensures |r| == |c|
  {
    if AllNegInf(c) then seq(|c|, i => NaN)
    else
      ExpSumNonNegative(c, |c|, exp);
      var s := ExpSum(c, exp);
      seq(|c|, i requires 0 <= i < |c| => Num(ExpTerm(c[i], exp) / s))
  }

  /** `torch.where(torch.isnan(sim), 0, sim)` on one value. */
  function NanToZero(f: Float): real {
    if f.NaN? then 0.0 else f.x
  }

  /** The aggregation weights of one column. */
  function Weights(c: seq<ExtReal>, exp: real -> real): (w: seq<real>)
    requires PositiveFunction(exp)
    ensures |w| == |c|
  {
    var sm := Softmax(c, exp);
    seq(|c|, i requires 0 <= i < |c| => NanToZero(sm[i]))
  }

  lemma {:induction false} ExpSumNonNegative(c: seq<ExtReal>, n: nat, exp: real -> real)
    requires n <= |c| && PositiveFunction(exp)
    ensures ExpSumUpTo(c, n, exp) >= 0.0
    ensures (exists i :: 0 <= i < n && c[i].Fin?) ==> ExpSumUpTo(c, n, exp) > 0.0
  {
    if n > 0 {
      ExpSumNonNegative(c, n - 1, exp);
      if c[n - 1].Fin? {
        assert exp(c[n - 1].r) > 0.0;
      }
    }
  }

  lemma {:induction false} SumOfScaled(c: seq<ExtReal>, w: seq<real>, s: real, n: nat, exp: real -> real)
    requires n <= |c| == |w| && s > 0.0
    requires forall i :: 0 <= i < |c| ==> w[i] == ExpTerm(c[i], exp) / s
    ensures SumUpTo(w, n) == ExpSumUpTo(c, n, exp) / s
  {
    if n > 0 {
      SumOfScaled(c, w, s, n - 1, exp);
      var a, b := ExpSumUpTo(c, n - 1, exp), ExpTerm(c[n - 1], exp);
      assert a / s + b / s == (a + b) / s;
    }
  }

  /** The NaN of `torch.softmax` occurs exactly in all-`-inf` columns. */
  lemma SoftmaxNaN(c: seq<ExtReal>, exp: real -> real, i: nat)
    requires i < |c| && PositiveFunction(exp)
    ensures Softmax(c, exp)[i].NaN? <==> AllNegInf(c)
  {
  }

  /** A `-inf` score gets weight zero; a finite one gets a positive weight. */
  lemma {:induction false} WeightSign(c: seq<ExtReal>, exp: real -> real, i: nat)
    requires i < |c| && PositiveFunction(exp)
    ensures c[i].NegInf? ==> Weights(c, exp)[i] == 0.0
    ensures c[i].Fin? ==> Weights(c, exp)[i] > 0.0
  {
    ExpSumNonNegative(c, |c|, exp);
    var s := ExpSum(c, exp);
    if c[i].Fin? {
      assert exp(c[i].r) > 0.0;
      assert Weights(c, exp)[i] == exp(c[i].r) / s;
    } else if !AllNegInf(c) {
      assert Weights(c, exp)[i] == 0.0 / s;
    }
  }

  /** Fallback: an all-`-inf` column has all-zero weights. */
  lemma WeightsAllNegInf(c: seq<ExtReal>, exp: real -> real)
    requires PositiveFunction(exp) && AllNegInf(c)
    ensures forall i :: 0 <= i < |c| ==> Weights(c, exp)[i] == 0.0
  {
  }

  /** Outside the fallback, a weight is its exponential over the column's sum. */
  lemma {:induction false} WeightValue(c: seq<ExtReal>, exp: real -> real, i: nat)
    requires i < |c| && PositiveFunction(exp) && !AllNegInf(c)
    ensures ExpSum(c, exp) > 0.0
    ensures Weights(c, exp)[i] == ExpTerm(c[i], exp) / ExpSum(c, exp)
  {
    var j :| 0 <= j < |c| && c[j].Fin?;
    ExpSumNonNegative(c, |c|, exp);
    assert Softmax(c, exp)[i] == Num(ExpTerm(c[i], exp) / ExpSum(c, exp));
  }

  /** Outside the fallback the weights add up to the column's sum of
      exponentials divided by itself. */
  lemma {:induction false} WeightsSum(c: seq<ExtReal>, exp: real -> real)
    requires PositiveFunction(exp) && !AllNegInf(c)
    ensures Sum(Weights(c, exp)) == 1.0
  {
    var s := ExpSum(c, exp);
    var w := Weights(c, exp);
    var j :| 0 <= j < |c| && c[j].Fin?;
    ExpSumNonNegative(c, |c|, exp);
    forall i | 0 <= i < |c| ensures w[i] == ExpTerm(c[i], exp) / s {
      WeightValue(c, exp, i);
    }
    SumOfScaled(c, w, s, |c|, exp);
    assert Sum(w) == s / s;
    assert s / s == 1.0 by { assert s != 0.0; }
  }

  /** A column with a finite entry gets a convex combination: non-negative
      weights that sum to one. */
  lemma {:induction false} WeightsSumToOne(c: seq<ExtReal>, exp: real -> real)
    requires PositiveFunction(exp) && !AllNegInf(c)
    ensures forall i :: 0 <= i < |c| ==> Weights(c, exp)[i] >= 0.0
    ensures Sum(Weights(c, exp)) == 1.0
  {
    forall i | 0 <= i < |c| ensures Weights(c, exp)[i] >= 0.0 {
      WeightSign(c, exp, i);
    }
    WeightsSum(c, exp);
  }
}
