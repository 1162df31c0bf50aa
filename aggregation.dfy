/** `LocalizedTokenAggregation.forward`: token features `x` (L x N x D) and
    concept scores (L x N x K) become K concept slots per sample (K x N x D)
    and an L x N x K pseudo-label.

    The axes follow the code: the top-k threshold is taken over the LAST axis,
    the K concept scores of each (token, sample) row, while the softmax runs
    over the FIRST axis, the L tokens of each (sample, concept) column. */
module LocalizedTokenAggregation {
  import opened Wrappers
  import opened ExtendedReals
  import opened Tensors
  import opened TopK
  import opened TokenSoftmax

  /** The ways the forward pass raises. */
  datatype Error =
    | MaskShapeMismatch   // `sim += key_pad` cannot broadcast the mask onto the scores
    | TopKOutOfRange      // `torch.topk` with k > K, or `torch.min` over zero values
    | TokenShapeMismatch  // `torch.bmm` with a different batch size or token count

  /** The pair `forward` returns: the slots (K x N x D) and the pseudo-label
      (L x N x K). */
  datatype Aggregation = Aggregation(slots: Tensor<real>, pseudoLabel: Tensor<real>)

  // ---------------------------------------------------------------------
  // Step 1: the padding mask.

  /** The N' x L' mask reaches the L x N x K scores through `repeat`,
      `permute` and an in-place add, which broadcasts each mask axis that has
      the scores' length or length 1. */
  predicate MaskFits(mask: Grid<bool>, tokens: nat, samples: nat) {
    (mask.rows == samples || mask.rows == 1) && (mask.cols == tokens || mask.cols == 1)
  }

  /** Whether token `l` of sample `n` is padded, read through broadcasting. */
  function Padded(mask: Grid<bool>, tokens: nat, samples: nat, n: nat, l: nat): bool
    requires mask.Valid() && MaskFits(mask, tokens, samples) && n < samples && l < tokens
  {
    mask.v[if mask.rows == 1 then 0 else n][if mask.cols == 1 then 0 else l]
  }

  /** The mask is a usable argument for scores of this shape. */
  predicate MaskArgFits(mask: Option<Grid<bool>>, scores: Tensor<real>) {
    mask.Some? ==> mask.value.Valid() && MaskFits(mask.value, scores.d0, scores.d1)
  }

  /** Whether token `l` of sample `n` is padded, for an optional mask. */
  function IsPadded(mask: Option<Grid<bool>>, scores: Tensor<real>, n: nat, l: nat): bool
    requires MaskArgFits(mask, scores) && n < scores.d1 && l < scores.d0
  {
    mask.Some? && Padded(mask.value, scores.d0, scores.d1, n, l)
  }

  /** `sim += key_pad` with `key_pad` equal to `-inf` at padded tokens and 0
      elsewhere, repeated over the concept axis. */
  function AddKeyPad(sim: Tensor<ExtReal>, mask: Grid<bool>): (r: Tensor<ExtReal>)
    requires sim.Valid() && mask.Valid() && MaskFits(mask, sim.d0, sim.d1)
    ensures r.Valid() && r.d0 == sim.d0 && r.d1 == sim.d1 && r.d2 == sim.d2
    ensures forall l, n, k :: 0 <= l < sim.d0 && 0 <= n < sim.d1 && 0 <= k < sim.d2 ==>
      r.v[l][n][k] == if Padded(mask, sim.d0, sim.d1, n, l) then NegInf else sim.v[l][n][k]
  {
    Tensor(sim.d0, sim.d1, sim.d2,
      seq(sim.d0, l requires 0 <= l < sim.d0 =>
        seq(sim.d1, n requires 0 <= n < sim.d1 =>
          seq(sim.d2, k requires 0 <= k < sim.d2 =>
            Add(sim.v[l][n][k], if Padded(mask, sim.d0, sim.d1, n, l) then NegInf else Fin(0.0))))))
  }

  // ---------------------------------------------------------------------
  // Step 2: only positive scores stay candidates.

  /** `torch.where(sim > 0, sim, -inf)`. */
  function KeepPositive(sim: Tensor<ExtReal>): (r: Tensor<ExtReal>)
    requires sim.Valid()
    ensures r.Valid() && r.d0 == sim.d0 && r.d1 == sim.d1 && r.d2 == sim.d2
    ensures forall l, n, k :: 0 <= l < sim.d0 && 0 <= n < sim.d1 && 0 <= k < sim.d2 ==>
      (r.v[l][n][k].Fin? <==> IsPositive(sim.v[l][n][k])) &&
      (r.v[l][n][k].Fin? ==> r.v[l][n][k] == sim.v[l][n][k])
  {
    Tensor(sim.d0, sim.d1, sim.d2,
      seq(sim.d0, l requires 0 <= l < sim.d0 =>
        seq(sim.d1, n requires 0 <= n < sim.d1 =>
          seq(sim.d2, k requires 0 <= k < sim.d2 =>
            if IsPositive(sim.v[l][n][k]) then sim.v[l][n][k] else NegInf))))
  }

  /** All finite entries are positive: what steps 1 and 2 leave behind. */
  ghost predicate FiniteIsPositive(t: Tensor<ExtReal>)
    requires t.Valid()
  {
    forall l, n, k :: 0 <= l < t.d0 && 0 <= n < t.d1 && 0 <= k < t.d2 && t.v[l][n][k].Fin? ==>
      IsPositive(t.v[l][n][k])
  }

  /** The scores as float values, padded tokens set to `-inf`, then every
      non-positive score set to `-inf`. */
  function Prepare(scores: Tensor<real>, mask: Option<Grid<bool>>): (sim: Tensor<ExtReal>)
    requires scores.Valid() && MaskArgFits(mask, scores)
    ensures sim.Valid() && sim.d0 == scores.d0 && sim.d1 == scores.d1 && sim.d2 == scores.d2
    ensures forall l, n, k :: 0 <= l < scores.d0 && 0 <= n < scores.d1 && 0 <= k < scores.d2 ==>
      (sim.v[l][n][k].Fin? <==> scores.v[l][n][k] > 0.0 && !IsPadded(mask, scores, n, l)) &&
      (sim.v[l][n][k].Fin? ==> sim.v[l][n][k].r == scores.v[l][n][k])
    ensures FiniteIsPositive(sim)
  {
    var lifted := Tensor(scores.d0, scores.d1, scores.d2,
      seq(scores.d0, l requires 0 <= l < scores.d0 =>
        seq(scores.d1, n requires 0 <= n < scores.d1 =>
          seq(scores.d2, k requires 0 <= k < scores.d2 => Fin(scores.v[l][n][k])))));
    var padded := if mask.Some? then AddKeyPad(lifted, mask.value) else lifted;
    KeepPositive(padded)
  }

  // ---------------------------------------------------------------------
  // Steps 3 and 4: `my_top_k` and `gen_top_k_label`.

  /** `my_top_k`: `TopKRow` on every (token, sample) row of the last axis. */
  function MyTopK(topK: nat, x: Tensor<ExtReal>): (r: Tensor<ExtReal>)
    requires x.Valid() && 1 <= topK <= x.d2
    ensures r.Valid() && r.d0 == x.d0 && r.d1 == x.d1 && r.d2 == x.d2
    ensures forall l, n, k :: 0 <= l < x.d0 && 0 <= n < x.d1 && 0 <= k < x.d2 ==>
      r.v[l][n][k] == x.v[l][n][k] || r.v[l][n][k] == NegInf
  {
    Tensor(x.d0, x.d1, x.d2,
      seq(x.d0, l requires 0 <= l < x.d0 =>
        seq(x.d1, n requires 0 <= n < x.d1 => TopKRow(x.v[l][n], topK))))
  }

  /** `gen_top_k_label`: the 0/1 pseudo-label, 1 exactly where the selected
      value is positive, and the selected scores. */
  function GenTopKLabel(topK: nat, x: Tensor<ExtReal>): (r: (Tensor<real>, Tensor<ExtReal>))
    requires x.Valid() && 1 <= topK <= x.d2
    ensures r.1 == MyTopK(topK, x)
    ensures r.0.Valid() && r.0.d0 == x.d0 && r.0.d1 == x.d1 && r.0.d2 == x.d2
    ensures forall l, n, k :: 0 <= l < x.d0 && 0 <= n < x.d1 && 0 <= k < x.d2 ==>
      (r.0.v[l][n][k] == 1.0 <==> IsPositive(r.1.v[l][n][k])) &&
      (r.0.v[l][n][k] == 0.0 || r.0.v[l][n][k] == 1.0)
  {
    var selected := MyTopK(topK, x);
    var labels := Tensor(x.d0, x.d1, x.d2,
      seq(x.d0, l requires 0 <= l < x.d0 =>
        seq(x.d1, n requires 0 <= n < x.d1 => LabelRow(selected.v[l][n]))));
    (labels, selected)
  }

  // ---------------------------------------------------------------------
  // Steps 5 and 6: softmax over the tokens, NaN to zero, weighted sum.

  /** `torch.softmax(sim, dim=0)`: each (sample, concept) column on its own. */
  function SoftmaxTokens(sim: Tensor<ExtReal>, exp: real -> real): (r: Tensor<Float>)
    requires sim.Valid() && PositiveFunction(exp)
    ensures r.Valid() && r.d0 == sim.d0 && r.d1 == sim.d1 && r.d2 == sim.d2
  {
    Tensor(sim.d0, sim.d1, sim.d2,
      seq(sim.d0, l requires 0 <= l < sim.d0 =>
        seq(sim.d1, n requires 0 <= n < sim.d1 =>
          seq(sim.d2, k requires 0 <= k < sim.d2 => Softmax(Column(sim, n, k), exp)[l]))))
  }

  /** `torch.where(torch.isnan(sim), 0, sim)`. */
  function ZeroNaN(t: Tensor<Float>): (r: Tensor<real>)
    requires t.Valid()
    ensures r.Valid() && r.d0 == t.d0 && r.d1 == t.d1 && r.d2 == t.d2
  {
    Tensor(t.d0, t.d1, t.d2,
      seq(t.d0, l requires 0 <= l < t.d0 =>
        seq(t.d1, n requires 0 <= n < t.d1 =>
          seq(t.d2, k requires 0 <= k < t.d2 => NanToZero(t.v[l][n][k])))))
  }

  /** `torch.bmm(sim.permute(1, 2, 0), x.permute(1, 0, 2)).permute(1, 0, 2)`:
      slot (k, n) is the sum over tokens l of `w[l][n][k] * x[l][n]`. */
  function Merge(w: Tensor<real>, x: Tensor<real>): (r: Tensor<real>)
    requires w.Valid() && x.Valid() && w.d0 == x.d0 && w.d1 == x.d1
    ensures r.Valid() && r.d0 == w.d2 && r.d1 == w.d1 && r.d2 == x.d2
  {
    Tensor(w.d2, w.d1, x.d2,
      seq(w.d2, k requires 0 <= k < w.d2 =>
        seq(w.d1, n requires 0 <= n < w.d1 =>
          seq(x.d2, d requires 0 <= d < x.d2 => Dot(Column(w, n, k), Column(x, n, d))))))
  }

  /** Whether the arguments get past every shape check of `forward`. */
  predicate Accepts(x: Tensor<real>, scores: Tensor<real>, mask: Option<Grid<bool>>, topK: int) {
    MaskArgFits(mask, scores) && 1 <= topK <= scores.d2 && x.d0 == scores.d0 && x.d1 == scores.d1
  }

  /** The selected scores of steps 1 to 3. */
  function Selected(scores: Tensor<real>, mask: Option<Grid<bool>>, topK: nat): (sim: Tensor<ExtReal>)
    requires scores.Valid() && MaskArgFits(mask, scores) && 1 <= topK <= scores.d2
    ensures sim.Valid() && sim.d0 == scores.d0 && sim.d1 == scores.d1 && sim.d2 == scores.d2
    ensures FiniteIsPositive(sim)
  {
    GenTopKLabel(topK, Prepare(scores, mask)).1
  }

  /** The pseudo-label of steps 1 to 4, L x N x K. */
  function PseudoLabel(scores: Tensor<real>, mask: Option<Grid<bool>>, topK: nat): (y: Tensor<real>)
    requires scores.Valid() && MaskArgFits(mask, scores) && 1 <= topK <= scores.d2
    ensures y.Valid() && y.d0 == scores.d0 && y.d1 == scores.d1 && y.d2 == scores.d2
  {
    GenTopKLabel(topK, Prepare(scores, mask)).0
  }

  /** The aggregation weights of steps 1 to 5, L x N x K. */
  function TokenWeights(scores: Tensor<real>, mask: Option<Grid<bool>>, topK: nat, exp: real -> real): (w: Tensor<real>)
    requires scores.Valid() && MaskArgFits(mask, scores) && 1 <= topK <= scores.d2 && PositiveFunction(exp)
    ensures w.Valid() && w.d0 == scores.d0 && w.d1 == scores.d1 && w.d2 == scores.d2
  {
    ZeroNaN(SoftmaxTokens(Selected(scores, mask, topK), exp))
  }

  /** `LocalizedTokenAggregation.forward`. A shape the code cannot handle is
      an error, raised where the code raises it: the mask first, then
      `torch.topk`, then `torch.bmm`. */
  function Forward(x: Tensor<real>, scores: Tensor<real>, mask: Option<Grid<bool>>, topK: int, exp: real -> real)
    : (r: Result<Aggregation, Error>)
    requires x.Valid() && scores.Valid() && (mask.Some? ==> mask.value.Valid()) && PositiveFunction(exp)
    ensures r.Ok? <==> Accepts(x, scores, mask, topK)
    ensures r.Err? && !MaskArgFits(mask, scores) ==> r.error == MaskShapeMismatch
    ensures r.Err? && MaskArgFits(mask, scores) && !(1 <= topK <= scores.d2) ==> r.error == TopKOutOfRange
    ensures r.Err? && MaskArgFits(mask, scores) && 1 <= topK <= scores.d2 ==> r.error == TokenShapeMismatch
    ensures r.Ok? ==>
      var slots, labels := r.value.slots, r.value.pseudoLabel;
      && slots.Valid() && slots.d0 == scores.d2 && slots.d1 == scores.d1 && slots.d2 == x.d2
      && labels.Valid() && labels.d0 == scores.d0 && labels.d1 == scores.d1 && labels.d2 == scores.d2
  {
    if !MaskArgFits(mask, scores) then Err(MaskShapeMismatch)
    else if !(1 <= topK <= scores.d2) then Err(TopKOutOfRange)
    else
      var (labels, selected) := GenTopKLabel(topK, Prepare(scores, mask));
      var w := ZeroNaN(SoftmaxTokens(selected, exp));
      if x.d0 != scores.d0 || x.d1 != scores.d1 then Err(TokenShapeMismatch)
      else Ok(Aggregation(Merge(w, x), labels))
  }

  // ---------------------------------------------------------------------
  // Properties of the forward pass.

  /** The forward pass is the weighted sum of the tokens under the weights
      above, paired with the pseudo-label. */
  lemma ForwardParts(x: Tensor<real>, scores: Tensor<real>, mask: Option<Grid<bool>>, topK: int, exp: real -> real)
    requires x.Valid() && scores.Valid() && PositiveFunction(exp) && Accepts(x, scores, mask, topK)
    ensures Forward(x, scores, mask, topK, exp) ==
      Ok(Aggregation(Merge(TokenWeights(scores, mask, topK, exp), x), PseudoLabel(scores, mask, topK)))
  {
  }

  /** The weight of a token at one concept, read from its column. */
  lemma TokenWeightAt(scores: Tensor<real>, mask: Option<Grid<bool>>, topK: nat, exp: real -> real, l: nat, n: nat, k: nat)
    requires scores.Valid() && MaskArgFits(mask, scores) && 1 <= topK <= scores.d2 && PositiveFunction(exp)
    requires l < scores.d0 && n < scores.d1 && k < scores.d2
    ensures TokenWeights(scores, mask, topK, exp).v[l][n][k] == Weights(Column(Selected(scores, mask, topK), n, k), exp)[l]
  {
  }

  /** A selected score is finite exactly where the pseudo-label is 1. */
  lemma SelectedFiniteIsLabelled(scores: Tensor<real>, mask: Option<Grid<bool>>, topK: nat, l: nat, n: nat, k: nat)
    requires scores.Valid() && MaskArgFits(mask, scores) && 1 <= topK <= scores.d2
    requires l < scores.d0 && n < scores.d1 && k < scores.d2
    ensures Selected(scores, mask, topK).v[l][n][k].Fin? <==> PseudoLabel(scores, mask, topK).v[l][n][k] == 1.0
    ensures PseudoLabel(scores, mask, topK).v[l][n][k] == 0.0 || PseudoLabel(scores, mask, topK).v[l][n][k] == 1.0
  {
  }

  /** A token's weight at a concept is positive exactly where its
      pseudo-label is 1, and zero where it is 0. */
  lemma WeightFollowsLabel(scores: Tensor<real>, mask: Option<Grid<bool>>, topK: nat, exp: real -> real, l: nat, n: nat, k: nat)
    requires scores.Valid() && MaskArgFits(mask, scores) && 1 <= topK <= scores.d2 && PositiveFunction(exp)
    requires l < scores.d0 && n < scores.d1 && k < scores.d2
    ensures TokenWeights(scores, mask, topK, exp).v[l][n][k] > 0.0 <==> PseudoLabel(scores, mask, topK).v[l][n][k] == 1.0
    ensures PseudoLabel(scores, mask, topK).v[l][n][k] == 0.0 ==> TokenWeights(scores, mask, topK, exp).v[l][n][k] == 0.0
  {
    TokenWeightAt(scores, mask, topK, exp, l, n, k);
    SelectedFiniteIsLabelled(scores, mask, topK, l, n, k);
    WeightSign(Column(Selected(scores, mask, topK), n, k), exp, l);
  }

  /** A padded token is never selected: its pseudo-label is 0 and its weight
      is 0 at every concept, whatever its raw scores. */
  lemma ForwardPaddedToken(x: Tensor<real>, scores: Tensor<real>, mask: Option<Grid<bool>>, topK: int,
                           exp: real -> real, l: nat, n: nat)
    requires x.Valid() && scores.Valid() && PositiveFunction(exp) && Accepts(x, scores, mask, topK)
    requires l < scores.d0 && n < scores.d1 && IsPadded(mask, scores, n, l)
    ensures forall k :: 0 <= k < scores.d2 ==>
      Forward(x, scores, mask, topK, exp).value.pseudoLabel.v[l][n][k] == 0.0 &&
      TokenWeights(scores, mask, topK, exp).v[l][n][k] == 0.0
  {
    ForwardParts(x, scores, mask, topK, exp);
    forall k | 0 <= k < scores.d2
      ensures PseudoLabel(scores, mask, topK).v[l][n][k] == 0.0
      ensures TokenWeights(scores, mask, topK, exp).v[l][n][k] == 0.0
    {
      assert Prepare(scores, mask).v[l][n][k] == NegInf;
      SelectedFiniteIsLabelled(scores, mask, topK, l, n, k);
      WeightFollowsLabel(scores, mask, topK, exp, l, n, k);
    }
  }

  /** `x2` differs from `x` at most in the features of token `l` of sample `n`. */
  ghost predicate SameExceptToken(x: Tensor<real>, x2: Tensor<real>, l: nat, n: nat) {
    x.Valid() && x2.Valid() && x2.d0 == x.d0 && x2.d1 == x.d1 && x2.d2 == x.d2 &&
    forall i, j :: 0 <= i < x.d0 && 0 <= j < x.d1 && (i != l || j != n) ==> x2.v[i][j] == x.v[i][j]
  }

  /** Padded tokens never contribute: changing the features of a padded
      token leaves every slot as it was. */
  lemma ForwardIgnoresPaddedToken(x: Tensor<real>, x2: Tensor<real>, scores: Tensor<real>, mask: Option<Grid<bool>>,
                                  topK: int, exp: real -> real, l: nat, n: nat)
    requires x.Valid() && scores.Valid() && PositiveFunction(exp) && Accepts(x, scores, mask, topK)
    requires l < scores.d0 && n < scores.d1 && IsPadded(mask, scores, n, l)
    requires SameExceptToken(x, x2, l, n)
    ensures Forward(x2, scores, mask, topK, exp).Ok?
    ensures Forward(x2, scores, mask, topK, exp).value.slots == Forward(x, scores, mask, topK, exp).value.slots
  {
    ForwardParts(x, scores, mask, topK, exp);
    ForwardParts(x2, scores, mask, topK, exp);
    ForwardPaddedToken(x, scores, mask, topK, exp, l, n);
    var w := TokenWeights(scores, mask, topK, exp);
    var a, b := Merge(w, x), Merge(w, x2);
    forall k, j, d | 0 <= k < a.d0 && 0 <= j < a.d1 && 0 <= d < a.d2 ensures b.v[k][j][d] == a.v[k][j][d] {
      DotIgnoresZeroWeights(Column(w, j, k), Column(x2, j, d), Column(x, j, d), w.d0);
    }
    assert b.v == a.v by {
      forall k | 0 <= k < a.d0 ensures b.v[k] == a.v[k] {
        forall j | 0 <= j < a.d1 ensures b.v[k][j] == a.v[k][j] {
        }
      }
    }
  }

  /** A concept with no pseudo-label in a sample gets the zero slot (the NaN
      fallback). */
  lemma ForwardUnlabelledConcept(x: Tensor<real>, scores: Tensor<real>, mask: Option<Grid<bool>>, topK: int,
                                 exp: real -> real, n: nat, k: nat)
    requires x.Valid() && scores.Valid() && PositiveFunction(exp) && Accepts(x, scores, mask, topK)
    requires n < scores.d1 && k < scores.d2
    requires forall l :: 0 <= l < scores.d0 ==> Forward(x, scores, mask, topK, exp).value.pseudoLabel.v[l][n][k] == 0.0
    ensures forall d :: 0 <= d < x.d2 ==> Forward(x, scores, mask, topK, exp).value.slots.v[k][n][d] == 0.0
  {
    ForwardParts(x, scores, mask, topK, exp);
    var w := TokenWeights(scores, mask, topK, exp);
    forall l | 0 <= l < scores.d0 ensures w.v[l][n][k] == 0.0 {
      WeightFollowsLabel(scores, mask, topK, exp, l, n, k);
    }
    forall d | 0 <= d < x.d2 ensures Merge(w, x).v[k][n][d] == 0.0 {
      DotZeroWeights(Column(w, n, k), Column(x, n, d), w.d0);
    }
  }

  /** A concept whose scores in a sample are all non-positive or padded gets
      the zero slot. */
  lemma ForwardEmptyConcept(x: Tensor<real>, scores: Tensor<real>, mask: Option<Grid<bool>>, topK: int,
                            exp: real -> real, n: nat, k: nat)
    requires x.Valid() && scores.Valid() && PositiveFunction(exp) && Accepts(x, scores, mask, topK)
    requires n < scores.d1 && k < scores.d2
    requires forall l :: 0 <= l < scores.d0 ==> scores.v[l][n][k] <= 0.0 || IsPadded(mask, scores, n, l)
    ensures forall d :: 0 <= d < x.d2 ==> Forward(x, scores, mask, topK, exp).value.slots.v[k][n][d] == 0.0
  {
    ForwardParts(x, scores, mask, topK, exp);
    forall l | 0 <= l < scores.d0 ensures PseudoLabel(scores, mask, topK).v[l][n][k] == 0.0 {
      assert Prepare(scores, mask).v[l][n][k] == NegInf;
      SelectedFiniteIsLabelled(scores, mask, topK, l, n, k);
    }
    ForwardUnlabelledConcept(x, scores, mask, topK, exp, n, k);
  }

  /** A concept with a pseudo-label in a sample gets a convex combination of
      that sample's tokens: non-negative weights summing to one. */
  lemma ForwardConvexSlot(x: Tensor<real>, scores: Tensor<real>, mask: Option<Grid<bool>>, topK: int,
                          exp: real -> real, n: nat, k: nat, l0: nat)
    requires x.Valid() && scores.Valid() && PositiveFunction(exp) && Accepts(x, scores, mask, topK)
    requires l0 < scores.d0 && n < scores.d1 && k < scores.d2
    requires Forward(x, scores, mask, topK, exp).value.pseudoLabel.v[l0][n][k] == 1.0
    ensures var w := Column(TokenWeights(scores, mask, topK, exp), n, k);
      && (forall l :: 0 <= l < |w| ==> w[l] >= 0.0)
      && Sum(w) == 1.0
      && forall d :: 0 <= d < x.d2 ==> Forward(x, scores, mask, topK, exp).value.slots.v[k][n][d] == Dot(w, Column(x, n, d))
  {
    ForwardParts(x, scores, mask, topK, exp);
    var sel := Column(Selected(scores, mask, topK), n, k);
    SelectedFiniteIsLabelled(scores, mask, topK, l0, n, k);
    assert sel[l0].Fin?;
    WeightsSumToOne(sel, exp);
    var w := Column(TokenWeights(scores, mask, topK, exp), n, k);
    forall l | 0 <= l < |w| ensures w[l] == Weights(sel, exp)[l] {
      TokenWeightAt(scores, mask, topK, exp, l, n, k);
    }
    assert w == Weights(sel, exp);
  }

  /** Number of positive, unpadded scores of token `l` in sample `n`. */
  function PositiveScores(scores: Tensor<real>, mask: Option<Grid<bool>>, l: nat, n: nat): nat
    requires scores.Valid() && MaskArgFits(mask, scores) && l < scores.d0 && n < scores.d1
  {
    Count(Prepare(scores, mask).v[l][n], Positive)
  }

  /** Per (token, sample) row, the pseudo-label has at most as many ones as
      the row has positive unpadded scores and at least `min(top_k, that)`;
      with fewer positive scores than `top_k` every one of them is labelled. */
  lemma ForwardPseudoLabelCount(x: Tensor<real>, scores: Tensor<real>, mask: Option<Grid<bool>>, topK: int,
                                exp: real -> real, l: nat, n: nat)
    requires x.Valid() && scores.Valid() && PositiveFunction(exp) && Accepts(x, scores, mask, topK)
    requires l < scores.d0 && n < scores.d1
    ensures var ones, p := Ones(Forward(x, scores, mask, topK, exp).value.pseudoLabel.v[l][n]), PositiveScores(scores, mask, l, n);
      ones <= p && ones >= (if topK < p then topK else p)
    ensures PositiveScores(scores, mask, l, n) < topK ==>
      forall k :: 0 <= k < scores.d2 ==>
        (Forward(x, scores, mask, topK, exp).value.pseudoLabel.v[l][n][k] == 1.0 <==>
         scores.v[l][n][k] > 0.0 && !IsPadded(mask, scores, n, l))
  {
    ForwardParts(x, scores, mask, topK, exp);
    var row := Prepare(scores, mask).v[l][n];
    assert PseudoLabel(scores, mask, topK).v[l][n] == LabelRow(TopKRow(row, topK));
    LabelRowOnes(row, topK);
    if PositiveScores(scores, mask, l, n) < topK {
      CountPointwise(row, Finite, row, Positive);
      TopKRowTooFewFinite(row, topK);
    }
  }

  /** `my_top_k` is idempotent on whole tensors. */
  lemma MyTopKIdempotent(topK: nat, x: Tensor<ExtReal>)
    requires x.Valid() && 1 <= topK <= x.d2
    ensures MyTopK(topK, MyTopK(topK, x)) == MyTopK(topK, x)
  {
    var once := MyTopK(topK, x);
    var twice := MyTopK(topK, once);
    forall l | 0 <= l < x.d0 ensures twice.v[l] == once.v[l] {
      forall n | 0 <= n < x.d1 ensures twice.v[l][n] == once.v[l][n] {
        TopKRowIdempotent(x.v[l][n], topK);
      }
    }
    assert twice.v == once.v;
  }
}
