# Localized token aggregation of the cross-modal hashing model

This project models the discrete core of the cross-modal hashing model in
`hash_model.py`: the selection and masking rule of
`LocalizedTokenAggregation`, the shape contract of the per-bit hashing head
`BitwiseHashing`, and the weight sharing that `HashingModel.__init__` sets up.
It proves properties of that model in Dafny.

`LocalizedTokenAggregation.forward` takes token features `x` (L x N x D),
per-token concept scores (L x N x K) and an optional padding mask (N x L).
It computes the following:

1. Padded tokens get `-inf` at every concept (`sim += key_pad`).
2. Every score that is not positive becomes `-inf`.
3. `my_top_k` keeps, in each (token, sample) row of the K concept scores,
   every entry at or above the row's k-th largest value. All other entries
   there become `-inf`.
4. `gen_top_k_label` marks the surviving positive entries with a 0/1
   pseudo-label.
5. A softmax runs over the L tokens of each (sample, concept) column. A column
   that is all `-inf` gives NaN, and NaN is replaced by 0.
6. `torch.bmm` forms each slot as the weighted sum of its sample's tokens. The
   result is returned as K x N x D, with the L x N x K pseudo-label.

In the model:

- Scores are extended reals: `NegInf | Fin(r)`.
- Tensors are values that carry their own shape (`Tensors.Tensor`).
- The exponential is any positive function `exp`. A weight is `exp(v_l)`
  divided by the sum of `exp` over the finite entries of its column.
- Sums are exact real arithmetic.
- The k-th largest value is what the code computes: the `top_k` largest
  values, sorted as `torch.topk` returns them, and `torch.min` of those.
  It is proved equal to the unique value that has fewer than k entries
  strictly above it and at least k entries at or above it.
- The code raises on three shape conditions. The model returns each as an
  error value, in the order the code meets them:
  - a mask that cannot broadcast onto the scores (each mask axis must have the
    scores' length or length 1);
  - `top_k` outside `1..K`;
  - token features whose token count or batch size differs from the scores'.

The top-k runs over the concept axis, not over the tokens. It is taken along
the last axis, the K concepts of each (token, sample) row: see `dim=-1` at
hash_model.py:115, the repeat over `x.shape[2]` at :117, and the comment
"select top_k for each token" at :154. Only the softmax runs over the tokens
(`dim=0`, :158). So "k = 1 with a
strict maximum gives exactly one label" holds per (token, sample) row here
(`TopK.LabelRowStrictMaximum`), not per (sample, concept) column.

Modules: `ExtendedReals`, `Tensors`, `Wrappers`, `TopK` (the row rule and its
theory), `TokenSoftmax` (one column of the softmax), `LocalizedTokenAggregation`
(the tensor pipeline and the forward-pass lemmas), `BitwiseHashing`, and
`HashingModel` (classes for the shared and unshared components).

## Model

| member | source | states |
|---|---|---|
| `TopK.SortSorted` | hash_model.py:115 | the value list of `torch.topk` (the row sorted by `SortDescending`) is in descending order |
| `TopK.SortCount` | hash_model.py:115 | sorting keeps the number of entries passing any of the tests (at least t, above t, positive, finite), so it is a rearrangement for every count used |
| `TopK.Min` | hash_model.py:116 | `torch.min` of the top-k values is one of them and is at most each of them |
| `TopK.KthLargestSpec` | hash_model.py:115-116 | the threshold (`min` of the `top_k` largest) has fewer than k entries strictly above it and at least k at or above it |
| `TopK.KthLargestUnique` | hash_model.py:115-116 | at most one value meets that description, so the threshold is determined by the row and k alone |
| `TopK.TopKRowKeeps` | hash_model.py:114-124 | each output entry equals its input when that input is at or above the k-th largest of its row, and is `-inf` otherwise |
| `TopK.TopKRowKeepsAtLeastK` | hash_model.py:115-123 | at least `top_k` entries of every row are kept |
| `TopK.TopKRowDistinct` | hash_model.py:115-123 | in a row with no repeated values exactly `top_k` entries are kept |
| `TopK.TiesKeepMoreThanK` | hash_model.py:119-123 | with ties at the threshold more than `top_k` entries survive: the row [5, 5, 3, 3] with k = 1 becomes [5, 5, -inf, -inf] |
| `TopK.TiesAtRankKeepMoreThanK` | hash_model.py:115-123 | for every row: when the k-th and (k+1)-th largest values are equal, more than `top_k` entries reach the threshold |
| `TopK.TopKRowTooFewFinite` | hash_model.py:115-123 | a row with fewer than `top_k` finite entries has threshold `-inf` and comes back unchanged |
| `TopK.TopKRowIdempotent` | hash_model.py:114-124 | applying the row rule twice equals applying it once |
| `TopK.LabelRow` | hash_model.py:129-131 | the pseudo-label is 0/1-valued and is 1 exactly where the selected value is > 0 |
| `TopK.LabelRowOnes` | hash_model.py:126-133 | per row, the number of ones is at most the number of positive scores, and at least `min(top_k, that number)` |
| `TopK.LabelRowStrictMaximum` | hash_model.py:126-133 | with k = 1 and one strict positive maximum, the row gets exactly one label, at the maximum |
| `TokenSoftmax.SoftmaxNaN` | hash_model.py:158 | (definitional: unfolds `Softmax`) the softmax of a column is NaN exactly when every entry of the column is `-inf` |
| `TokenSoftmax.WeightSign` | hash_model.py:158-159 | a `-inf` entry gets weight 0 and a finite entry a positive weight |
| `TokenSoftmax.WeightsAllNegInf` | hash_model.py:158-159 | (definitional: unfolds `Weights`) an all-`-inf` column gets all-zero weights (NaN replaced by 0) |
| `TokenSoftmax.WeightValue` | hash_model.py:158-159 | a column with a finite entry has a positive sum of exponentials, and gives each token `exp` of its score (0 for `-inf`) divided by the column's sum of exponentials |
| `TokenSoftmax.WeightsSum` | hash_model.py:158 | a column with a finite entry gets weights summing to 1 |
| `TokenSoftmax.WeightsSumToOne` | hash_model.py:158 | a column with a finite entry gets non-negative weights summing to 1 |
| `Tensors.DotIgnoresZeroWeights` | hash_model.py:163-166 | the contraction of `bmm` does not depend on features at zero weight |
| `Tensors.DotZeroWeights` | hash_model.py:163-166 | all-zero weights contract to zero |
| `LocalizedTokenAggregation.AddKeyPad` | hash_model.py:141-147 | a padded token gets `-inf` at every concept, and every other score is unchanged |
| `LocalizedTokenAggregation.KeepPositive` | hash_model.py:150-152 | an entry stays finite exactly when it was > 0, and is then unchanged; every score <= 0 becomes `-inf` |
| `LocalizedTokenAggregation.Prepare` | hash_model.py:139-152 | after steps 1 and 2 an entry is finite exactly when its raw score is > 0 and its token is not padded, and it then holds the raw score |
| `LocalizedTokenAggregation.MyTopK` | hash_model.py:114-124 | the shape is kept and every entry is its input or `-inf` |
| `LocalizedTokenAggregation.MyTopKIdempotent` | hash_model.py:114-124 | `my_top_k` applied twice to a whole tensor equals applying it once |
| `LocalizedTokenAggregation.GenTopKLabel` | hash_model.py:126-133 | returns the `my_top_k` result and a same-shaped 0/1 label that is 1 exactly where it is positive |
| `LocalizedTokenAggregation.Merge` | hash_model.py:163-167 | `bmm` with the two permutes gives a K x N x D result |
| `LocalizedTokenAggregation.Forward` | hash_model.py:135-168 | succeeds exactly for a broadcastable mask, 1 <= `top_k` <= K and matching token/batch lengths; otherwise it names the first failing check; on success it gives K x N x D slots and an L x N x K pseudo-label |
| `LocalizedTokenAggregation.WeightFollowsLabel` | hash_model.py:150-159 | a token's weight at a concept is positive exactly where its pseudo-label is 1, and is 0 where the label is 0 |
| `LocalizedTokenAggregation.ForwardPaddedToken` | hash_model.py:141-159 | a padded token has pseudo-label 0 and weight 0 at every concept, whatever its raw scores |
| `LocalizedTokenAggregation.ForwardIgnoresPaddedToken` | hash_model.py:141-166 | changing a padded token's features leaves every slot unchanged |
| `LocalizedTokenAggregation.ForwardUnlabelledConcept` | hash_model.py:158-166 | a (sample, concept) pair with no pseudo-label gets exactly the zero slot |
| `LocalizedTokenAggregation.ForwardEmptyConcept` | hash_model.py:141-166 | a concept whose scores in a sample are all <= 0 or padded gets exactly the zero slot |
| `LocalizedTokenAggregation.ForwardConvexSlot` | hash_model.py:158-166 | a (sample, concept) pair with a pseudo-label gets a convex combination of its sample's tokens: weights >= 0 that sum to 1 |
| `LocalizedTokenAggregation.ForwardPseudoLabelCount` | hash_model.py:114-155 | per (token, sample) row, the ones number at most the positive unpadded scores and at least `min(top_k, that)`; with fewer than `top_k` of them, the label is 1 exactly at the positive unpadded scores |
| `BitwiseHashing.Squeeze` | hash_model.py:84 | `torch.squeeze` leaves no axis of length 1, and every length other than 1 still occurs |
| `BitwiseHashing.SqueezeLength` | hash_model.py:84 | `torch.squeeze` drops exactly as many axes as the shape has axes of length 1 |
| `BitwiseHashing.SqueezeConcat` | hash_model.py:84 | `torch.squeeze` works axis by axis: the squeeze of a concatenation is the concatenation of the squeezes, so the other axes are kept in order |
| `BitwiseHashing.BitOutputs` | hash_model.py:81 | the comprehension over `fc_list` succeeds exactly when every slot index exists and every layer fits the feature width; output i, sample n is `fc_list[i]` applied to slot i; the error is an index error exactly when the slot axis is too short and no earlier layer mismatches |
| `BitwiseHashing.Forward` | hash_model.py:79-85 | fails exactly for an empty `fc_list` (the stack error) or when the comprehension fails, and then with the comprehension's error; otherwise bit i of sample n is `tanh(fc_list[i](x[i, n]))`, and the shape is `squeeze` of N x K x 1 |
| `BitwiseHashing.BitIndependence` | hash_model.py:77-85 | bit i depends only on slot i and `fc_list[i]` |
| `BitwiseHashing.CodeShape` | hash_model.py:82-84 | the code is N x K exactly when neither N nor K is 1; N = 1 gives a K-vector, K = 1 an N-vector, both a scalar |
| `BitwiseHashing.SingleSampleLosesBatchAxis` | hash_model.py:84 | as written, a one-sample batch yields a code of shape [K] |
| `BitwiseHashing.ForwardKeepBatch` | hash_model.py:79-85 | the corrected layer: the same bits, always with shape [N, K] |
| `HashingModel.HashingModel.constructor` | hash_model.py:199-217 | `gcl_i` and `gcl_t` are one fresh object; `lct_i` and `lct_t` are two distinct fresh objects with `k_bits` slots and `top_k_label` |
| `HashingModel.HashingModel.SetImageConceptProjection` | hash_model.py:209 | an update of the image branch's concept projection is the same update of the text branch's, and does not touch either local transformer |

## Findings

| source | as written | input that shows it | evidently intended | confidence | as-written member | corrected member |
|---|---|---|---|---|---|---|
| hash_model.py:84 | `torch.squeeze(x)` drops every axis of length 1 | a batch of N = 1 sample with K > 1 bits gives shape [K] (and K = 1 gives [N]) | the N x K code of the comment on that line, i.e. `squeeze(-1)` | not executed; high that the shape collapses, medium that it is unintended | `BitwiseHashing.SingleSampleLosesBatchAxis` | `BitwiseHashing.ForwardKeepBatch` |

## Left out

- `exp` and `tanh` are abstract parameters. `exp` only has to be positive. The
  model divides by the sum of `exp(v)` and does not subtract the maximum first.
  Floating-point rounding, overflow and the values of `exp`/`tanh` are not
  modelled.
- The CLIP backbone and `Transformer` (imported at hash_model.py:6) are foreign
  code that is not shown. So `LocalConceptTransforming.forward` (:183-188) is
  not modelled beyond its parts, and neither is `MITH` (:347-368).
- `PositionalEncoding` (:41-65) is a sin/cos float table. Its `max_len` is
  `k_bits` (:175), the slot count, so the slice at :64 is exact.
- `ResidualMLPs` and `GlobalConceptLearning.forward` (:9-38, :88-106) are
  float numerics (LayerNorm, Linear, activations, dropout, tanh). With an
  activation other than relu or gelu, `activation_layer` is never set
  (:23-24), and :28 raises AttributeError. It is not an identity layer.
- `F.normalize`, the concept projections (:219-220, :236-237, :245-246) and
  the prompting modules (:277-344) are float feature mixing.
- `HashingModel.forward`, `forward_image` and `forward_text` (:222-274) are
  plumbing over the float parts. The calls with 3 and 2 arguments at :362 and
  :367 are not modelled.
- `detach()` (:139, :239-240, :257, :270) has no forward-pass effect.
- `sim += key_pad` (:147) and the `fill_` calls (:122, :151) mutate tensors in
  place. They are modelled as functions: every caller passes a fresh
  temporary, so the change is not visible outside.
- `LocalizedTokenAggregation.Forward`: the score tensor is taken to be finite,
  because it comes out of `tanh`. A NaN or `+inf` score is not representable.
- `LocalizedTokenAggregation.Forward`: rectangular tensors and a rectangular
  mask are preconditions. A `torch.Tensor` is always rectangular.
- `BitwiseHashing.Forward`: each `fc_list[i]` is one weight vector and a bias.
  It is applied with exact real arithmetic.
- `HashingModel.HashingModel.constructor`: the learners keep only the fields
  that say which parameters are shared. The random initial projection is a
  constructor argument.
