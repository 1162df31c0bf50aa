/** `BitwiseHashing.forward`: K slot streams (K x N x D) become an N x K code,
    bit `i` computed by its own `fc_list[i] = nn.Linear(D, 1)` from slot `i`
    only, then stacked, permuted, squeezed and passed through `tanh`. The
    linear layers are exact real arithmetic; `tanh` is kept abstract. */
module BitwiseHashing {
  import opened Wrappers
  import opened Tensors

  /** One `nn.Linear(org_dim, 1)` of `fc_list`. */
  datatype Linear = Linear(weight: seq<real>, bias: real)

  function ApplyLinear(fc: Linear, v: seq<real>): real
    requires |v| == |fc.weight|
  {
    Dot(fc.weight, v) + fc.bias
  }

  /** The ways the forward pass raises. */
  datatype Error =
    | SlotIndexOutOfRange   // `x[i, :, :]` with i beyond the slot axis
    | FeatureSizeMismatch   // `fc_list[i]` applied to features of another width
    | EmptyStack            // `torch.stack` of an empty list (no bits)

  /** `torch.squeeze`: drops every axis of length 1. */
  function Squeeze(shape: seq<nat>): (r: seq<nat>)
    ensures |r| <= |shape|
    ensures forall i :: 0 <= i < |r| ==> r[i] != 1
    ensures forall i :: 0 <= i < |shape| && shape[i] != 1 ==> shape[i] in r
  {
    if shape == [] then [] else (if shape[0] == 1 then [] else [shape[0]]) + Squeeze(shape[1..])
  }

  /** Exactly the axes of length 1 are dropped. */
  lemma {:induction false} SqueezeLength(shape: seq<nat>)
    ensures |Squeeze(shape)| == |shape| - multiset(shape)[1]
  {
    if shape != [] {
      assert shape == [shape[0]] + shape[1..];
      SqueezeLength(shape[1..]);
    }
  }

  /** `torch.squeeze` works axis by axis: the shape of a concatenation
      squeezes to the concatenation of the squeezed parts, so every axis
      other than 1 is kept, in order. */
  lemma {:induction false} SqueezeConcat(a: seq<nat>, b: seq<nat>)
    ensures Squeeze(a + b) == Squeeze(a) + Squeeze(b)
  {
    if a != [] {
      assert (a + b)[1..] == a[1..] + b;
      SqueezeConcat(a[1..], b);
    } else {
      assert a + b == b;
    }
  }

  /** A hash code: bit `i` of sample `n` is `bits[n][i]`, and `shape` is the
      shape `torch.squeeze` leaves it. */
  datatype Code = Code(shape: seq<nat>, bits: seq<seq<real>>)

  /** The list comprehension over `fc_list`, from bit `i` on: one length-N
      output per bit, or the first error met. */
  function BitOutputs(fcs: seq<Linear>, x: Tensor<real>, i: nat): (r: Result<seq<seq<real>>, Error>)
    requires x.Valid() && i <= |fcs|
    decreases |fcs| - i
    ensures r.Ok? <==> (i < |fcs| ==> |fcs| <= x.d0) && forall j :: i <= j < |fcs| ==> |fcs[j].weight| == x.d2
    ensures r.Ok? ==> |r.value| == |fcs| - i
    ensures r.Ok? ==> forall k :: 0 <= k < |fcs| - i ==> |r.value[k]| == x.d1
    ensures r.Ok? ==> forall k, n :: 0 <= k < |fcs| - i && 0 <= n < x.d1 ==>
      r.value[k][n] == ApplyLinear(fcs[i + k], x.v[i + k][n])
    ensures r.Err? ==> r.error != EmptyStack
    ensures r.Err? ==> (r.error == SlotIndexOutOfRange <==>
      x.d0 < |fcs| && forall j :: i <= j < x.d0 ==> |fcs[j].weight| == x.d2)
  {
    if i == |fcs| then Ok([])
    else if i >= x.d0 then Err(SlotIndexOutOfRange)
    else if |fcs[i].weight| != x.d2 then Err(FeatureSizeMismatch)
    else
      var out := seq(x.d1, n requires 0 <= n < x.d1 => ApplyLinear(fcs[i], x.v[i][n]));
      match BitOutputs(fcs, x, i + 1)
      case Err(e) => Err(e)
      case Ok(rest) =>
        var outs := [out] + rest;
        assert forall k :: 1 <= k < |outs| ==> outs[k] == rest[k - 1];
        Ok(outs)
  }

  /** `BitwiseHashing.forward`. */
  function Forward(fcs: seq<Linear>, x: Tensor<real>, tanh: real -> real): (r: Result<Code, Error>)
    requires x.Valid()
    ensures r.Ok? <==> 0 < |fcs| <= x.d0 && forall i :: 0 <= i < |fcs| ==> |fcs[i].weight| == x.d2
    ensures r.Err? && |fcs| == 0 ==> r.error == EmptyStack
    ensures r.Err? && |fcs| > 0 ==> BitOutputs(fcs, x, 0).Err? && r.error == BitOutputs(fcs, x, 0).error
    ensures r.Ok? ==>
      && r.value.shape == Squeeze([x.d1, |fcs|, 1])
      && |r.value.bits| == x.d1
      && (forall n :: 0 <= n < x.d1 ==> |r.value.bits[n]| == |fcs|)
      && forall n, i :: 0 <= n < x.d1 && 0 <= i < |fcs| ==>
           r.value.bits[n][i] == tanh(ApplyLinear(fcs[i], x.v[i][n]))
  {
    var outs := BitOutputs(fcs, x, 0);
    if outs.Err? then Err(outs.error)
    else if |outs.value| == 0 then Err(EmptyStack)
    else
      // stack: K x N x 1; permute(1, 0, 2): N x K x 1; squeeze; tanh.
      var o := outs.value;
      Ok(Code(Squeeze([x.d1, |o|, 1]),
        seq(x.d1, n requires 0 <= n < x.d1 =>
          seq(|o|, i requires 0 <= i < |o| => tanh(o[i][n])))))
  }

  /** Bit `i` depends only on slot `i` and `fc_list[i]`: two inputs and two
      layer lists that agree there give equal bit `i` for every sample. */
  lemma BitIndependence(fcs1: seq<Linear>, x1: Tensor<real>, fcs2: seq<Linear>, x2: Tensor<real>,
                        tanh: real -> real, i: nat)
    requires x1.Valid() && x2.Valid() && x1.d1 == x2.d1
    requires Forward(fcs1, x1, tanh).Ok? && Forward(fcs2, x2, tanh).Ok?
    requires i < |fcs1| && i < |fcs2| && fcs1[i] == fcs2[i] && x1.v[i] == x2.v[i]
    ensures forall n :: 0 <= n < x1.d1 ==>
      Forward(fcs1, x1, tanh).value.bits[n][i] == Forward(fcs2, x2, tanh).value.bits[n][i]
  {
  }

  /** The code is N x K unless N or K is 1: `torch.squeeze` then also drops
      that axis, and with both equal to 1 the code is a scalar. */
  lemma {:induction false} CodeShape(n: nat, k: nat)
    ensures Squeeze([n, k, 1]) == [n, k] <==> n != 1 && k != 1
    ensures n == 1 && k != 1 ==> Squeeze([n, k, 1]) == [k]
    ensures n != 1 && k == 1 ==> Squeeze([n, k, 1]) == [n]
    ensures n == 1 && k == 1 ==> Squeeze([n, k, 1]) == []
  {
    var s := [n, k, 1];
    assert s[1..] == [k, 1] && s[1..][1..] == [1] && s[1..][1..][1..] == [];
    assert Squeeze([1]) == [];
    assert Squeeze([k, 1]) == (if k == 1 then [] else [k]);
  }

  /** As written, a batch of one sample loses its batch axis: the code comes
      back as a vector of K bits, not the N x K matrix the layer promises. */
  lemma SingleSampleLosesBatchAxis(fcs: seq<Linear>, x: Tensor<real>, tanh: real -> real)
    requires x.Valid() && x.d1 == 1 && |fcs| > 1
    requires Forward(fcs, x, tanh).Ok?
    ensures Forward(fcs, x, tanh).value.shape == [|fcs|]
  {
    CodeShape(x.d1, |fcs|);
  }

  /** `squeeze(-1)`: drops only the trailing axis of length 1. */
  function SqueezeLast(shape: seq<nat>): seq<nat> {
    if |shape| > 0 && shape[|shape| - 1] == 1 then shape[..|shape| - 1] else shape
  }

  /** The hashing layer with the trailing axis squeezed only: the same bits,
      always in an N x K shape. */
  function ForwardKeepBatch(fcs: seq<Linear>, x: Tensor<real>, tanh: real -> real): (r: Result<Code, Error>)
    requires x.Valid()
    ensures r.Ok? <==> Forward(fcs, x, tanh).Ok?
    ensures r.Ok? ==> r.value.shape == [x.d1, |fcs|] && r.value.bits == Forward(fcs, x, tanh).value.bits
  {
    var f := Forward(fcs, x, tanh);
    if f.Err? then Err(f.error)
    else
      var shape := [x.d1, |fcs|, 1];
      assert shape[..|shape| - 1] == [x.d1, |fcs|];
      Ok(Code(SqueezeLast(shape), f.value.bits))
  }
}
