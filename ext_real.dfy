/** Float scores as the aggregation sees them: a finite real or negative
    infinity. The concept scores come out of `tanh`, so they are finite; the
    only infinity the aggregation ever introduces is `-inf`, and no NaN occurs
    before the softmax. */
module ExtendedReals {

  datatype ExtReal = NegInf | Fin(r: real)

  /** `a >= b` (`torch.ge`): everything is at least `-inf`, and `-inf` is
      below every finite value. */
  predicate Ge(a: ExtReal, b: ExtReal) {
    match b
    case NegInf => true
    case Fin(y) => a.Fin? && a.r >= y
  }

  /** `a > b`. */
  predicate Gt(a: ExtReal, b: ExtReal) {
    match a
    case NegInf => false
    case Fin(x) => b.NegInf? || x > b.r
  }

  /** `a > 0`, the comparison behind both the positivity step and the
      pseudo-label. */
  predicate IsPositive(a: ExtReal) {
    a.Fin? && a.r > 0.0
  }

  /** Float addition on these values: `-inf` absorbs every finite value. */
  function Add(a: ExtReal, b: ExtReal): (c: ExtReal)
    ensures c.NegInf? <==> a.NegInf? || b.NegInf?
    ensures c.Fin? ==> c.r == a.r + b.r
  {
    if a.NegInf? || b.NegInf? then NegInf else Fin(a.r + b.r)
  }
}
