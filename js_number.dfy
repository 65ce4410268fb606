/**
 * JavaScript numbers, abstracted.  A finite number is an exact real (the
 * rounding of IEEE-754 doubles is not modelled); the two infinities and NaN
 * are explicit markers.  The operations are the ones the filter evaluator
 * uses: `<` and `>` (the abstract relational comparison), binary `-` and
 * `Math.abs`.
 */
module JsNumber {

  datatype Num = Finite(v: real) | PosInf | NegInf | NaN

  /** JavaScript `a < b` on numbers: false as soon as either side is NaN. */
  predicate Less(a: Num, b: Num) {
    match a
    case NaN => false
    case PosInf => false
    case NegInf => !b.NaN? && b != NegInf
    case Finite(x) =>
      match b
      case Finite(y) => x < y
      case PosInf => true
      case _ => false
  }

  /** JavaScript `a > b` is `b < a` with the operands swapped. */
  predicate Greater(a: Num, b: Num) {
    Less(b, a)
  }

  /** JavaScript `a - b`: NaN propagates and `Infinity - Infinity` is NaN. */
  function Sub(a: Num, b: Num): Num {
    if a.NaN? || b.NaN? then NaN
    else if a.Finite? && b.Finite? then Finite(a.v - b.v)
    else if a == b then NaN
    else if a == PosInf || b == NegInf then PosInf
    else NegInf
  }

  /** `Math.abs`. */
  function Abs(a: Num): Num {
    match a
    case NaN => NaN
    case PosInf => PosInf
    case NegInf => PosInf
    case Finite(x) => Finite(if x < 0.0 then -x else x)
  }

  /** The tolerance of the evaluator's `=` comparison. */
  const Tolerance: real := 0.0001

  /** `Math.abs(a - b) < 0.0001`. */
  predicate Near(a: Num, b: Num) {
    Less(Abs(Sub(a, b)), Finite(Tolerance))
  }

  /** `<` is a strict total order on the numbers other than NaN, and NaN is
      comparable with nothing (not even itself). */
  lemma LessIsStrictOrder(a: Num, b: Num, c: Num)
    ensures !Less(a, a)
    ensures Less(a, b) ==> !Less(b, a)
    ensures Less(a, b) && Less(b, c) ==> Less(a, c)
    ensures !a.NaN? && !b.NaN? && a != b ==> Less(a, b) || Less(b, a)
    ensures a.NaN? ==> !Less(a, b) && !Less(b, a)
  {
  }

  /** On finite numbers `<` is the order of the reals; the infinities sit
      below and above every finite number. */
  lemma LessOnExtendedReals(a: Num, b: Num)
    ensures a.Finite? && b.Finite? ==> (Less(a, b) <==> a.v < b.v)
    ensures b.Finite? ==> Less(NegInf, b) && Less(b, PosInf)
    ensures !Less(PosInf, b) && !Less(b, NegInf)
  {
  }

  /** The tolerance test holds exactly when both numbers are finite and
      their difference lies strictly inside (-0.0001, 0.0001). */
  lemma NearIff(a: Num, b: Num)
    ensures Near(a, b) <==> a.Finite? && b.Finite? && -Tolerance < a.v - b.v < Tolerance
  {
  }
}
