/**
 * View measurement: resolving a parent's measure spec against the size the
 * view would like, plus the Java integer arithmetic the layout code uses.
 */
module Measuring {
  /**
   * The mode half of a measure spec. The two mode bits admit a fourth value
   * that no named mode uses; the resolution rule sends it to its default case.
   */
  datatype Mode = Unspecified | Exactly | AtMost | Undefined

  /** A measure spec already split into its mode and its size. */
  datatype MeasureSpec = MeasureSpec(mode: Mode, size: nat)

  /** Math.min on ints. */
  function Min(a: int, b: int): (m: int)
    ensures m <= a && m <= b && (m == a || m == b)
  {
    if a <= b then a else b
  }

  /** Math.max on ints. */
  function Max(a: int, b: int): (m: int)
    ensures m >= a && m >= b && (m == a || m == b)
  {
    if a >= b then a else b
  }

  /**
   * Java's int division by 2, which truncates toward zero: the half never
   * lies farther from zero than n / 2 and has the sign of n (or is zero).
   */
  function Half(n: int): (r: int)
    ensures n >= 0 ==> 0 <= n - 2 * r <= 1
    ensures n < 0 ==> -1 <= n - 2 * r <= 0
    ensures (n >= 0 <==> r >= 0) || r == 0
  {
    if n >= 0 then n / 2 else -((-n) / 2)
  }

  /**
   * The three-case size rule: no constraint gives the desired size, an upper
   * bound gives the smaller of the two, and an exact size (or an unknown
   * mode) gives the spec size whatever was desired.
   */
  function ResolveMeasured(spec: MeasureSpec, desired: int): (r: int)
    ensures spec.mode == Unspecified ==> r == desired
    ensures spec.mode == AtMost ==> r <= spec.size && r <= desired && (r == spec.size || r == desired)
    ensures spec.mode == Exactly || spec.mode == Undefined ==> r == spec.size
  {
    match spec.mode
    case Unspecified => desired
    case AtMost => Min(spec.size, desired)
    case _ => spec.size
  }

  /**
   * Whatever the mode, a larger desired size never resolves to a smaller
   * one, and only an unconstrained spec lets the result exceed its size.
   */
  lemma ResolveMeasuredMonotone(spec: MeasureSpec, d1: int, d2: int)
    requires d1 <= d2
    ensures ResolveMeasured(spec, d1) <= ResolveMeasured(spec, d2)
    ensures spec.mode != Unspecified ==> ResolveMeasured(spec, d2) <= spec.size
  {
  }
}
