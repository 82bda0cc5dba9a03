/** `_clamp` over Python floats, where a value may be NaN.  A NaN compares false
    against everything, so the two-argument `min` and `max` keep it. */
module FloatClamp {
  import Motion

  datatype PyFloat = Num(r: real) | NaN

  /** Python's `a < b`: false whenever either side is NaN. */
  predicate Less(a: PyFloat, b: PyFloat) {
    a.Num? && b.Num? && a.r < b.r
  }

  /** Python's two-argument `min`: the first argument unless the second compares
      strictly smaller, so a NaN in first place is kept. */
  function PyMin(a: PyFloat, b: PyFloat): (r: PyFloat)
    ensures Less(b, a) ==> r == b
    ensures !Less(b, a) ==> r == a
    ensures a.NaN? ==> r == a
  {
    if Less(b, a) then b else a
  }

  /** Python's two-argument `max`: the first argument unless the second compares
      strictly larger, so a NaN in first place is kept. */
  function PyMax(a: PyFloat, b: PyFloat): (r: PyFloat)
    ensures Less(a, b) ==> r == b
    ensures !Less(a, b) ==> r == a
    ensures a.NaN? ==> r == a
  {
    if Less(a, b) then b else a
  }

  /** The safety promise of `_clamp`: a number inside the axis's permitted range. */
  predicate InRange(v: PyFloat, limit: real) {
    v.Num? && Motion.AxisWithin(v.r, limit)
  }

  /** `_clamp` as written, with NaN allowed as the input. */
  function ClampAsWritten(value: PyFloat, limit: real): (r: PyFloat)
    ensures value.Num? ==> r == Num(Motion.Clamp(value.r, limit))
  {
    if limit <= 0.0 then Num(0.0) else PyMax(PyMin(value, Num(limit)), Num(-limit))
  }

  /** A NaN on an enabled axis comes out of the clamp unchanged, so it is not in range. */
  lemma ClampAsWrittenPassesNaN(limit: real)
    requires limit > 0.0
    ensures ClampAsWritten(NaN, limit) == NaN
    ensures !InRange(ClampAsWritten(NaN, limit), limit)
  {
  }

  /** The evidently intended clamp: a NaN is treated like a disabled axis. */
  function ClampChecked(value: PyFloat, limit: real): (r: PyFloat)
    ensures InRange(r, limit)
    ensures value.Num? ==> r == ClampAsWritten(value, limit)
    ensures value.NaN? ==> r == Num(0.0)
  {
    if value.NaN? then Num(0.0) else ClampAsWritten(value, limit)
  }
}
