/** Time points are real seconds; the source compares whole seconds obtained by `duration_cast`. */
module Clock {

  /** `duration_cast<seconds>(d).count()`: truncation toward zero. */
  function WholeSeconds(d: real): (n: int)
    ensures d >= 0.0 ==> n as real <= d < n as real + 1.0
    ensures d < 0.0 ==> n as real - 1.0 < d <= n as real
  {
    if d >= 0.0 then d.Floor else -((-d).Floor)
  }

  /** More than `limit` whole seconds is at least one whole second more than `limit`. */
  lemma WholeSecondsExceed(d: real, limit: int)
    requires d >= 0.0 && WholeSeconds(d) > limit
    ensures d >= (limit + 1) as real
  {
    var n := WholeSeconds(d);
    assert d >= n as real;
    assert n as real >= (limit + 1) as real;
  }

  lemma WholeSecondsGrow(a: real, b: real)
    requires a <= b
    ensures WholeSeconds(a) <= WholeSeconds(b)
  {
    assert a.Floor <= b.Floor && (-b).Floor <= (-a).Floor;
  }
}
