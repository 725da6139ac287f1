/** Percent changes and progress percentages (top20data.js). */
module Metrics {
  import opened Wrappers
  import opened JsNumber

  /** `((last - first) / first) * 100`, or NaN unless `first` is finite and
      positive and `last` is finite. Used for `pct24` (open to last) and for
      the window change (first close to last close). */
  function PercentChange(first: Num, last: Num): (r: Num)
    ensures r.Some? <==> IsFinite(first) && first.value > 0.0 && IsFinite(last)
    ensures r.Some? ==> last.value == first.value * (1.0 + r.value / 100.0)
    ensures r.Some? ==> (r.value > 0.0 <==> last.value > first.value)
    ensures r.Some? ==> (r.value == 0.0 <==> last.value == first.value)
  {
    if IsFinite(first) && first.value > 0.0 && IsFinite(last) then
      var f, l := first.value, last.value;
      var p := ((l - f) / f) * 100.0;
      assert f * (1.0 + p / 100.0) == l by {
        assert p / 100.0 == (l - f) / f;
        assert f * ((l - f) / f) == l - f;
      }
      assert p > 0.0 <==> l > f by {
        assert (l - f) / f > 0.0 <==> l - f > 0.0;
      }
      Some(p)
    else None
  }

  /** A stage's progress bar position, `base + Math.round((span * done) / total)`. */
  function StageProgress(base: int, span: nat, done: nat, total: nat): (pct: int)
    requires 0 < total && done <= total
    ensures base <= pct <= base + span
    ensures done == total ==> pct == base + span
    ensures done == 0 ==> pct == base
  {
    var q := (span * done) as real / total as real;
    StageFraction(span, done, total);
    RoundMonotone(0.0, q);
    RoundMonotone(q, span as real);
    RoundInteger(span);
    RoundInteger(0);
    base + Round(q)
  }

  /** `(span * done) / total` lies between 0 and `span`, at either end when
      nothing or everything is done. */
  lemma StageFraction(span: nat, done: nat, total: nat)
    requires 0 < total && done <= total
    ensures 0.0 <= (span * done) as real / total as real <= span as real
    ensures done == total ==> (span * done) as real / total as real == span as real
    ensures done == 0 ==> (span * done) as real / total as real == 0.0
  {
    var t := total as real;
    MulMonotone(span, done, total);
    DivMonotone(0.0, (span * done) as real, t);
    DivMonotone((span * done) as real, (span * total) as real, t);
    NatProduct(span, total);
    CancelDiv(span as real, t);
    assert done == 0 ==> span * done == 0;
  }

  /** The bar never moves back while a stage's pool completes items. */
  lemma StageProgressMonotone(base: int, span: nat, d1: nat, d2: nat, total: nat)
    requires 0 < total && d1 <= d2 <= total
    ensures StageProgress(base, span, d1, total) <= StageProgress(base, span, d2, total)
  {
    var t := total as real;
    MulMonotone(span, d1, d2);
    DivMonotone((span * d1) as real, (span * d2) as real, t);
    RoundMonotone((span * d1) as real / t, (span * d2) as real / t);
  }
}
