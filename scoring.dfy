/** The confidence stage of top20data.js: four signals, each confined to
    [0, 1] by `confidencePct`, weighted and rounded to a percentage. */
module Scoring {
  import opened Wrappers
  import opened JsNumber
  import opened Candles

  /** One entry of the exchange's volume summary: `product_id`, and
      `+volume_24h`, `+volume_30day`. */
  datatype VolumeEntry = VolumeEntry(productId: string, volume24h: Num, volume30day: Num)

  /** The four inputs of `confidencePct`. */
  datatype Signals = Signals(mom60: real, volX: real, trendGreen: real, proxHigh: real)

  /** `volSum.find((r) => r.product_id === pid)`, as the index of the first
      entry for `pid`, searching from `from`. */
  function FindVolume(summary: seq<VolumeEntry>, pid: string, from: nat := 0): (r: Option<nat>)
    requires from <= |summary|
    ensures r.Some? ==> from <= r.value < |summary| && summary[r.value].productId == pid
    ensures r.Some? ==> forall j | from <= j < r.value :: summary[j].productId != pid
    ensures r.None? ==> forall j | from <= j < |summary| :: summary[j].productId != pid
    decreases |summary| - from
  {
    if from == |summary| then None
    else if summary[from].productId == pid then Some(from)
    else FindVolume(summary, pid, from + 1)
  }

  /** `volX` for a summary entry: when `volume_30day > 0`, the 24h volume
      (NaN read as 0) over the 30-day daily average, divided by 3 and capped
      at 1; otherwise 0. */
  function VolumeRatio(e: VolumeEntry): (r: real)
    ensures r <= 1.0
    ensures r != 0.0 ==> IsFinite(e.volume30day) && e.volume30day.value > 0.0
    ensures IsFinite(e.volume30day) && e.volume30day.value > 0.0 ==>
      var v24, v30 := e.volume24h.GetOr(0.0), e.volume30day.value;
      && (r == 1.0 <==> 10.0 * v24 >= v30)
      && (r > 0.0 <==> v24 > 0.0)
      && (r < 0.0 <==> v24 < 0.0)
  {
    if IsFinite(e.volume30day) && e.volume30day.value > 0.0 then
      var v24, v30 := e.volume24h.GetOr(0.0), e.volume30day.value;
      var avgDaily := v30 / 30.0;
      var ratio := (v24 / avgDaily) / 3.0;
      assert ratio == 10.0 * v24 / v30;
      QuotientSigns(10.0 * v24, v30);
      Min(1.0, ratio)
    else 0.0
  }

  /** `volX` for product `pid`: 0 when the summary could not be fetched or is
      not an array, or holds no entry for `pid`. */
  function VolumeSignal(summary: Option<seq<VolumeEntry>>, pid: string): (r: real)
    ensures r <= 1.0
    ensures r != 0.0 ==>
      && summary.Some?
      && exists k | 0 <= k < |summary.value| :: summary.value[k].productId == pid
                                            && IsFinite(summary.value[k].volume30day)
                                            && summary.value[k].volume30day.value > 0.0
  {
    match summary
    case None => 0.0
    case Some(entries) =>
      match FindVolume(entries, pid)
      case None => 0.0
      case Some(k) => VolumeRatio(entries[k])
  }

  /** `proxHigh`: where the last price sits between the 24h low and high,
      confined to [0, 1]; 0 unless all three are finite and `high > low`. */
  function ProximityToHigh(high: Num, low: Num, last: Num): (r: real)
    ensures 0.0 <= r <= 1.0
    ensures r != 0.0 ==> IsFinite(high) && IsFinite(low) && IsFinite(last) && high.value > low.value
    ensures IsFinite(high) && IsFinite(low) && IsFinite(last) && high.value > low.value ==>
      && (r == 1.0 <==> last.value >= high.value)
      && (r == 0.0 <==> last.value <= low.value)
  {
    if IsFinite(high) && IsFinite(low) && high.value > low.value && IsFinite(last) then
      var rng := high.value - low.value;
      var x := (last.value - low.value) / rng;
      QuotientSigns(last.value - low.value, rng);
      Clamp(0.0, 1.0, x)
    else 0.0
  }

  /** The signals of the enrichment worker for product `pid`. `recent` holds
      the 1-hour window of 5-minute candles, or `None` when that fetch threw,
      which leaves `mom60` and `trendGreen` at 0. */
  function ComputeSignals(recent: Option<seq<Candle>>, summary: Option<seq<VolumeEntry>>,
                          pid: string, high: Num, low: Num, last: Num): (s: Signals)
    ensures -1.0 <= s.mom60 <= 1.0 && s.volX <= 1.0
    ensures 0.0 <= s.trendGreen <= 1.0 && 0.0 <= s.proxHigh <= 1.0
    ensures recent.None? ==> s.mom60 == 0.0 && s.trendGreen == 0.0
  {
    var cs := if recent.Some? then SortByTime(recent.value) else [];
    Signals(Momentum(cs), VolumeSignal(summary, pid), TrendGreen(cs), ProximityToHigh(high, low, last))
  }

  /** The weighted score of `confidencePct`, before scaling. */
  function Score(s: Signals): (score: real)
    ensures 0.0 <= score <= 1.0
  {
    0.35 * Clamp(0.0, 1.0, s.mom60) +
    0.30 * Clamp(0.0, 1.0, s.volX) +
    0.20 * Clamp(0.0, 1.0, s.trendGreen) +
    0.15 * Clamp(0.0, 1.0, s.proxHigh)
  }

  /** `confidencePct`: the score as a whole percentage. */
  function ConfidencePct(s: Signals): (pct: int)
    ensures 0 <= pct <= 100
  {
    var score := Score(s);
    RoundScaledBounds(score, 100);
    assert score * 100.0 == 100 as real * score;
    Round(score * 100.0)
  }

  /** Signals at or above 1 give 100, signals at or below 0 give 0, and a
      momentum of 2 alone gives its weight, 35. */
  lemma ConfidencePctExamples(s: Signals)
    ensures s.mom60 >= 1.0 && s.volX >= 1.0 && s.trendGreen >= 1.0 && s.proxHigh >= 1.0 ==>
      ConfidencePct(s) == 100
    ensures s.mom60 <= 0.0 && s.volX <= 0.0 && s.trendGreen <= 0.0 && s.proxHigh <= 0.0 ==>
      ConfidencePct(s) == 0
    ensures ConfidencePct(Signals(2.0, 0.0, 0.0, 0.0)) == 35
  {
    RoundInteger(100);
    RoundInteger(0);
    RoundInteger(35);
  }

  /** A stronger signal never lowers the confidence. */
  lemma ConfidencePctMonotone(s: Signals, t: Signals)
    requires s.mom60 <= t.mom60 && s.volX <= t.volX
    requires s.trendGreen <= t.trendGreen && s.proxHigh <= t.proxHigh
    ensures ConfidencePct(s) <= ConfidencePct(t)
  {
    assert Score(s) <= Score(t);
    RoundMonotone(Score(s) * 100.0, Score(t) * 100.0);
  }
}
