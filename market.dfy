/** The per-product records of `loadDataset` (top20data.js) and the three
    filters it applies: tradable spot products, price and volume, percent. */
module Market {
  import opened Wrappers
  import opened JsNumber
  import opened JsString
  import opened Seqs
  import opened Metrics

  /** A Coinbase product, as far as the pipeline reads it. */
  datatype Product = Product(id: string, baseCurrency: StringField, quoteCurrency: string, status: string,
                             tradingDisabled: bool, cancelOnly: bool, postOnly: bool)

  /** A product's 24h stats, each field after `+`. */
  datatype Stats = Stats(open: Num, last: Num, high: Num, low: Num, volume: Num)

  /** `{ product, pct24, last, high, low, volBase, volUsd }`. */
  datatype Sample = Sample(product: Product, pct24: Num, last: Num, high: Num, low: Num, volBase: Num, volUsd: Num)

  /** `{ ...sample, pct }`: a sample with the percent change over the window. */
  datatype Row = Row(sample: Sample, pct: Num)

  /** The tradable-spot test of `products.filter`. */
  predicate IsTradable(p: Product) {
    && (p.status == "online" || p.status == "online_trading")
    && (p.quoteCurrency == "USD" || p.quoteCurrency == "USDT")
    && !p.tradingDisabled && !p.cancelOnly && !p.postOnly
  }

  /** `spot`: the tradable products, in their order, each as often as listed. */
  function TradableProducts(products: seq<Product>): (spot: seq<Product>)
    ensures forall p | p in products ::
      multiset(spot)[p] == if IsTradable(p) then multiset(products)[p] else 0
    ensures forall p :: p in spot <==> p in products && IsTradable(p)
  {
    FilterCounts(products, IsTradable);
    Filter(products, IsTradable)
  }

  /** The stats worker's record: `pct24` from open to last, and the 24h volume
      in USD, `volBase * last`, when both are finite and NaN otherwise. */
  function DeriveSample(p: Product, s: Stats): (x: Sample)
    ensures x.product == p && x.last == s.last && x.high == s.high && x.low == s.low && x.volBase == s.volume
    ensures x.pct24 == PercentChange(s.open, s.last)
    ensures x.volUsd.Some? <==> IsFinite(s.volume) && IsFinite(s.last)
    ensures x.volUsd.Some? ==> x.volUsd.value == s.volume.value * s.last.value
  {
    var volUsd := if IsFinite(s.volume) && IsFinite(s.last) then Some(s.volume.value * s.last.value) else None;
    Sample(p, PercentChange(s.open, s.last), s.last, s.high, s.low, s.volume, volUsd)
  }

  /** The price and volume test: a finite price above 1 and a finite USD
      volume of at least `minVolUsd`. */
  predicate PassesPriceVolume(minVolUsd: real, x: Sample) {
    IsFinite(x.last) && x.last.value > 1.0 && IsFinite(x.volUsd) && x.volUsd.value >= minVolUsd
  }

  /** `preFiltered`. */
  function PriceVolumeFilter(samples: seq<Sample>, minVolUsd: real): (r: seq<Sample>)
    ensures forall x | x in samples ::
      multiset(r)[x] == if PassesPriceVolume(minVolUsd, x) then multiset(samples)[x] else 0
    ensures forall x :: x in r <==> x in samples && PassesPriceVolume(minVolUsd, x)
  {
    var keep := x => PassesPriceVolume(minVolUsd, x);
    FilterCounts(samples, keep);
    Filter(samples, keep)
  }

  /** The percent test: a finite change above `minPct`. */
  predicate PassesPct(minPct: real, x: Row) {
    IsFinite(x.pct) && x.pct.value > minPct
  }

  /** `passed`. */
  function PctFilter(rows: seq<Row>, minPct: real): (r: seq<Row>)
    ensures forall x | x in rows ::
      multiset(r)[x] == if PassesPct(minPct, x) then multiset(rows)[x] else 0
    ensures forall x :: x in r <==> x in rows && PassesPct(minPct, x)
  {
    var keep := x => PassesPct(minPct, x);
    FilterCounts(rows, keep);
    Filter(rows, keep)
  }

  /** With a 24-hour window the percent change is the stats' `pct24`. */
  function With24hPct(samples: seq<Sample>): (rows: seq<Row>)
    ensures |rows| == |samples|
    ensures forall k | 0 <= k < |samples| :: rows[k].sample == samples[k] && rows[k].pct == samples[k].pct24
  {
    seq(|samples|, k requires 0 <= k < |samples| => Row(samples[k], samples[k].pct24))
  }
}
