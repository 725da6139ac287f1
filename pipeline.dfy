/** `loadDataset` (top20data.js): tradable spot products, their 24h stats,
    the price and volume filter, the percent change over the window, the
    percent filter, the confidence score, the market caps, and the top 30 by
    percent change. Every network answer is an input: `Upstream` holds what
    each fetch returned, or `None` where it failed. */
module Pipeline {
  import opened Wrappers
  import opened JsNumber
  import opened Seqs
  import opened Pool
  import opened Candles
  import opened Scoring
  import opened Market
  import opened MarketCaps
  import opened Ranking

  /** The run options; `loadDataset`'s own defaults, used when an option is
      not passed, are 24 hours, 1 000 000 USD and 1%. */
  datatype Options = Options(windowHours: int, minVolUsd: real, minPct: real)

  /** What each fetch of one run answered. `products`: the product list;
      `stats`, `windowCandles` and `recentCandles`: per product id, the 24h
      stats, the candles over the chosen window and over the last hour;
      `volumeSummary`: the volume summary when it is an array; `assets`:
      CoinCap's asset list. `None` stands for a fetch or parse that threw. */
  datatype Upstream = Upstream(
    products: Option<seq<Product>>,
    stats: string -> Option<Stats>,
    windowCandles: string -> Option<seq<Candle>>,
    recentCandles: string -> Option<seq<Candle>>,
    volumeSummary: Option<seq<VolumeEntry>>,
    assets: Option<seq<AssetEntry>>)

  /** How many workers each pool runs. */
  const Concurrency: nat := 8

  /** The stats worker: the product's sample, or a throw when its stats
      could not be fetched. */
  function StatsWorker(up: Upstream): (Product, nat) -> Result<Sample, string> {
    (p: Product, idx: nat) =>
      match up.stats(p.id)
      case None => Failure("stats")
      case Some(s) => Success(DeriveSample(p, s))
  }

  /** The window worker: the sample with the window's percent change, or a
      throw when the candles could not be fetched. */
  function WindowWorker(up: Upstream): (Sample, nat) -> Result<Row, string> {
    (x: Sample, idx: nat) =>
      match up.windowCandles(x.product.id)
      case None => Failure("candles")
      case Some(cs) => Success(Row(x, WindowPercentChange(cs)))
  }

  /** The confidence signals of a row. */
  function RowSignals(up: Upstream, x: Row): Signals {
    var pid := x.sample.product.id;
    ComputeSignals(up.recentCandles(pid), up.volumeSummary, pid, x.sample.high, x.sample.low, x.sample.last)
  }

  /** The enrichment worker; it catches every failure itself. */
  function EnrichWorker(up: Upstream): (Row, nat) -> Result<Scored, string> {
    (x: Row, idx: nat) => Success(Scored(x, ConfidencePct(RowSignals(up, x))))
  }

  /** `baseStats`: the samples of the tradable products whose stats came back. */
  function BaseStats(up: Upstream, products: seq<Product>): seq<Sample> {
    Somes(SettleAll(TradableProducts(products), StatsWorker(up)))
  }

  /** `withPct`. */
  function WithPct(opts: Options, up: Upstream, preFiltered: seq<Sample>): seq<Row> {
    if opts.windowHours == 24 then With24hPct(preFiltered)
    else Somes(SettleAll(preFiltered, WindowWorker(up)))
  }

  /** `enriched`: one scored row per passed row, in order. */
  function Enriched(up: Upstream, passed: seq<Row>): seq<Scored> {
    seq(|passed|, k requires 0 <= k < |passed| => Scored(passed[k], ConfidencePct(RowSignals(up, passed[k]))))
  }

  /** `passed`: the rows that went through the stats, price and volume,
      window and percent stages. */
  function Passed(opts: Options, up: Upstream, products: seq<Product>): seq<Row> {
    var preFiltered := PriceVolumeFilter(BaseStats(up, products), opts.minVolUsd);
    PctFilter(WithPct(opts, up, preFiltered), opts.minPct)
  }

  /** The rows `loadDataset` resolves to, or the error it rejects with. */
  function Dataset(opts: Options, up: Upstream): Result<seq<Ranked>, string> {
    match up.products
    case None => Failure("products")
    case Some(products) =>
      var passed := Passed(opts, up, products);
      match Join(Enriched(up, passed), MarketCapMap(up.assets))
      case Failure(e) => Failure(e)
      case Success(rows) => Success(Rank(rows))
  }

  /** Stage 2: the stats of the tradable products through the pool, keeping
      those that came back. */
  method LoadBaseStats(up: Upstream, products: seq<Product>) returns (baseStats: seq<Sample>)
    ensures baseStats == BaseStats(up, products)
  {
    var spot := TradableProducts(products);
    var statsList, _, _, _ := MapPool(spot, StatsWorker(up), Concurrency);
    baseStats := Somes(statsList[..]);
  }

  /** Stage 4: the percent change over the window, from the stats for 24
      hours and through the candle pool otherwise. */
  method LoadWithPct(opts: Options, up: Upstream, preFiltered: seq<Sample>) returns (withPct: seq<Row>)
    ensures withPct == WithPct(opts, up, preFiltered)
  {
    if opts.windowHours == 24 {
      withPct := With24hPct(preFiltered);
    } else {
      var pctList, _, _, _ := MapPool(preFiltered, WindowWorker(up), Concurrency);
      withPct := Somes(pctList[..]);
    }
  }

  /** Stage 6: the confidence of every passed row through the pool; no slot
      is `null` since the worker never throws. */
  method LoadEnriched(up: Upstream, passed: seq<Row>) returns (enriched: seq<Scored>)
    ensures enriched == Enriched(up, passed)
  {
    var slots, _, _, _ := MapPool(passed, EnrichWorker(up), Concurrency);
    enriched := seq(slots.Length, k requires 0 <= k < slots.Length && slots[k].Some? reads slots => slots[k].value);
  }

  /** `loadDataset`: the market caps, then the stages one after the other. */
  method LoadDataset(opts: Options, up: Upstream) returns (r: Result<seq<Ranked>, string>)
    ensures r == Dataset(opts, up)
  {
    var mc := BuildMarketCapMap(up.assets);
    if up.products.None? {
      return Failure("products");
    }
    var baseStats := LoadBaseStats(up, up.products.value);
    var preFiltered := PriceVolumeFilter(baseStats, opts.minVolUsd);
    var withPct := LoadWithPct(opts, up, preFiltered);
    var passed := PctFilter(withPct, opts.minPct);
    var enriched := LoadEnriched(up, passed);
    match Join(enriched, mc) {
      case Failure(e) => r := Failure(e);
      case Success(rows) => r := Success(Rank(rows));
    }
  }

  /** A sample built from a tradable product of the list whose stats came back. */
  predicate FromStats(up: Upstream, products: seq<Product>, x: Sample) {
    && x.product in products && IsTradable(x.product)
    && up.stats(x.product.id).Some? && x == DeriveSample(x.product, up.stats(x.product.id).value)
  }

  /** The percent change of a row: `pct24` for a 24-hour window, else the
      change over the window's candles, which came back. */
  predicate PctRule(opts: Options, up: Upstream, x: Row) {
    if opts.windowHours == 24 then x.pct == x.sample.pct24
    else
      var candles := up.windowCandles(x.sample.product.id);
      candles.Some? && x.pct == WindowPercentChange(candles.value)
  }

  /** The row a pre-filtered sample gets in `withPct`: its `pct24` for a
      24-hour window, else the change over its window's candles, and none
      when those candles could not be fetched. */
  function WindowRow(opts: Options, up: Upstream, x: Sample): Option<Row> {
    if opts.windowHours == 24 then Some(Row(x, x.pct24))
    else
      match up.windowCandles(x.product.id)
      case None => None
      case Some(cs) => Some(Row(x, WindowPercentChange(cs)))
  }

  /** Everything a row of the table satisfies. */
  predicate Shown(opts: Options, up: Upstream, products: seq<Product>, x: Ranked) {
    var row := x.scored.row;
    && FromStats(up, products, row.sample)
    && PassesPriceVolume(opts.minVolUsd, row.sample)
    && PctRule(opts, up, row)
    && PassesPct(opts.minPct, row)
    && x.scored.conf == ConfidencePct(RowSignals(up, row))
    && Success(x.marketCapUsd) == MarketCapFor(MarketCapMap(up.assets), row.sample.product)
  }

  /** The slot the stats worker leaves for product `p`. */
  lemma StatsSlot(up: Upstream, p: Product, k: nat)
    ensures Settle(StatsWorker(up)(p, k)) ==
      if up.stats(p.id).Some? then Some(DeriveSample(p, up.stats(p.id).value)) else None
  {
  }

  /** The slot the window worker leaves for sample `x`. */
  lemma WindowSlot(up: Upstream, x: Sample, k: nat)
    ensures Settle(WindowWorker(up)(x, k)) ==
      if up.windowCandles(x.product.id).Some? then Some(Row(x, WindowPercentChange(up.windowCandles(x.product.id).value))) else None
  {
  }

  /** The stats stage keeps exactly the tradable products whose stats came
      back: a failing product drops out and does not stop the others. */
  lemma BaseStatsSpec(up: Upstream, products: seq<Product>)
    ensures forall x | x in BaseStats(up, products) :: FromStats(up, products, x)
    ensures forall p | p in products && IsTradable(p) && up.stats(p.id).Some? ::
      DeriveSample(p, up.stats(p.id).value) in BaseStats(up, products)
  {
    var spot := TradableProducts(products);
    var slots := SettleAll(spot, StatsWorker(up));
    SomesMembers(slots);
    forall x | x in BaseStats(up, products) ensures FromStats(up, products, x) {
      var k := SomesIndex(slots, x);
      StatsSlot(up, spot[k], k);
      assert spot[k] in spot;
    }
    forall p | p in products && IsTradable(p) && up.stats(p.id).Some?
      ensures DeriveSample(p, up.stats(p.id).value) in BaseStats(up, products)
    {
      var k :| 0 <= k < |spot| && spot[k] == p;
      StatsSlot(up, p, k);
      assert slots[k] in slots;
    }
  }

  /** Every row of `withPct` carries a pre-filtered sample and follows the
      percent rule of the window. */
  lemma WithPctSpec(opts: Options, up: Upstream, preFiltered: seq<Sample>)
    ensures forall x | x in WithPct(opts, up, preFiltered) :: x.sample in preFiltered && PctRule(opts, up, x)
  {
    if opts.windowHours != 24 {
      var slots := SettleAll(preFiltered, WindowWorker(up));
      forall x | x in WithPct(opts, up, preFiltered) ensures x.sample in preFiltered && PctRule(opts, up, x) {
        var k := SomesIndex(slots, x);
        WindowSlot(up, preFiltered[k], k);
      }
    }
  }

  /** Every pre-filtered sample that gets a row has that row in `withPct`:
      a failed candle fetch drops only its own sample. */
  lemma WithPctComplete(opts: Options, up: Upstream, preFiltered: seq<Sample>)
    ensures forall x | x in preFiltered && WindowRow(opts, up, x).Some? ::
      WindowRow(opts, up, x).value in WithPct(opts, up, preFiltered)
  {
    forall x | x in preFiltered && WindowRow(opts, up, x).Some?
      ensures WindowRow(opts, up, x).value in WithPct(opts, up, preFiltered)
    {
      var k :| 0 <= k < |preFiltered| && preFiltered[k] == x;
      if opts.windowHours == 24 {
        assert With24hPct(preFiltered)[k] == Row(x, x.pct24);
      } else {
        var slots := SettleAll(preFiltered, WindowWorker(up));
        WindowSlot(up, x, k);
        assert slots[k] in slots;
        SomesMembers(slots);
      }
    }
  }

  /** Every passed row comes from the stats of a tradable product, passed the
      price and volume filter, follows the window's percent rule and passed
      the percent filter. */
  lemma PassedSpec(opts: Options, up: Upstream, products: seq<Product>)
    ensures forall x | x in Passed(opts, up, products) ::
      && FromStats(up, products, x.sample) && PassesPriceVolume(opts.minVolUsd, x.sample)
      && PctRule(opts, up, x) && PassesPct(opts.minPct, x)
  {
    var preFiltered := PriceVolumeFilter(BaseStats(up, products), opts.minVolUsd);
    BaseStatsSpec(up, products);
    WithPctSpec(opts, up, preFiltered);
  }

  /** Every listed tradable product whose stats came back, whose sample
      passes the price and volume filter and whose window row passes the
      percent filter is passed, whatever happened to the other products. */
  lemma PassedComplete(opts: Options, up: Upstream, products: seq<Product>)
    ensures forall p | p in products && IsTradable(p) && up.stats(p.id).Some? ::
      var x := DeriveSample(p, up.stats(p.id).value);
      PassesPriceVolume(opts.minVolUsd, x) && WindowRow(opts, up, x).Some? &&
      PassesPct(opts.minPct, WindowRow(opts, up, x).value) ==>
        WindowRow(opts, up, x).value in Passed(opts, up, products)
  {
    var preFiltered := PriceVolumeFilter(BaseStats(up, products), opts.minVolUsd);
    BaseStatsSpec(up, products);
    WithPctComplete(opts, up, preFiltered);
  }

  /** The enrichment stage scores every passed row, in order, with a
      confidence in [0, 100]. */
  lemma EnrichedSpec(up: Upstream, passed: seq<Row>)
    ensures |Enriched(up, passed)| == |passed|
    ensures forall k | 0 <= k < |passed| ::
      Enriched(up, passed)[k].row == passed[k] && 0 <= Enriched(up, passed)[k].conf <= 100
  {
  }

  /** Every joined row satisfies `Shown`. */
  lemma JoinedShown(opts: Options, up: Upstream, products: seq<Product>)
    ensures var joined := Join(Enriched(up, Passed(opts, up, products)), MarketCapMap(up.assets));
      joined.Success? ==> forall x | x in joined.value :: Shown(opts, up, products, x)
  {
    var passed := Passed(opts, up, products);
    var joined := Join(Enriched(up, passed), MarketCapMap(up.assets));
    PassedSpec(opts, up, products);
    if joined.Success? {
      forall x | x in joined.value ensures Shown(opts, up, products, x) {
        var k :| 0 <= k < |joined.value| && joined.value[k] == x;
        assert passed[k] in passed;
      }
    }
  }

  /** `loadDataset` rejects when the product list could not be fetched, and
      also when a base currency is not a string; otherwise it resolves. */
  lemma DatasetFailure(opts: Options, up: Upstream)
    ensures up.products.None? ==> Dataset(opts, up).Failure?
    ensures up.products.Some? && (forall p | p in up.products.value :: !p.baseCurrency.TruthyNonText?) ==>
      Dataset(opts, up).Success?
  {
    if up.products.Some? {
      var products := up.products.value;
      var passed := Passed(opts, up, products);
      var enriched := Enriched(up, passed);
      PassedSpec(opts, up, products);
      if forall p | p in products :: !p.baseCurrency.TruthyNonText? {
        forall k | 0 <= k < |enriched| ensures !enriched[k].row.sample.product.baseCurrency.TruthyNonText? {
          assert passed[k] in passed;
        }
      }
    }
  }

  /** The rows `loadDataset` resolves to: at most 30, by percent change from
      largest to smallest, each from a tradable product whose stats came
      back, that passed the price, volume and percent filters, with its
      confidence and market cap. */
  lemma DatasetRows(opts: Options, up: Upstream)
    ensures Dataset(opts, up).Success? ==>
      var rows := Dataset(opts, up).value;
      && up.products.Some?
      && |rows| <= TopCount
      && (forall i, j | 0 <= i < j < |rows| :: Pct(rows[i]) >= Pct(rows[j]))
      && (forall x | x in rows :: Shown(opts, up, up.products.value, x))
  {
    if Dataset(opts, up).Success? {
      var products := up.products.value;
      var joined := Join(Enriched(up, Passed(opts, up, products)), MarketCapMap(up.assets));
      JoinedShown(opts, up, products);
      var rows := joined.value;
      RankOrdered(rows);
      forall x | x in Rank(rows) ensures Shown(opts, up, products, x) {
        assert x in multiset(rows);
      }
    }
  }

  /** The run shows the top of all passed rows: `min(30, n)` rows for `n`
      passed rows, and every passed row is shown or has a change no larger
      than any shown row. */
  lemma DatasetTop(opts: Options, up: Upstream)
    ensures Dataset(opts, up).Success? ==>
      var passed := Passed(opts, up, up.products.value);
      var rows := Dataset(opts, up).value;
      && |rows| == (if |passed| <= TopCount then |passed| else TopCount)
      && forall k | 0 <= k < |passed| ::
           (exists x | x in rows :: x.scored.row == passed[k]) ||
           (IsFinite(passed[k].pct) && forall y | y in rows :: passed[k].pct.value <= Pct(y))
  {
    if Dataset(opts, up).Success? {
      var products := up.products.value;
      var passed := Passed(opts, up, products);
      var joined := Join(Enriched(up, passed), MarketCapMap(up.assets)).value;
      var rows := Rank(joined);
      RankCovers(joined);
      forall k | 0 <= k < |passed|
        ensures (exists x | x in rows :: x.scored.row == passed[k]) ||
                (IsFinite(passed[k].pct) && forall y | y in rows :: passed[k].pct.value <= Pct(y))
      {
        var x := joined[k];
        assert x.scored.row == passed[k];
        assert passed[k] in passed;
      }
    }
  }

  /** When exactly one row passes, the run shows exactly that row, with the
      percent change its window prescribes. */
  lemma DatasetSinglePassed(opts: Options, up: Upstream)
    ensures up.products.Some? && |Passed(opts, up, up.products.value)| == 1 && Dataset(opts, up).Success? ==>
      |Dataset(opts, up).value| == 1
      && Dataset(opts, up).value[0].scored.row == Passed(opts, up, up.products.value)[0]
      && PctRule(opts, up, Dataset(opts, up).value[0].scored.row)
  {
    if up.products.Some? && |Passed(opts, up, up.products.value)| == 1 && Dataset(opts, up).Success? {
      var products := up.products.value;
      var passed := Passed(opts, up, products);
      var joined := Join(Enriched(up, passed), MarketCapMap(up.assets)).value;
      RankSingle(joined);
      assert joined[0].scored.row == passed[0];
      PassedSpec(opts, up, products);
      assert passed[0] in passed;
    }
  }
}
