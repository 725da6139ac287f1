# Crypto screener core, modelled in Dafny

This project models the data logic of two browser pages that screen crypto
markets.

`top20data.js` holds `loadDataset`, which builds a top 30 of the best
percent movers among Coinbase's USD spot products. It runs in these steps:

- It keeps the tradable products.
- It fetches each product's 24h stats through a bounded worker pool
  (`mapPool`), which by default runs 8 workers.
- It keeps products whose price is above 1 USD and whose 24h USD volume reaches
  a threshold.
- It computes the percent change over the chosen window: 24h from the stats,
  or from 5-minute candles otherwise.
- It keeps rows above a minimum change.
- It gives each row a 0–100 confidence (`confidencePct`) from four signals:
  - momentum over the last hour;
  - green-candle share;
  - 24h volume against the 30-day daily average;
  - the position of the last price between the 24h low and high.
- It joins CoinCap market caps by upper-cased symbol (`buildMarketCapMap`).
- It sorts by change, largest first, and keeps 30 rows.

`listecrypto.js` holds three pieces of logic:

- `computeForAll` takes the first and last price and the summed volume of each
  top coin's market chart over a period.
- The run button refuses a run with a missing date or an end that is not after
  the start.
- A click on a column header re-sorts the table body on that column and flips
  the direction for the next click.

How the model represents the source:

- JavaScript numbers are modelled as `Num = Option<real>`. `None` stands for
  any non-finite value (NaN or ±Infinity). Almost every test in the code asks
  `isFinite` first; the two that do not are listed under "## Left out".

- `Math.round(x)` is `⌊x + ½⌋`.
- `Array.prototype.sort`, which is stable, is one stable insertion sort
  (`Sorting.Sort`) over a comparator returning a number. The model proves that
  this sort:
  - permutes its input;
  - orders it, under a comparator consistent on the elements;
  - is stable within each tie class.
- Every network answer is an input. `Pipeline.Upstream` holds what each fetch
  returned, or `None` where the fetch or the JSON parse threw.
- The worker pool is an imperative method over an array. Its scheduler is left
  nondeterministic:
  - a runner may claim the next index at any step;
  - any item in flight may complete at any step.
- The table body is a class whose `rows` field is updated by `AppendChild`.
- A header is a class with a mutable `asc` field.

Failures inside a stage do not end a run:

- `buildMarketCapMap` catches everything and resolves to `{}`
  (top20data.js:63-65).
- A failed volume summary becomes `null`, which gives a zero `volX`
  (top20data.js:182, 212-221).
- A failed stats or window-candle fetch only drops that product: `mapPool`
  stores `null`, and `filter(Boolean)` removes it (top20data.js:140-174).
- A failed one-hour candle fetch keeps the row, with `mom60` and `trendGreen`
  left at 0 (top20data.js:193-210).

Of the inputs the model represents, only two make `loadDataset` reject:

- a failed product list;
- a truthy non-string `base_currency`, whose `toUpperCase` throws in the join
  (top20data.js:244).

A `null` entry in the product list, and an `onStage` or `onCounters` callback
that throws, reject as well; the model has neither (see "## Left out").

## Model

| member | source | states |
|---|---|---|
| Pool.Settle | top20data.js:26-30 | a worker's outcome is stored as its value exactly when it did not throw, and as `null` otherwise |
| Pool.MapPool | top20data.js:20-38 | for every concurrency of at least 1 and every completion order: one slot per item; slot `k` holds `worker(items[k], k)` or `null` when it threw; progress is reported once per completion as `(1, n) … (n, n)`; indices are claimed in order 0…n-1 and each completes once |
| Scoring.Score | top20data.js:42-47 | the weighted sum of the four clamped signals lies in [0, 1] |
| Scoring.ConfidencePct | top20data.js:41-49 | the confidence is an integer in [0, 100] |
| Scoring.ConfidencePctExamples | top20data.js:41-49 | signals all ≥ 1 give 100, signals all ≤ 0 give 0, and a momentum of 2 alone gives 35 |
| Scoring.ConfidencePctMonotone | top20data.js:41-49 | raising any signal never lowers the confidence |
| MarketCaps.Step | top20data.js:57-61 | one loop iteration throws exactly on a `null` entry or a non-string truthy symbol; otherwise it writes only under the entry's non-empty upper-cased symbol with a finite cap, never lowers a value, and stores the larger of the old value (or 0) and the cap |
| MarketCaps.Fold | top20data.js:56-62 | the loop as a left fold of `Step` from `{}`, `None` once an iteration throws; its contract is `MarketCaps.FoldThrows`, `FoldKeys` and `FoldValues` |
| MarketCaps.MarketCapMap | top20data.js:52-66 | what `buildMarketCapMap` resolves to: the fold, or `{}` when the fetch or an iteration threw; its contract is `MarketCaps.MarketCapMapSpec` |
| MarketCaps.BuildMarketCapMap | top20data.js:52-66 | the loop over `data.data`, with the `catch` returning `{}`, yields `MarketCapMap(data)` |
| MarketCaps.FoldThrows | top20data.js:53-65 | the loop throws exactly when some entry throws |
| MarketCaps.FoldKeys | top20data.js:57-61 | the keys are exactly the non-empty upper-cased symbols of the entries with a finite cap |
| MarketCaps.FoldValues | top20data.js:57-61 | each value is at least every finite cap written under its key, never negative, and either 0 or one of those caps |
| MarketCaps.MarketCapMapSpec | top20data.js:52-66 | the dictionary is empty when the fetch failed or an entry threw; otherwise its keys are exactly the contributing symbols (non-empty, upper case), each mapped to the largest of 0 and its caps |
| Metrics.PercentChange | top20data.js:133-134 | NaN unless the first value is finite and positive and the last is finite; otherwise `last = first·(1 + r/100)`, and the change is positive (zero) exactly when the price rose (stayed) |
| Metrics.StageProgress | top20data.js:140-143 | the progress position `base + round(span·done/total)` stays within [base, base + span], is `base` with nothing done and `base + span` with everything done |
| Metrics.StageFraction | top20data.js:141 | `span·done/total` lies in [0, span], at the ends when nothing or everything is done |
| Metrics.StageProgressMonotone | top20data.js:140-143 | the bar never moves back as `done` grows |
| Candles.SortByTimeOrdered | top20data.js:76 | sorting candles by time is a permutation into non-decreasing time order |
| Candles.SortedEnds | top20data.js:76-79 | after sorting, the first candle is an earliest and the last a latest of the input |
| Candles.WindowPercentChange | top20data.js:76-81 | the pure tail of `percentChangeFromCandles`: sort by time, NaN below two candles, else `PercentChange` of the first and last close; its contract is `Candles.WindowPercentChangeEnds` |
| Candles.WindowPercentChangeEnds | top20data.js:76-81 | the window change is NaN for fewer than two candles; otherwise it is the percent change from the close of an earliest candle to the close of a latest one |
| Candles.WindowPercentChangeExample | top20data.js:76-81 | closes 100 then 110 give +10, in whichever order the candles arrive |
| Candles.Momentum | top20data.js:201-206 | `mom60` lies in [-1, 1]; it is nonzero only with two or more candles, a finite positive first open and a finite last close; it is positive exactly when the last close is above the first open |
| Candles.IsGreen | top20data.js:207 | a candle is green when its finite close is above its finite open (see "## Left out" for infinite values) |
| Candles.CountGreen | top20data.js:207 | the count is the length of the filter of the candles by `IsGreen`, so by `Seqs.FilterCounts` it counts exactly the green candles; it is at most the number of candles; it equals it exactly when every candle is green, and it is 0 exactly when none is |
| Candles.TrendGreen | top20data.js:207-208 | `trendGreen` lies in [0, 1]; with two or more candles it is 1 exactly when all are green; it is 0 exactly when there are fewer than two or none is green |
| Candles.TrendGreenFraction | top20data.js:207-208 | with two candles or more, `trendGreen` is the green count divided by the number of candles |
| Candles.CountGreenInsert | top20data.js:200 | inserting a candle into the sorted run keeps the green count |
| Candles.CountGreenSortInvariant | top20data.js:200-208 | the green count, hence `trendGreen`, does not depend on the order the exchange lists the candles in |
| Scoring.FindVolume | top20data.js:214 | `find` returns the first entry for the product id, and `None` when there is none |
| Scoring.VolumeRatio | top20data.js:215-220 | `volX` is at most 1 and nonzero only for a finite positive 30-day volume; then it is 1 exactly when `10·v24 ≥ v30`, with the sign of `v24` (NaN read as 0) |
| Scoring.VolumeSignal | top20data.js:212-221 | `volX` is 0 unless the summary came back and holds an entry for the product with a finite positive 30-day volume |
| Scoring.ProximityToHigh | top20data.js:223-226 | `proxHigh` lies in [0, 1] and is 0 unless high, low and last are finite with high > low; it is 1 exactly when last ≥ high and 0 exactly when last ≤ low |
| Scoring.ComputeSignals | top20data.js:186-226 | every signal is in its range, and a failed candle fetch leaves `mom60` and `trendGreen` at 0 |
| JsString.ToUpper | top20data.js:58 | `toUpperCase` keeps the length, leaves no lower-case letter, and leaves an upper-case string unchanged |
| JsString.UpperOrEmpty | top20data.js:58 | upper-casing the field, read as `''` when falsy, throws exactly on a truthy non-string; the result is upper case, and it is empty exactly for a falsy value or `''` |
| JsString.StrLessIrreflexive | listecrypto.js:17-18 | no string is `<` itself |
| JsString.StrLessAsymmetric | listecrypto.js:17-18 | `a < b` and `b < a` never both hold |
| JsString.StrLessTransitive | listecrypto.js:17-18 | string `<` is transitive |
| JsString.StrLessTotal | listecrypto.js:17-18 | of two different strings, one is `<` the other |
| Market.TradableProducts | top20data.js:112-119 | `spot` keeps exactly the online USD/USDT products that are not disabled, cancel-only or post-only, each as often as listed |
| Market.DeriveSample | top20data.js:128-137 | the sample keeps the product and stats; `pct24` is the percent change from open to last; `volUsd` is `volume·last` when both are finite, else NaN |
| Market.PriceVolumeFilter | top20data.js:151-153 | `preFiltered` keeps exactly the samples with a finite price above 1 and a finite USD volume of at least the threshold, with their multiplicity |
| Market.PctFilter | top20data.js:177 | `passed` keeps exactly the rows with a finite change above `minPct`, with their multiplicity |
| Market.With24hPct | top20data.js:157-158 | with a 24h window every sample is kept, in order, with `pct = pct24` |
| Ranking.MarketCapFor | top20data.js:244 | the join throws exactly on a truthy non-string base currency; otherwise the cap is the dictionary's value under the upper-cased currency, and NaN when that is missing or 0 |
| Ranking.Join | top20data.js:241-245 | the join throws exactly when some row's base currency is a truthy non-string; otherwise it keeps every row in order with its cap |
| Ranking.Rank | top20data.js:246-247 | the ranking holds `min(n, 30)` rows |
| Ranking.SortByPct | top20data.js:246 | sorting by `b.pct - a.pct` permutes the rows into non-increasing change |
| Ranking.RankOrdered | top20data.js:246-247 | the top rows are drawn from the input and run from largest to smallest change |
| Ranking.RankCutoff | top20data.js:246-247 | no row left out has a larger change than a row kept |
| Ranking.RankCovers | top20data.js:246-247 | each input row is kept, or has a change no larger than every kept row |
| Ranking.RankSingle | top20data.js:246-247 | a single row is ranked as it is |
| Ranking.SortedCutoff | top20data.js:247 | cutting a non-increasing sequence keeps the largest keys |
| Ranking.RankStable | top20data.js:246-247 | rows with equal change keep their input order, and the ones kept are the first of them |
| Ranking.RankExample | top20data.js:246-247 | changes 5, -2, 30, 1 come out as 30, 5, 1, -2 |
| Pipeline.LoadBaseStats | top20data.js:122-147 | the stats stage through the pool equals `BaseStats` |
| Pipeline.LoadWithPct | top20data.js:156-174 | the window stage equals `WithPct`: the stats' `pct24` for 24 hours, else the candle pool's surviving rows |
| Pipeline.LoadEnriched | top20data.js:184-236 | the enrichment pool leaves no `null` and yields one scored row per passed row, in order |
| Pipeline.LoadDataset | top20data.js:94-251 | the staged run resolves or rejects exactly as `Dataset` |
| Pipeline.Dataset | top20data.js:94-251 | the value `loadDataset` resolves to, or its rejection; its contract is `Pipeline.DatasetFailure`, `DatasetRows`, `DatasetTop` and `DatasetSinglePassed` |
| Pipeline.StatsSlot | top20data.js:126-138 | a product's stats slot holds its derived sample when its stats came back, else `null` |
| Pipeline.WindowSlot | top20data.js:163-166 | a sample's window slot holds its row with the candle change when its candles came back, else `null` |
| Pipeline.BaseStatsSpec | top20data.js:112-147 | `baseStats` holds exactly the samples of tradable listed products whose stats came back; a failing product does not stop the others |
| Pipeline.WithPctSpec | top20data.js:156-174 | every `withPct` row carries a pre-filtered sample and the change its window prescribes |
| Pipeline.WithPctComplete | top20data.js:156-174 | every pre-filtered sample gets its row in `withPct`: `pct24` for 24 hours, else its window change when its candles came back; a failed candle fetch drops only that sample |
| Pipeline.PassedSpec | top20data.js:147-177 | every passed row comes from a tradable product's stats, passed the price and volume filter, follows the window rule and passed the percent filter |
| Pipeline.PassedComplete | top20data.js:112-177 | every listed tradable product whose stats came back, whose sample passes the price and volume filter and whose window row passes the percent filter is passed, whatever happened to the others |
| Pipeline.EnrichedSpec | top20data.js:184-236 | enrichment drops no row, keeps the order and gives each a confidence in [0, 100] |
| Pipeline.JoinedShown | top20data.js:177-245 | every joined row satisfies everything a shown row must |
| Pipeline.DatasetFailure | top20data.js:94-251 | the run rejects when the product list failed; it resolves when no base currency is a truthy non-string |
| Pipeline.DatasetRows | top20data.js:94-251 | a resolved run has at most 30 rows, from largest to smallest change, each from a tradable product's stats that passed every filter, with its confidence and market cap |
| Pipeline.DatasetTop | top20data.js:241-247 | a resolved run shows `min(30, n)` rows for `n` passed rows, and every passed row is shown or has a change no larger than every shown row |
| Pipeline.DatasetSinglePassed | top20data.js:94-251 | when exactly one row passes, the run shows exactly that row, with the change its window prescribes |
| Seqs.FilterCounts | top20data.js:112-119 | `filter` keeps exactly the accepted elements, each as often as in the input |
| Seqs.FilterAppend | top20data.js:151-153 | `filter` keeps relative order |
| Seqs.FilterPrefix | top20data.js:246-247 | the filter of a prefix is a prefix of the filter |
| Seqs.SomesMembers | top20data.js:147 | `filter(Boolean)` on pool slots keeps exactly the values of the non-`null` slots, each as often as it occurs |
| Seqs.SomesIndex | top20data.js:173 | every kept value comes from a slot that holds it |
| Seqs.SomesAppend | top20data.js:173 | dropping `null` slots keeps relative order |
| Seqs.Take | top20data.js:247 | `slice(0, n)` is a prefix of length `min(len, n)` |
| Sorting.Sort | top20data.js:246 | `Array.prototype.sort` with a comparator, as a stable insertion sort keeping the length; its contract is `Sorting.SortPermutes`, `SortSorted` and `SortStable` |
| Sorting.SortPermutes | top20data.js:246 | the sort is a permutation of its input |
| Sorting.SortSorted | top20data.js:246 | under a comparator consistent on the elements, the result is in order |
| Sorting.SortStable | top20data.js:246 | within each tie class of the comparator the input order is kept |
| Coins.SumValues | listecrypto.js:57 | `reduce((s, v) => s + v[1], 0)` as a left fold; its contract is `Coins.SumValuesUnits`, `SumValuesAppend` and `SumValuesBounds` |
| Coins.SumValuesUnits | listecrypto.js:57 | the sum over no points is the initial 0, and over one point is its value; with `SumValuesAppend` this fixes the sum of every list |
| Coins.SumValuesAppend | listecrypto.js:57 | the summed volume splits over consecutive runs of points |
| Coins.SumValuesBounds | listecrypto.js:57 | non-negative volumes sum to a non-negative total of at least each point |
| Coins.ChangePct | listecrypto.js:54 | the change is finite exactly when the start price is nonzero, and then `end = start·(1 + pct/100)` |
| Coins.Summarize | listecrypto.js:47-68 | a coin gets a row exactly when its history came back with a non-empty price series and a volume series; the row has the first and last price, their change and the summed volume |
| Coins.CoinRowsAppend | listecrypto.js:46-69 | the rows of two consecutive runs of coins are the rows of each, in order |
| Coins.CoinRowsSpec | listecrypto.js:46-69 | at most one row per coin; each row summarizes a listed coin; every coin that can be summarized gets its row, whatever happened to the others |
| Coins.ComputeForAll | listecrypto.js:39-71 | the call rejects exactly when the coin list or the top-coins list failed; otherwise it resolves to the coins' rows in list order |
| ColumnSort.Compare | listecrypto.js:14-20 | the comparator returns -1, 0 or 1; it is 0 exactly when a side is `undefined` or both are equal; otherwise it is negative exactly when the pair is in string order for the direction |
| ColumnSort.StrOrder | listecrypto.js:17-18 | string `<` is a strict total order |
| ColumnSort.CompareSigns | listecrypto.js:14-20 | descending is ascending negated, and swapping the two values negates the result |
| ColumnSort.RowOrderConsistent | listecrypto.js:14-20 | on rows that all carry the attribute, the comparator is consistent |
| ColumnSort.SortTableOrder | listecrypto.js:11-21 | sorting rows that carry the attribute orders them by string order, ascending or descending |
| ColumnSort.TableBody.AppendChild | listecrypto.js:21 | `appendChild` moves the row to the end, or adds it there, and the body keeps no row twice |
| ColumnSort.RemoveThenAppend | listecrypto.js:21 | moving a row to the end of rows without repeats leaves none |
| ColumnSort.TableBody.SortTable | listecrypto.js:11-22 | re-appending the sorted copy leaves the body holding exactly the sorted rows, and no row twice |
| ColumnSort.AppendStep | listecrypto.js:21 | each append extends the re-appended prefix by one row and removes that row from the rest |
| ColumnSort.ReappendStart | listecrypto.js:21 | before the loop the body is unchanged |
| ColumnSort.ReappendEnd | listecrypto.js:21 | after appending every row of a permutation, the body is that permutation, without repeats |
| ColumnSort.DistinctPermutation | listecrypto.js:13-14 | a permutation of rows without repeats has none either |
| ColumnSort.HeaderCell.constructor | listecrypto.js:122 | a header starts ascending |
| ColumnSort.HeaderCell.Click | listecrypto.js:123-127 | a click sorts the body in the current direction and then flips it |
| ColumnSort.CheckDates | listecrypto.js:99-105 | a missing date refuses the run; an end not after the start refuses it; otherwise the run starts with both timestamps, and NaN timestamps are not refused |

## Left out

- `null` entries in the fetched lists are not modelled: a product, a candle and
  a volume-summary entry are always objects. In the source, a `null` product
  makes `p.status` throw outside any `try`, so `loadDataset` rejects
  (top20data.js:114). A `null` window candle makes the sort or `cs[0][4]`
  throw, so that product is dropped (top20data.js:76-78). A `null` one-hour
  candle leaves `mom60` and `trendGreen` at 0 (top20data.js:200-207). A `null`
  volume-summary entry met before the match leaves `volX` at 0
  (top20data.js:214). Market-cap entries are the exception: `MarketCaps`
  models a `null` asset.
- Fetching, URLs, request headers, JSON decoding, `Date.now()` and the
  `sleep(60)` between claims are left out. What each fetch answered is an input
  (`Pipeline.Upstream`, and the `history` function of `Coins`). This includes
  the time window of each candle request.
- IEEE-754 arithmetic is not modelled. Reals are exact, so an overflow to
  Infinity (for example in `volBase * last`) does not happen in the model.
  NaN, +Infinity and -Infinity are one value, `None`.
- Candles.IsGreen: a candle is green only when both its close and its open are
  finite. The source compares `+c[4] > +c[3]` directly (top20data.js:207), so a
  +Infinity close above a finite open, or a finite close above a -Infinity
  open, counts as green there but not in the model.
- Scoring.VolumeRatio: an infinite 24h or 30-day volume is read as not finite.
  In the source (top20data.js:215-219), a +Infinity 24h volume with a finite
  positive 30-day volume gives `volX = 1`; the model gives 0. A +Infinity
  30-day volume with an infinite 24h volume gives a NaN `volX`, and so a NaN
  confidence; the model gives 0.
- Conversions with `+` are taken as already applied: fields arrive as `Num`.
  Candle timestamps are integers, so NaN timestamps in the time sort are not
  modelled.
- `onStage`, `onCounters` and the `statsOK` counter are left out. They feed
  only the progress display, though a callback that throws rejects
  `loadDataset` in the source. The progress positions are modelled by
  `Metrics.StageProgress`, and the pool's `onProgress` arguments by the
  `progress` output of `Pool.MapPool`.
- The pool's real concurrency (`Promise.all` over runners that interleave at
  `await`) is modelled as nondeterministic interleaving of claims and
  completions. Microtask timing is not modelled.
- The volume summary is a single shared promise in the source. The model takes
  it as one value that every worker reads.
- Pool.MapPool: requires a concurrency of at least 1. With 0 the source starts
  no runner and returns an array of empty slots; every caller passes 8.
- JsString.ToUpper: covers ASCII letters only. Unicode case mapping (`ß` to
  `SS` and the like) is not modelled.
- JsString.StrLess: compares characters as Dafny `char`s. JavaScript compares
  UTF-16 code units, which differs for characters outside the Basic
  Multilingual Plane.
- `Array.prototype.sort` with a comparator that is not consistent is
  implementation-defined. The model gives it the result of its stable
  insertion sort, and proves ordering only under a consistent comparator.
  Examples are `sortTable` on rows missing the attribute, or NaN changes.
- Ranking.Pct: reads a NaN change as 0. It never applies to a ranked row,
  because every such row passed the finite percent filter
  (`Pipeline.DatasetRows`, `Pipeline.DatasetTop`).
- Options that are NaN or not numbers are not modelled. `Pipeline.Options`
  holds an integer window and real thresholds.
- `unixTimestamp` is not modelled; its results are inputs of
  `ColumnSort.CheckDates`. The `alert` calls, the loader text and `renderTable`
  are not modelled. The data attributes of a row are given as its `dataset`.
- `key` in the header handler is taken to be a string (`th.dataset.key`). A
  header without `data-key` is not modelled.
- `top20ui.js` (presentation and scheduling) is not part of this model.
