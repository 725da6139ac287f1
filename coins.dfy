/** `computeForAll` (listecrypto.js): for each of the top coins, the first
    and last price of its history over the chosen period, the percent change
    between them and the sum of its volume points. */
module Coins {
  import opened Wrappers
  import opened JsNumber
  import opened Seqs

  /** A `[timestamp, value]` pair of a market chart. */
  datatype Point = Point(ts: real, value: real)

  /** A coin's market chart; `None` for a series missing from the answer. */
  datatype History = History(prices: Option<seq<Point>>, totalVolumes: Option<seq<Point>>)

  /** An entry of the top-coins list. */
  datatype Coin = Coin(id: string, name: string)

  /** `{ name, priceStart, priceEnd, pctChange, totalVolume }`. */
  datatype CoinRow = CoinRow(name: string, priceStart: real, priceEnd: real, pctChange: Num, totalVolume: real)

  /** `points.reduce((s, v) => s + v[1], 0)`. */
  function SumValues(points: seq<Point>): (total: real)
    decreases |points|
  {
    if |points| == 0 then 0.0
    else SumValues(points[..|points| - 1]) + points[|points| - 1].value
  }

  /** The sum splits over consecutive runs of points. */
  lemma {:induction false} SumValuesAppend(a: seq<Point>, b: seq<Point>)
    ensures SumValues(a + b) == SumValues(a) + SumValues(b)
    decreases |b|
  {
    if |b| == 0 {
      assert a + b == a;
    } else {
      var b' := b[..|b| - 1];
      SumValuesAppend(a, b');
      assert (a + b)[..|a + b| - 1] == a + b';
    }
  }

  /** The sum over no points is 0, and over one point is that point's value. */
  lemma SumValuesUnits(p: Point)
    ensures SumValues([]) == 0.0
    ensures SumValues([p]) == p.value
  {
    assert [p][..0] == [];
  }

  /** Volumes that are never negative sum to at least each of them. */
  lemma {:induction false} SumValuesBounds(points: seq<Point>)
    requires forall k | 0 <= k < |points| :: points[k].value >= 0.0
    ensures forall k | 0 <= k < |points| :: SumValues(points) >= points[k].value
    ensures SumValues(points) >= 0.0
    decreases |points|
  {
    if |points| > 0 {
      SumValuesBounds(points[..|points| - 1]);
    }
  }

  /** `((priceEnd - priceStart) / priceStart) * 100`, which is not finite
      when `priceStart` is 0. */
  function ChangePct(priceStart: real, priceEnd: real): (r: Num)
    ensures r.Some? <==> priceStart != 0.0
    ensures r.Some? ==> priceEnd == priceStart * (1.0 + r.value / 100.0)
  {
    if priceStart == 0.0 then None
    else
      var p := ((priceEnd - priceStart) / priceStart) * 100.0;
      assert priceStart * ((priceEnd - priceStart) / priceStart) == priceEnd - priceStart;
      Some(p)
  }

  /** The loop body for one coin: `None` when the history fetch threw, when
      `prices` is missing (reading its length throws), when it is empty
      (`continue`), or when `total_volumes` is missing (`reduce` throws). */
  function Summarize(coin: Coin, history: Option<History>): (row: Option<CoinRow>)
    ensures row.Some? <==>
      && history.Some? && history.value.prices.Some? && |history.value.prices.value| > 0
      && history.value.totalVolumes.Some?
    ensures row.Some? ==>
      var prices := history.value.prices.value;
      && row.value.name == coin.name
      && row.value.priceStart == prices[0].value
      && row.value.priceEnd == prices[|prices| - 1].value
      && row.value.pctChange == ChangePct(row.value.priceStart, row.value.priceEnd)
      && row.value.totalVolume == SumValues(history.value.totalVolumes.value)
  {
    match history
    case None => None
    case Some(data) =>
      if data.prices.None? || |data.prices.value| == 0 || data.totalVolumes.None? then None
      else
        var prices := data.prices.value;
        var priceStart, priceEnd := prices[0].value, prices[|prices| - 1].value;
        Some(CoinRow(coin.name, priceStart, priceEnd, ChangePct(priceStart, priceEnd),
                     SumValues(data.totalVolumes.value)))
  }

  /** Each coin's outcome, in list order; `history` gives what the market
      chart fetch answered for a coin id over the period. */
  function Outcomes(coins: seq<Coin>, history: string -> Option<History>): (outcomes: seq<Option<CoinRow>>)
    ensures |outcomes| == |coins|
  {
    seq(|coins|, k requires 0 <= k < |coins| => Summarize(coins[k], history(coins[k].id)))
  }

  /** The rows of `computeForAll`: one per coin that completes, in the order
      of the top-coins list. */
  function CoinRows(coins: seq<Coin>, history: string -> Option<History>): seq<CoinRow> {
    Somes(Outcomes(coins, history))
  }

  /** The rows follow the coins: the rows of a list split in two are the rows
      of the first part followed by those of the second. */
  lemma CoinRowsAppend(a: seq<Coin>, b: seq<Coin>, history: string -> Option<History>)
    ensures CoinRows(a + b, history) == CoinRows(a, history) + CoinRows(b, history)
  {
    assert Outcomes(a + b, history) == Outcomes(a, history) + Outcomes(b, history);
    SomesAppend(Outcomes(a, history), Outcomes(b, history));
  }

  /** At most one row per coin; every row is the summary of a listed coin;
      and every coin whose history has a non-empty price series and a volume
      series gets its row, whatever happened to the others. */
  lemma CoinRowsSpec(coins: seq<Coin>, history: string -> Option<History>)
    ensures |CoinRows(coins, history)| <= |coins|
    ensures forall row | row in CoinRows(coins, history) ::
      exists k | 0 <= k < |coins| :: Summarize(coins[k], history(coins[k].id)) == Some(row)
    ensures forall k | 0 <= k < |coins| && Summarize(coins[k], history(coins[k].id)).Some? ::
      Summarize(coins[k], history(coins[k].id)).value in CoinRows(coins, history)
  {
    var outcomes := Outcomes(coins, history);
    SomesMembers(outcomes);
    forall k | 0 <= k < |coins| && Summarize(coins[k], history(coins[k].id)).Some?
      ensures Summarize(coins[k], history(coins[k].id)).value in CoinRows(coins, history)
    {
      assert outcomes[k] in outcomes;
    }
  }

  /** The loop of `computeForAll` once both lists are in: `coinsListLoaded`
      says whether the full coin list could be fetched and parsed, and
      `topCoins` is the top-coins list, `None` when its fetch or parse threw
      or when the answer is not iterable (an error object, say), since
      `for…of` then throws; either failure rejects the call. */
  method ComputeForAll(coinsListLoaded: bool, topCoins: Option<seq<Coin>>, history: string -> Option<History>)
    returns (r: Result<seq<CoinRow>, string>)
    ensures r.Failure? <==> !coinsListLoaded || topCoins.None?
    ensures r.Success? ==> r.value == CoinRows(topCoins.value, history)
  {
    if !coinsListLoaded {
      return Failure("coins/list");
    }
    if topCoins.None? {
      return Failure("coins/markets");
    }
    var coins := topCoins.value;
    var results: seq<CoinRow> := [];
    for i := 0 to |coins|
      invariant results == CoinRows(coins[..i], history)
    {
      var coin := coins[i];
      assert coins[..i + 1] == coins[..i] + [coin];
      CoinRowsAppend(coins[..i], [coin], history);
      assert Outcomes([coin], history) == [Summarize(coin, history(coin.id))];
      var data := history(coin.id);
      if data.None? || data.value.prices.None? {
        continue;
      }
      var prices := data.value.prices.value;
      if |prices| == 0 {
        continue;
      }
      var priceStart := prices[0].value;
      var priceEnd := prices[|prices| - 1].value;
      var pctChange := ChangePct(priceStart, priceEnd);
      if data.value.totalVolumes.None? {
        continue;
      }
      var totalVolume := SumValues(data.value.totalVolumes.value);
      results := results + [CoinRow(coin.name, priceStart, priceEnd, pctChange, totalVolume)];
    }
    assert coins[..|coins|] == coins;
    return Success(results);
  }
}
