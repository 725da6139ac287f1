/** `buildMarketCapMap` (top20data.js): folds CoinCap's asset list into a
    dictionary from upper-cased symbol to the largest market cap seen, and
    falls back to the empty dictionary when anything throws. */
module MarketCaps {
  import opened Wrappers
  import opened JsNumber
  import opened JsString

  /** An element of CoinCap's `data` array: `null` (reading `a.symbol`
      throws) or an asset with its `symbol` and `+marketCapUsd`. */
  datatype AssetEntry = NullEntry | Asset(symbol: StringField, marketCapUsd: Num)

  /** The dictionary, symbol to market cap in USD. */
  type CapMap = map<string, real>

  /** An entry on which the loop body throws. */
  predicate Throws(a: AssetEntry) {
    a.NullEntry? || a.symbol.TruthyNonText?
  }

  /** Entry `a` is written under `key`: its upper-cased symbol is `key`, which
      is not empty, and its cap is finite. */
  predicate Contributes(a: AssetEntry, key: string) {
    a.Asset? && UpperOrEmpty(a.symbol) == Some(key) && key != "" && IsFinite(a.marketCapUsd)
  }

  /** One pass of the loop body over `m`; `None` when it throws. */
  function Step(m: CapMap, a: AssetEntry): (r: Option<CapMap>)
    ensures r.None? <==> Throws(a)
    ensures r.Some? ==> forall k | k in r.value && k !in m :: Contributes(a, k)
    ensures r.Some? ==> forall k | k in m :: k in r.value && r.value[k] >= m[k]
    ensures r.Some? ==> forall k | k in r.value && !Contributes(a, k) :: k in m && r.value[k] == m[k]
    ensures r.Some? ==> forall k | Contributes(a, k) ::
      k in r.value && r.value[k] >= a.marketCapUsd.value && r.value[k] >= (if k in m then m[k] else 0.0)
      && (r.value[k] == a.marketCapUsd.value || r.value[k] == (if k in m then m[k] else 0.0))
  {
    match a
    case NullEntry => None
    case Asset(symbol, mc) =>
      match UpperOrEmpty(symbol)
      case None => None
      case Some(sym) =>
        assert forall k | Contributes(a, k) :: k == sym && sym != "" && IsFinite(mc);
        if sym != "" && IsFinite(mc) then
          Some(m[sym := Max(if sym in m then m[sym] else 0.0, mc.value)])
        else Some(m)
  }

  /** The dictionary after the loop has run over `assets`, or `None` if an
      iteration threw. */
  function Fold(assets: seq<AssetEntry>): Option<CapMap>
    decreases |assets|
  {
    if |assets| == 0 then Some(map[])
    else
      match Fold(assets[..|assets| - 1])
      case None => None
      case Some(m) => Step(m, assets[|assets| - 1])
  }

  /** What `buildMarketCapMap` resolves to; `data` is `data.data || []`, or
      `None` when the fetch failed or the list is not iterable. */
  function MarketCapMap(data: Option<seq<AssetEntry>>): CapMap {
    if data.None? then map[]
    else match Fold(data.value)
      case None => map[]
      case Some(m) => m
  }

  /** The loop of `buildMarketCapMap`, with the `catch` that returns `{}`. */
  method BuildMarketCapMap(data: Option<seq<AssetEntry>>) returns (m: CapMap)
    ensures m == MarketCapMap(data)
  {
    if data.None? {
      return map[];
    }
    var assets := data.value;
    m := map[];
    for i := 0 to |assets|
      invariant Fold(assets[..i]) == Some(m)
    {
      var a, m0 := assets[i], m;
      assert assets[..i + 1][..i] == assets[..i];
      assert assets[..i + 1][i] == a;
      match a
      case NullEntry =>
        FoldThrows(assets);
        return map[];
      case Asset(symbol, mc) =>
        var sym := "";
        match symbol {
          case Falsy =>
          case Text(s) =>
            sym := ToUpper(s);
          case TruthyNonText =>
            FoldThrows(assets);
            return map[];
        }
        if sym != "" && IsFinite(mc) {
          var prior := if sym in m then m[sym] else 0.0;
          m := m[sym := Max(prior, mc.value)];
        }
        assert Step(m0, a) == Some(m);
        assert Fold(assets[..i + 1]) == Step(m0, a);
    }
    assert assets[..|assets|] == assets;
  }

  /** The fold throws exactly when some entry throws. */
  lemma {:induction false} FoldThrows(assets: seq<AssetEntry>)
    ensures Fold(assets).None? <==> exists i | 0 <= i < |assets| :: Throws(assets[i])
    decreases |assets|
  {
    if |assets| > 0 {
      var init := assets[..|assets| - 1];
      FoldThrows(init);
      assert forall i | 0 <= i < |init| :: init[i] == assets[i];
    }
  }

  /** The keys are the non-empty upper-cased symbols of the entries with a
      finite cap, and nothing else. */
  lemma {:induction false} FoldKeys(assets: seq<AssetEntry>)
    requires Fold(assets).Some?
    ensures forall k | k in Fold(assets).value :: k != "" && IsUpper(k)
    ensures forall k :: k in Fold(assets).value <==>
      exists i | 0 <= i < |assets| :: Contributes(assets[i], k)
    decreases |assets|
  {
    if |assets| > 0 {
      var init, a := assets[..|assets| - 1], assets[|assets| - 1];
      FoldKeys(init);
      assert forall i | 0 <= i < |init| :: init[i] == assets[i];
      var m := Fold(init).value;
      forall k ensures k in Fold(assets).value <==> exists i | 0 <= i < |assets| :: Contributes(assets[i], k) {
        if Contributes(a, k) {
          assert k in Fold(assets).value;
        }
      }
    }
  }

  /** Each value is the largest of 0 and the finite caps written under its
      key: at least every such cap, never negative, and either 0 or one of
      those caps. */
  lemma {:induction false} FoldValues(assets: seq<AssetEntry>)
    requires Fold(assets).Some?
    ensures forall k, i | k in Fold(assets).value && 0 <= i < |assets| && Contributes(assets[i], k) ::
      Fold(assets).value[k] >= assets[i].marketCapUsd.value
    ensures forall k | k in Fold(assets).value :: Fold(assets).value[k] >= 0.0
    ensures forall k | k in Fold(assets).value :: (Fold(assets).value[k] == 0.0 ||
      exists i | 0 <= i < |assets| :: Contributes(assets[i], k) && assets[i].marketCapUsd.value == Fold(assets).value[k])
    decreases |assets|
  {
    if |assets| > 0 {
      var init, a := assets[..|assets| - 1], assets[|assets| - 1];
      FoldValues(init);
      FoldKeys(init);
      assert forall i | 0 <= i < |init| :: init[i] == assets[i];
      var m, m' := Fold(init).value, Fold(assets).value;
      forall k, i | k in m' && 0 <= i < |assets| && Contributes(assets[i], k)
        ensures m'[k] >= assets[i].marketCapUsd.value
      {
        if i < |init| {
          assert Contributes(init[i], k);
          assert k in m;
        }
      }
      forall k | k in m' && m'[k] != 0.0
        ensures exists i | 0 <= i < |assets| :: Contributes(assets[i], k) && assets[i].marketCapUsd.value == m'[k]
      {
        if Contributes(a, k) && m'[k] == a.marketCapUsd.value {
          assert Contributes(assets[|assets| - 1], k);
        } else {
          assert k in m && m'[k] == m[k];
          var i :| 0 <= i < |init| && Contributes(init[i], k) && init[i].marketCapUsd.value == m[k];
          assert Contributes(assets[i], k);
        }
      }
    }
  }

  /** The dictionary `buildMarketCapMap` resolves to: empty when the fetch
      failed or an entry threw; otherwise keyed by exactly the non-empty
      upper-cased symbols with a finite cap, each mapped to the largest of 0
      and the caps seen for it. */
  lemma MarketCapMapSpec(data: Option<seq<AssetEntry>>)
    ensures data.None? ==> MarketCapMap(data) == map[]
    ensures data.Some? && (exists i | 0 <= i < |data.value| :: Throws(data.value[i])) ==>
      MarketCapMap(data) == map[]
    ensures forall k | k in MarketCapMap(data) :: k != "" && IsUpper(k) && MarketCapMap(data)[k] >= 0.0
    ensures data.Some? && (forall i | 0 <= i < |data.value| :: !Throws(data.value[i])) ==>
      && (forall k :: k in MarketCapMap(data) <==>
            exists i | 0 <= i < |data.value| :: Contributes(data.value[i], k))
      && (forall k, i | k in MarketCapMap(data) && 0 <= i < |data.value| && Contributes(data.value[i], k) ::
            MarketCapMap(data)[k] >= data.value[i].marketCapUsd.value)
      && (forall k | k in MarketCapMap(data) :: (MarketCapMap(data)[k] == 0.0 ||
            exists i | 0 <= i < |data.value| :: Contributes(data.value[i], k)
                                              && data.value[i].marketCapUsd.value == MarketCapMap(data)[k]))
  {
    if data.Some? {
      FoldThrows(data.value);
      if Fold(data.value).Some? {
        FoldKeys(data.value);
        FoldValues(data.value);
      }
    }
  }
}
