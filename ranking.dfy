/** The last stage of `loadDataset` (top20data.js): each scored row gets its
    market cap, then the rows are sorted by percent change, largest first,
    and the first 30 kept. */
module Ranking {
  import opened Wrappers
  import opened JsNumber
  import opened JsString
  import opened Seqs
  import opened Sorting
  import opened Market
  import opened MarketCaps

  /** `{ ...row, conf }`. */
  datatype Scored = Scored(row: Row, conf: int)

  /** `{ ...scored, marketCapUsd }`. */
  datatype Ranked = Ranked(scored: Scored, marketCapUsd: Num)

  /** How many rows the table shows. */
  const TopCount: nat := 30

  /** The percent change a ranked row is sorted by. Every ranked row passed
      the percent filter, so the value is finite (see `Pipeline.Shown`). */
  function Pct(x: Ranked): real {
    x.scored.row.pct.GetOr(0.0)
  }

  /** `mcMap[(base_currency || '').toUpperCase()] || NaN`: the market cap
      under the upper-cased base currency, NaN when there is none or it is
      0, and a failure when the base currency is not a string. */
  function MarketCapFor(mc: CapMap, p: Product): (r: Result<Num, string>)
    ensures r.Failure? <==> p.baseCurrency.TruthyNonText?
    ensures r.Success? ==>
      var key := UpperOrEmpty(p.baseCurrency).value;
      && (r.value.Some? <==> key in mc && mc[key] != 0.0)
      && (r.value.Some? ==> r.value.value == mc[key])
  {
    match UpperOrEmpty(p.baseCurrency)
    case None => Failure("toUpperCase is not a function")
    case Some(key) => Success(if key in mc && mc[key] != 0.0 then Some(mc[key]) else None)
  }

  /** `enriched.map(...)`: every row with its market cap, in order; the
      whole map throws as soon as one base currency is not a string. */
  function Join(enriched: seq<Scored>, mc: CapMap): (r: Result<seq<Ranked>, string>)
    ensures r.Failure? <==> exists k | 0 <= k < |enriched| :: enriched[k].row.sample.product.baseCurrency.TruthyNonText?
    ensures r.Success? ==> |r.value| == |enriched|
    ensures r.Success? ==> forall k | 0 <= k < |enriched| ::
      r.value[k].scored == enriched[k] && Success(r.value[k].marketCapUsd) == MarketCapFor(mc, enriched[k].row.sample.product)
  {
    if forall k | 0 <= k < |enriched| :: !enriched[k].row.sample.product.baseCurrency.TruthyNonText? then
      Success(seq(|enriched|, k requires 0 <= k < |enriched| =>
        Ranked(enriched[k], MarketCapFor(mc, enriched[k].row.sample.product).value)))
    else Failure("toUpperCase is not a function")
  }

  /** The comparator `(a, b) => b.pct - a.pct`. */
  function ByPctDesc(a: Ranked, b: Ranked): real {
    Pct(b) - Pct(a)
  }

  lemma ByPctDescConsistent(rows: seq<Ranked>)
    ensures Consistent(ByPctDesc, rows)
  {
    forall a, b, c | a in rows && b in rows && c in rows ensures Chains(ByPctDesc, a, b, c) { }
    forall a, b | a in rows && b in rows ensures Flips(ByPctDesc, a, b) { }
  }

  /** `.sort((a, b) => b.pct - a.pct).slice(0, 30)`. */
  function Rank(rows: seq<Ranked>): (top: seq<Ranked>)
    ensures |top| == if |rows| <= TopCount then |rows| else TopCount
  {
    Take(Sort(rows, ByPctDesc), TopCount)
  }

  /** Sorting with `ByPctDesc` permutes the rows into non-increasing
      change. */
  lemma SortByPct(rows: seq<Ranked>)
    ensures multiset(Sort(rows, ByPctDesc)) == multiset(rows)
    ensures forall i, j | 0 <= i < j < |Sort(rows, ByPctDesc)| ::
      Pct(Sort(rows, ByPctDesc)[i]) >= Pct(Sort(rows, ByPctDesc)[j])
  {
    var s := Sort(rows, ByPctDesc);
    SortPermutes(rows, ByPctDesc);
    ByPctDescConsistent(rows);
    SortSorted(rows, ByPctDesc);
    forall i, j | 0 <= i < j < |s| ensures Pct(s[i]) >= Pct(s[j]) {
      assert ByPctDesc(s[i], s[j]) <= 0.0;
    }
  }

  /** The ranking keeps at most 30 of the rows, largest change first. */
  lemma RankOrdered(rows: seq<Ranked>)
    ensures multiset(Rank(rows)) <= multiset(rows)
    ensures forall i, j | 0 <= i < j < |Rank(rows)| :: Pct(Rank(rows)[i]) >= Pct(Rank(rows)[j])
  {
    var s := Sort(rows, ByPctDesc);
    SortByPct(rows);
    var top := Rank(rows);
    assert s == top + s[|top|..];
    assert multiset(s) == multiset(top) + multiset(s[|top|..]);
  }

  /** Every row the ranking leaves out has a change no larger than any row
      it keeps. */
  lemma RankCutoff(rows: seq<Ranked>)
    ensures forall x, y | x in multiset(rows) - multiset(Rank(rows)) && y in Rank(rows) :: Pct(x) <= Pct(y)
  {
    var s := Sort(rows, ByPctDesc);
    SortByPct(rows);
    var top := Rank(rows);
    assert top == s[..|top|];
    SortedCutoff(s, |top|, Pct);
  }

  /** Each input row is kept, or has a change no larger than any kept row. */
  lemma RankCovers(rows: seq<Ranked>)
    ensures forall k | 0 <= k < |rows| :: rows[k] in Rank(rows) || forall y | y in Rank(rows) :: Pct(rows[k]) <= Pct(y)
  {
    RankCutoff(rows);
    forall k | 0 <= k < |rows| && rows[k] !in Rank(rows) ensures forall y | y in Rank(rows) :: Pct(rows[k]) <= Pct(y) {
      assert rows[k] in multiset(rows);
      assert rows[k] in multiset(rows) - multiset(Rank(rows));
    }
  }

  /** A single row is ranked as it is. */
  lemma RankSingle(rows: seq<Ranked>)
    requires |rows| == 1
    ensures Rank(rows) == rows
  {
    assert rows[1..] == [];
  }

  /** In a sequence of non-increasing keys, nothing after the first `n`
      elements has a larger key than one of them. */
  lemma SortedCutoff<T>(s: seq<T>, n: nat, key: T -> real)
    requires n <= |s|
    requires forall i, j | 0 <= i < j < |s| :: key(s[i]) >= key(s[j])
    ensures forall x, y | x in multiset(s) - multiset(s[..n]) && y in s[..n] :: key(x) <= key(y)
  {
    var top, rest := s[..n], s[n..];
    assert s == top + rest;
    assert multiset(s) - multiset(top) == multiset(rest);
    forall x, y | x in multiset(s) - multiset(top) && y in top ensures key(x) <= key(y) {
      assert x in rest;
      var j :| 0 <= j < |rest| && rest[j] == x;
      var i :| 0 <= i < |top| && top[i] == y;
      assert s[i] == y && s[n + j] == x;
    }
  }

  /** Rows with the same change keep their input order: the rows kept for a
      given change are the first ones with that change in the input. */
  lemma RankStable(rows: seq<Ranked>, z: Ranked)
    ensures Filter(Rank(rows), Ties(ByPctDesc, z)) <= Filter(rows, Ties(ByPctDesc, z))
  {
    ByPctDescConsistent([z] + rows);
    SortStable(rows, ByPctDesc, z);
    var s := Sort(rows, ByPctDesc);
    FilterPrefix(Rank(rows), s, Ties(ByPctDesc, z));
  }

  /** A copy of `x` with percent change `p`. */
  function WithPct(x: Ranked, p: real): Ranked {
    x.(scored := x.scored.(row := x.scored.row.(pct := Some(p))))
  }

  /** Changes of 5, -2, 30 and 1 come out as 30, 5, 1, -2. */
  lemma RankExample(x: Ranked)
    ensures var top := Rank([WithPct(x, 5.0), WithPct(x, -2.0), WithPct(x, 30.0), WithPct(x, 1.0)]);
      |top| == 4 && Pct(top[0]) == 30.0 && Pct(top[1]) == 5.0 && Pct(top[2]) == 1.0 && Pct(top[3]) == -2.0
  {
    var a, b, c, d := WithPct(x, 5.0), WithPct(x, -2.0), WithPct(x, 30.0), WithPct(x, 1.0);
    assert Sort([d], ByPctDesc) == [d];
    assert [c, d][1..] == [d];
    assert Sort([c, d], ByPctDesc) == Insert(c, [d], ByPctDesc) == [c, d];
    assert [b, c, d][1..] == [c, d];
    assert Insert(b, [d], ByPctDesc) == [d, b];
    assert Sort([b, c, d], ByPctDesc) == Insert(b, [c, d], ByPctDesc) == [c, d, b];
    assert [a, b, c, d][1..] == [b, c, d];
    assert Insert(a, [d, b], ByPctDesc) == [a, d, b];
    assert Sort([a, b, c, d], ByPctDesc) == Insert(a, [c, d, b], ByPctDesc) == [c, a, d, b];
  }
}
