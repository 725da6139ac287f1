/** Candle series from the exchange (top20data.js): the window percent change
    of `percentChangeFromCandles` and the momentum and green-ratio signals of
    the confidence stage. A candle is `[time, low, high, open, close, volume]`. */
module Candles {
  import opened Wrappers
  import opened JsNumber
  import opened Sorting
  import opened Metrics
  import opened Seqs

  datatype Candle = Candle(time: int, low: Num, high: Num, open: Num, close: Num, volume: Num)

  /** The comparator `(a, b) => a[0] - b[0]`: earlier candles first. */
  function ByTime(a: Candle, b: Candle): real {
    (a.time - b.time) as real
  }

  lemma ByTimeConsistent(cs: seq<Candle>)
    ensures Consistent(ByTime, cs)
  {
    forall a, b, c | a in cs && b in cs && c in cs ensures Chains(ByTime, a, b, c) { }
    forall a, b | a in cs && b in cs ensures Flips(ByTime, a, b) { }
  }

  /** `candles.sort((a, b) => a[0] - b[0])`. */
  function SortByTime(cs: seq<Candle>): (r: seq<Candle>)
    ensures |r| == |cs|
  {
    Sort(cs, ByTime)
  }

  /** Sorting by time is a permutation into non-decreasing time order, so the
      first candle is an earliest one and the last a latest one. */
  lemma SortByTimeOrdered(cs: seq<Candle>)
    ensures multiset(SortByTime(cs)) == multiset(cs)
    ensures forall i, j | 0 <= i < j < |cs| :: SortByTime(cs)[i].time <= SortByTime(cs)[j].time
    ensures forall c | c in cs :: c in SortByTime(cs)
    ensures forall c | c in SortByTime(cs) :: c in cs
  {
    SortPermutes(cs, ByTime);
    ByTimeConsistent(cs);
    SortSorted(cs, ByTime);
    var r := SortByTime(cs);
    forall c | c in cs ensures c in r {
      assert c in multiset(cs);
    }
    forall c | c in r ensures c in cs {
      assert c in multiset(r);
    }
    forall i, j | 0 <= i < j < |cs| ensures r[i].time <= r[j].time {
      assert ByTime(r[i], r[j]) <= 0.0;
    }
  }

  /** The pure tail of `percentChangeFromCandles`: NaN with fewer than two
      candles, else the percent change from the earliest to the latest close. */
  function WindowPercentChange(candles: seq<Candle>): (r: Num)
  {
    var cs := SortByTime(candles);
    if |cs| < 2 then None
    else PercentChange(cs[0].close, cs[|cs| - 1].close)
  }

  /** The window change compares the close of an earliest candle with the
      close of a latest one; it is NaN for fewer than two candles and when the
      first close is not finite and positive or the last close is not finite. */
  lemma WindowPercentChangeEnds(candles: seq<Candle>)
    ensures |candles| < 2 ==> WindowPercentChange(candles) == None
    ensures |candles| >= 2 ==>
      exists first, last | first in candles && last in candles ::
        && (forall c | c in candles :: first.time <= c.time <= last.time)
        && WindowPercentChange(candles) == PercentChange(first.close, last.close)
  {
    if |candles| >= 2 {
      var cs := SortByTime(candles);
      SortedEnds(candles);
      assert WindowPercentChange(candles) == PercentChange(cs[0].close, cs[|cs| - 1].close);
    }
  }

  /** The sorted series starts with an earliest candle and ends with a latest. */
  lemma SortedEnds(candles: seq<Candle>)
    requires |candles| > 0
    ensures SortByTime(candles)[0] in candles
    ensures SortByTime(candles)[|candles| - 1] in candles
    ensures forall c | c in candles ::
      SortByTime(candles)[0].time <= c.time <= SortByTime(candles)[|candles| - 1].time
  {
    SortByTimeOrdered(candles);
    var cs := SortByTime(candles);
    assert cs[0] in cs && cs[|cs| - 1] in cs;
    forall c | c in candles ensures cs[0].time <= c.time <= cs[|cs| - 1].time {
      assert c in cs;
      var k :| 0 <= k < |cs| && cs[k] == c;
      if 0 < k { assert cs[0].time <= cs[k].time; }
      if k < |cs| - 1 { assert cs[k].time <= cs[|cs| - 1].time; }
    }
  }

  /** Closes 100 then 110 give +10%, whatever order the exchange lists them in. */
  lemma WindowPercentChangeExample(t0: int, t1: int, other: Num)
    requires t0 < t1
    ensures WindowPercentChange([Candle(t1, other, other, other, Some(110.0), other),
                                 Candle(t0, other, other, other, Some(100.0), other)]) == Some(10.0)
  {
    var a := Candle(t1, other, other, other, Some(110.0), other);
    var b := Candle(t0, other, other, other, Some(100.0), other);
    assert Sort([b], ByTime) == [b];
    assert [a, b][1..] == [b];
    assert Sort([a, b], ByTime) == Insert(a, [b], ByTime) == [b, a];
  }

  /** `mom60`: the change from the first open to the last close, times 5,
      confined to [-1, 1]; zero with fewer than two candles or when the open
      is not finite and positive or the close is not finite. `cs` is sorted
      by time. */
  function Momentum(cs: seq<Candle>): (r: real)
    ensures -1.0 <= r <= 1.0
    ensures r != 0.0 ==>
      |cs| >= 2 && IsFinite(cs[0].open) && cs[0].open.value > 0.0 && IsFinite(cs[|cs| - 1].close)
    ensures |cs| >= 2 ==>
      (r > 0.0 <==> (PercentChange(cs[0].open, cs[|cs| - 1].close).Some?
                     && cs[|cs| - 1].close.value > cs[0].open.value))
  {
    if |cs| < 2 then 0.0
    else
      var p0, p1 := cs[0].open, cs[|cs| - 1].close;
      if IsFinite(p0) && p0.value > 0.0 && IsFinite(p1) then
        var change := ((p1.value - p0.value) / p0.value) * 5.0;
        assert change > 0.0 <==> p1.value > p0.value by {
          assert (p1.value - p0.value) / p0.value > 0.0 <==> p1.value - p0.value > 0.0;
        }
        Clamp(-1.0, 1.0, change)
      else 0.0
  }

  /** A green candle closes above its open; a NaN on either side is not green. */
  predicate IsGreen(c: Candle) {
    IsFinite(c.close) && IsFinite(c.open) && c.close.value > c.open.value
  }

  /** `cs.filter((c) => +c[4] > +c[3]).length`. */
  function CountGreen(cs: seq<Candle>): (n: nat)
    ensures n == |Filter(cs, IsGreen)|
    ensures n <= |cs|
    ensures n == |cs| <==> forall c | c in cs :: IsGreen(c)
    ensures n == 0 <==> forall c | c in cs :: !IsGreen(c)
    decreases |cs|
  {
    if |cs| == 0 then 0
    else
      assert forall c | c in cs :: c == cs[0] || c in cs[1..];
      (if IsGreen(cs[0]) then 1 else 0) + CountGreen(cs[1..])
  }

  /** `trendGreen`: the share of green candles; zero with fewer than two. */
  function TrendGreen(cs: seq<Candle>): (r: real)
    ensures 0.0 <= r <= 1.0
    ensures |cs| >= 2 ==> (r == 1.0 <==> forall c | c in cs :: IsGreen(c))
    ensures r == 0.0 <==> |cs| < 2 || forall c | c in cs :: !IsGreen(c)
  {
    if |cs| < 2 then 0.0
    else
      var g, n := CountGreen(cs) as real, |cs| as real;
      RatioBounds(g, n);
      g / n
  }

  /** With two candles or more, `trendGreen` is the green share
      `greens / cs.length`. */
  lemma TrendGreenFraction(cs: seq<Candle>)
    requires |cs| >= 2
    ensures TrendGreen(cs) == CountGreen(cs) as real / |cs| as real
  {
  }

  lemma {:induction false} CountGreenInsert(x: Candle, s: seq<Candle>)
    ensures CountGreen(Insert(x, s, ByTime)) == CountGreen([x] + s)
    decreases |s|
  {
    if |s| > 0 && ByTime(x, s[0]) > 0.0 {
      CountGreenInsert(x, s[1..]);
      InsertAfterHead(x, s, ByTime);
      var t := Insert(x, s[1..], ByTime);
      assert ([s[0]] + t)[1..] == t;
      assert ([x] + s)[1..] == s;
      assert ([x] + s[1..])[1..] == s[1..];
      assert s == [s[0]] + s[1..];
    }
  }

  /** The green count, hence `trendGreen`, does not depend on the order in
      which the exchange lists the candles. */
  lemma {:induction false} CountGreenSortInvariant(cs: seq<Candle>)
    ensures CountGreen(SortByTime(cs)) == CountGreen(cs)
    decreases |cs|
  {
    if |cs| > 0 {
      CountGreenSortInvariant(cs[1..]);
      var t := Sort(cs[1..], ByTime);
      CountGreenInsert(cs[0], t);
      assert ([cs[0]] + t)[1..] == t;
    }
  }
}
