/** The coin route: for each coin, the price change against the previous
    close, the chart points of the last six months and the period returns,
    computed from one year of daily closes. */
module CoinRoute {
  import opened Wrappers
  import opened Numeric
  import opened NearestPoint
  import opened Text
  import MarketRoute

  datatype CoinChartPoint = CoinChartPoint(timestamp: int, close: real)

  datatype CoinPeriodReturn = CoinPeriodReturn(period: string, changePercent: real)

  datatype CoinData = CoinData(
    symbol: string, name: string, currentPrice: real, change: real, changePercent: real,
    chart: seq<CoinChartPoint>, periodReturns: seq<CoinPeriodReturn>)

  /** The `meta` prices of the chart response, each possibly missing. */
  datatype Meta = Meta(regularMarketPrice: Option<real>, chartPreviousClose: Option<real>, previousClose: Option<real>)

  /** A parsed daily chart; `cutoff` is the epoch second six months before now. */
  datatype CoinFeed = CoinFeed(timestamps: seq<int>, closes: seq<Option<real>>, meta: Meta)

  /** `COINS`, in order. */
  const CoinSymbols: seq<string> := ["BTC-USD", "ETH-USD"]
  const CoinLabels: seq<string> := ["Bitcoin", "Ethereum"]

  // ---------------------------------------------------------------------------
  // Price change
  // ---------------------------------------------------------------------------

  /** `regularMarketPrice ?? closes[last] ?? 0`. */
  function CurrentPrice(meta: Meta, closes: seq<Option<real>>): real
    requires closes != []
  {
    meta.regularMarketPrice.GetOr(closes[|closes| - 1].GetOr(0.0))
  }

  /** `chartPreviousClose ?? previousClose ?? 0`. */
  function PrevClose(meta: Meta): real {
    meta.chartPreviousClose.GetOr(meta.previousClose.GetOr(0.0))
  }

  /** `prevClose ? currentPrice - prevClose : 0`. */
  function Change(current: real, prev: real): real {
    if prev != 0.0 then current - prev else 0.0
  }

  /** `prevClose ? (change / prevClose) * 100 : 0`. */
  function ChangePercent(current: real, prev: real): real {
    if prev != 0.0 then Change(current, prev) / prev * 100.0 else 0.0
  }

  /** Without a previous close both figures are 0; with one, the change takes
      the previous close to the current price, and it is `changePercent`
      percent of the previous close. */
  lemma ChangeMeaning(current: real, prev: real)
    ensures prev == 0.0 ==> Change(current, prev) == 0.0 && ChangePercent(current, prev) == 0.0
    ensures prev != 0.0 ==> prev + Change(current, prev) == current
    ensures prev != 0.0 ==> prev * ChangePercent(current, prev) / 100.0 == Change(current, prev)
    ensures prev != 0.0 ==> ChangePercent(current, prev) == PercentChange(prev, current)
  {
    if prev != 0.0 {
      PercentChangeMeaning(prev, current);
      assert ChangePercent(current, prev) == PercentChange(prev, current);
    }
  }

  // ---------------------------------------------------------------------------
  // Chart points
  // ---------------------------------------------------------------------------

  /** The points the chart loop has pushed after the first `n` timestamps. */
  function ChartPrefix(ts: seq<int>, closes: seq<Option<real>>, cutoff: real, n: nat): seq<CoinChartPoint>
    requires n <= |ts|
  {
    if n == 0 then []
    else
      ChartPrefix(ts, closes, cutoff, n - 1)
      + (if ts[n - 1] as real >= cutoff && At(closes, n - 1).Some?
         then [CoinChartPoint(ts[n - 1], At(closes, n - 1).value)] else [])
  }

  function Chart(ts: seq<int>, closes: seq<Option<real>>, cutoff: real): seq<CoinChartPoint> {
    ChartPrefix(ts, closes, cutoff, |ts|)
  }

  /** Index `i` of the series is a point the chart keeps. */
  predicate Kept(ts: seq<int>, closes: seq<Option<real>>, cutoff: real, i: int) {
    0 <= i < |ts| && ts[i] as real >= cutoff && At(closes, i).Some?
  }

  /** The chart holds exactly the kept points, each with its own timestamp and close. */
  lemma {:induction false} ChartPrefixMembers(ts: seq<int>, closes: seq<Option<real>>, cutoff: real, n: nat)
    requires n <= |ts|
    ensures forall p :: p in ChartPrefix(ts, closes, cutoff, n) <==>
      exists i :: 0 <= i < n && Kept(ts, closes, cutoff, i) && p == CoinChartPoint(ts[i], At(closes, i).value)
  {
    if n > 0 {
      ChartPrefixMembers(ts, closes, cutoff, n - 1);
    }
  }

  lemma ChartMembers(ts: seq<int>, closes: seq<Option<real>>, cutoff: real)
    ensures forall p :: p in Chart(ts, closes, cutoff) <==>
      exists i :: Kept(ts, closes, cutoff, i) && p == CoinChartPoint(ts[i], At(closes, i).value)
  {
    ChartPrefixMembers(ts, closes, cutoff, |ts|);
  }

  predicate StrictlyIncreasing(ts: seq<int>) {
    forall a, b :: 0 <= a < b < |ts| ==> ts[a] < ts[b]
  }

  function Timestamps(chart: seq<CoinChartPoint>): (r: seq<int>)
    ensures |r| == |chart|
    ensures forall k :: 0 <= k < |chart| ==> r[k] == chart[k].timestamp
  {
    if chart == [] then [] else [chart[0].timestamp] + Timestamps(chart[1..])
  }

  /** On increasing timestamps no point of a prefix is later than its last timestamp. */
  lemma {:induction false} ChartPrefixBounded(ts: seq<int>, closes: seq<Option<real>>, cutoff: real, n: nat)
    requires 0 < n <= |ts| && StrictlyIncreasing(ts)
    ensures forall k :: 0 <= k < |ChartPrefix(ts, closes, cutoff, n)| ==>
      ChartPrefix(ts, closes, cutoff, n)[k].timestamp <= ts[n - 1]
  {
    var prev := ChartPrefix(ts, closes, cutoff, n - 1);
    var c := ChartPrefix(ts, closes, cutoff, n);
    assert c[..|prev|] == prev;
    if n > 1 {
      ChartPrefixBounded(ts, closes, cutoff, n - 1);
      assert ts[n - 2] < ts[n - 1];
    }
    forall k | 0 <= k < |c| ensures c[k].timestamp <= ts[n - 1] {
      if k < |prev| {
        assert c[k] == prev[k];
      }
    }
  }

  /** The chart keeps the series' order: on increasing timestamps it is increasing. */
  lemma {:induction false} ChartPrefixOrdered(ts: seq<int>, closes: seq<Option<real>>, cutoff: real, n: nat)
    requires n <= |ts| && StrictlyIncreasing(ts)
    ensures StrictlyIncreasing(Timestamps(ChartPrefix(ts, closes, cutoff, n)))
  {
    if n > 0 {
      ChartPrefixOrdered(ts, closes, cutoff, n - 1);
      var prev := ChartPrefix(ts, closes, cutoff, n - 1);
      var c := ChartPrefix(ts, closes, cutoff, n);
      var t, tp := Timestamps(c), Timestamps(prev);
      if |c| > |prev| {
        assert c == prev + [CoinChartPoint(ts[n - 1], At(closes, n - 1).value)];
        if n > 1 {
          ChartPrefixBounded(ts, closes, cutoff, n - 1);
          assert ts[n - 2] < ts[n - 1];
        }
        forall a, b | 0 <= a < b < |t| ensures t[a] < t[b] {
          assert c[a] == prev[a];
          if b < |prev| {
            assert c[b] == prev[b] && t[b] == tp[b] && t[a] == tp[a];
          }
        }
      } else {
        assert c == prev;
      }
    }
  }

  /** The whole chart is in time order. */
  lemma ChartOrdered(ts: seq<int>, closes: seq<Option<real>>, cutoff: real)
    requires StrictlyIncreasing(ts)
    ensures StrictlyIncreasing(Timestamps(Chart(ts, closes, cutoff)))
  {
    ChartPrefixOrdered(ts, closes, cutoff, |ts|);
  }

  /** The chart loop. */
  method BuildChart(timestamps: seq<int>, closes: seq<Option<real>>, cutoff: real) returns (chart: seq<CoinChartPoint>)
    ensures chart == Chart(timestamps, closes, cutoff)
  {
    chart := [];
    var i := 0;
    while i < |timestamps|
      invariant 0 <= i <= |timestamps|
      invariant chart == ChartPrefix(timestamps, closes, cutoff, i)
    {
      if timestamps[i] as real >= cutoff && At(closes, i).Some? {
        chart := chart + [CoinChartPoint(timestamps[i], At(closes, i).value)];
      }
      i := i + 1;
    }
  }

  // ---------------------------------------------------------------------------
  // Period returns
  // ---------------------------------------------------------------------------

  /** The return over `p`, kept only when the nearest close is present and positive. */
  function CoinPeriodReturnFor(ts: seq<int>, closes: seq<Option<real>>, current: real, p: MarketRoute.Period): Option<CoinPeriodReturn>
    requires ts != []
  {
    var past := At(closes, Nearest(ts, MarketRoute.TargetSec(ts[|ts| - 1], p)));
    if past.Some? && past.value > 0.0 then Some(CoinPeriodReturn(p.Key(), PercentChange(past.value, current)))
    else None
  }

  /** The slot of each period of `MarketRoute.Periods`, before the absent ones are dropped. */
  function PeriodSlots(ts: seq<int>, closes: seq<Option<real>>, current: real): (r: seq<Option<CoinPeriodReturn>>)
    requires ts != []
    ensures |r| == |MarketRoute.Periods|
    ensures forall k :: 0 <= k < |r| ==> r[k] == CoinPeriodReturnFor(ts, closes, current, MarketRoute.Periods[k])
  {
    seq(|MarketRoute.Periods|, k requires 0 <= k < |MarketRoute.Periods| =>
      CoinPeriodReturnFor(ts, closes, current, MarketRoute.Periods[k]))
  }

  function CoinPeriodReturns(ts: seq<int>, closes: seq<Option<real>>, current: real): seq<CoinPeriodReturn>
    requires ts != []
  {
    Somes(PeriodSlots(ts, closes, current))
  }

  function PeriodNames(rs: seq<CoinPeriodReturn>): (r: seq<string>)
    ensures |r| == |rs|
    ensures forall k :: 0 <= k < |rs| ==> r[k] == rs[k].period
  {
    if rs == [] then [] else [rs[0].period] + PeriodNames(rs[1..])
  }

  function Keys(ps: seq<MarketRoute.Period>): (r: seq<string>)
    ensures |r| == |ps|
    ensures forall k :: 0 <= k < |ps| ==> r[k] == ps[k].Key()
  {
    if ps == [] then [] else [ps[0].Key()] + Keys(ps[1..])
  }

  /** Present slots named after their keys give names in key order. */
  lemma {:induction false} SlotNamesInOrder(slots: seq<Option<CoinPeriodReturn>>, keys: seq<string>)
    requires |slots| == |keys|
    requires forall k :: 0 <= k < |slots| && slots[k].Some? ==> slots[k].value.period == keys[k]
    ensures IsSubsequence(PeriodNames(Somes(slots)), keys)
  {
    if slots != [] {
      SlotNamesInOrder(slots[1..], keys[1..]);
      if slots[0].Some? {
        assert PeriodNames(Somes(slots))[1..] == PeriodNames(Somes(slots[1..]));
      } else {
        SubsequenceOfTail(PeriodNames(Somes(slots[1..])), keys);
      }
    }
  }

  /** The period returns name a subsequence of 1M, 3M, 6M, 1Y, so there are at most four. */
  lemma CoinPeriodsInOrder(ts: seq<int>, closes: seq<Option<real>>, current: real)
    requires ts != []
    ensures IsSubsequence(PeriodNames(CoinPeriodReturns(ts, closes, current)), ["1M", "3M", "6M", "1Y"])
    ensures |CoinPeriodReturns(ts, closes, current)| <= 4
  {
    var slots := PeriodSlots(ts, closes, current);
    assert Keys(MarketRoute.Periods) == ["1M", "3M", "6M", "1Y"];
    SlotNamesInOrder(slots, Keys(MarketRoute.Periods));
  }

  /** The coin guard is stricter than the market guard: a period the coin route
      reports, the market route reports too, with the same change. */
  lemma CoinGuardStricter(ts: seq<int>, closes: seq<Option<real>>, current: real, p: MarketRoute.Period)
    requires ts != []
    ensures CoinPeriodReturnFor(ts, closes, current, p).Some? ==>
      && MarketRoute.MarketPeriodReturn(ts, closes, current, p).Some?
      && MarketRoute.MarketPeriodReturn(ts, closes, current, p).value.price > 0.0
      && MarketRoute.MarketPeriodReturn(ts, closes, current, p).value.changePercent
         == CoinPeriodReturnFor(ts, closes, current, p).value.changePercent
  {
  }

  /** ... and strictly so: a negative nearest close is reported only by the market route. */
  lemma CoinGuardStrictlyStricter()
    ensures MarketRoute.MarketPeriodReturn([0], [Some(-1.0)], 1.0, MarketRoute.M1).Some?
    ensures CoinPeriodReturnFor([0], [Some(-1.0)], 1.0, MarketRoute.M1).None?
  {
    NearestIsEarliestClosest([0], MarketRoute.TargetSec(0, MarketRoute.M1));
  }

  lemma SlotsStep<T>(s: seq<Option<T>>, k: nat)
    requires k < |s|
    ensures Somes(s[..k + 1]) == Somes(s[..k]) + (if s[k].Some? then [s[k].value] else [])
  {
    assert s[..k + 1] == s[..k] + [s[k]];
    SomesAppend(s[..k], [s[k]]);
  }

  /** The period loop with its nested nearest-point scan, pushing the periods whose guard holds. */
  method BuildPeriodReturns(timestamps: seq<int>, closes: seq<Option<real>>, currentPrice: real)
    returns (periodReturns: seq<CoinPeriodReturn>)
    requires timestamps != []
    ensures periodReturns == CoinPeriodReturns(timestamps, closes, currentPrice)
  {
    var nowSec := timestamps[|timestamps| - 1];
    ghost var slots := PeriodSlots(timestamps, closes, currentPrice);
    periodReturns := [];
    var k := 0;
    while k < |MarketRoute.Periods|
      invariant 0 <= k <= |MarketRoute.Periods|
      invariant periodReturns == Somes(slots[..k])
    {
      var p := MarketRoute.Periods[k];
      var targetSec := MarketRoute.TargetSec(nowSec, p);
      var bestIdx := NearestIndex(timestamps, targetSec);
      ghost var slot := CoinPeriodReturnFor(timestamps, closes, currentPrice, p);
      SlotsStep(slots, k);
      if bestIdx >= 0 && At(closes, bestIdx).Some? && At(closes, bestIdx).value > 0.0 {
        var pastPrice := At(closes, bestIdx).value;
        assert slot == Some(CoinPeriodReturn(p.Key(), PercentChange(pastPrice, currentPrice)));
        periodReturns := periodReturns + [CoinPeriodReturn(p.Key(), PercentChange(pastPrice, currentPrice))];
      } else {
        assert slot.None?;
      }
      k := k + 1;
    }
    assert slots[..k] == slots;
  }

  // ---------------------------------------------------------------------------
  // One coin and the route
  // ---------------------------------------------------------------------------

  /** What `fetchCoinData` returns for a parsed feed: nothing without points. */
  function CoinDataOf(symbol: string, name: string, feed: CoinFeed, cutoff: real): Option<CoinData> {
    if feed.timestamps == [] || feed.closes == [] then None
    else
      var current := CurrentPrice(feed.meta, feed.closes);
      var prev := PrevClose(feed.meta);
      Some(CoinData(symbol, name, current, Change(current, prev), ChangePercent(current, prev),
                    Chart(feed.timestamps, feed.closes, cutoff),
                    CoinPeriodReturns(feed.timestamps, feed.closes, current)))
  }

  /** `fetchCoinData` once the chart is parsed. */
  method FetchCoinData(symbol: string, name: string, feed: CoinFeed, cutoff: real) returns (r: Option<CoinData>)
    ensures r.None? <==> feed.timestamps == [] || feed.closes == []
    ensures r.Some? ==>
      && r.value.symbol == symbol && r.value.name == name
      && r.value.currentPrice == CurrentPrice(feed.meta, feed.closes)
      && r.value.change == Change(r.value.currentPrice, PrevClose(feed.meta))
      && r.value.changePercent == ChangePercent(r.value.currentPrice, PrevClose(feed.meta))
      && r.value.chart == Chart(feed.timestamps, feed.closes, cutoff)
      && r.value.periodReturns == CoinPeriodReturns(feed.timestamps, feed.closes, r.value.currentPrice)
    ensures r == CoinDataOf(symbol, name, feed, cutoff)
  {
    var timestamps := feed.timestamps;
    var closes := feed.closes;
    if |timestamps| == 0 || |closes| == 0 {
      return None;
    }
    var currentPrice := feed.meta.regularMarketPrice.GetOr(closes[|closes| - 1].GetOr(0.0));
    var prevClose := feed.meta.chartPreviousClose.GetOr(feed.meta.previousClose.GetOr(0.0));
    var change := if prevClose != 0.0 then currentPrice - prevClose else 0.0;
    var changePercent := if prevClose != 0.0 then change / prevClose * 100.0 else 0.0;
    var chart := BuildChart(timestamps, closes, cutoff);
    var periodReturns := BuildPeriodReturns(timestamps, closes, currentPrice);
    r := Some(CoinData(symbol, name, currentPrice, change, changePercent, chart, periodReturns));
  }

  /** The result of fetching the `k`-th coin: nothing when its request failed. */
  function CoinResult(feeds: map<string, CoinFeed>, cutoff: real, k: nat): Option<CoinData>
    requires k < |CoinSymbols|
  {
    if CoinSymbols[k] in feeds then CoinDataOf(CoinSymbols[k], CoinLabels[k], feeds[CoinSymbols[k]], cutoff) else None
  }

  /** `GET`: the coins whose fetch produced data, in `COINS` order; a coin
      missing from `feeds` is one whose request failed. */
  method Get(feeds: map<string, CoinFeed>, cutoff: real) returns (coins: seq<CoinData>)
    ensures coins == Somes([CoinResult(feeds, cutoff, 0), CoinResult(feeds, cutoff, 1)])
    ensures |coins| <= 2
    ensures forall c :: c in coins ==> c.symbol in CoinSymbols
  {
    var results: seq<Option<CoinData>> := [];
    var k := 0;
    while k < |CoinSymbols|
      invariant 0 <= k <= |CoinSymbols| && |results| == k
      invariant forall j :: 0 <= j < k ==> results[j] == CoinResult(feeds, cutoff, j)
    {
      var r: Option<CoinData> := None;
      if CoinSymbols[k] in feeds {
        r := FetchCoinData(CoinSymbols[k], CoinLabels[k], feeds[CoinSymbols[k]], cutoff);
      }
      results := results + [r];
      k := k + 1;
    }
    coins := Somes(results);
    assert results == [CoinResult(feeds, cutoff, 0), CoinResult(feeds, cutoff, 1)];
    forall c | c in coins
      ensures c.symbol in CoinSymbols
    {
      assert Some(c) in results;
    }
  }
}
