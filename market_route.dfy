/** The market route: the weekly-chart period returns and sparkline of each
    user ticker, the parsing of the `tickers` query parameter, the batched
    symbol list, and the partition of the quotes into VIX, macro and tickers. */
module MarketRoute {
  import opened Wrappers
  import opened Numeric
  import opened Types
  import opened NearestPoint
  import opened Text

  // ---------------------------------------------------------------------------
  // Period returns and sparkline of one weekly chart
  // ---------------------------------------------------------------------------

  datatype Period = M1 | M3 | M6 | Y1 {
    function Days(): int {
      match this
      case M1 => 30
      case M3 => 90
      case M6 => 180
      case Y1 => 365
    }

    function Key(): string {
      match this
      case M1 => "1M"
      case M3 => "3M"
      case M6 => "6M"
      case Y1 => "1Y"
    }
  }

  /** The `periods` table, in its declaration order. */
  const Periods: seq<Period> := [M1, M3, M6, Y1]

  const SparklineLength: nat := 26

  datatype PeriodReturn = PeriodReturn(price: real, changePercent: real)

  /** `periodReturns` holds one slot per entry of `Periods`, in that order. */
  datatype HistoricalData = HistoricalData(periodReturns: seq<Option<PeriodReturn>>, sparkline: seq<real>)

  /** The `1y`/`1wk` chart Yahoo returns for a symbol: epoch seconds and nullable closes. */
  datatype ChartSeries = ChartSeries(timestamps: seq<int>, closes: seq<Option<real>>)

  /** `targetSec`: `days` whole days before the last timestamp. */
  function TargetSec(nowSec: int, p: Period): (t: int)
    ensures t == nowSec - p.Days() * 86400
  {
    nowSec - p.Days() * SecondsPerDay
  }

  /** The return over `p` against the close nearest its target time. */
  function MarketPeriodReturn(ts: seq<int>, closes: seq<Option<real>>, current: real, p: Period): Option<PeriodReturn>
    requires ts != []
  {
    var past := At(closes, Nearest(ts, TargetSec(ts[|ts| - 1], p)));
    if past.Some? && past.value != 0.0 then Some(PeriodReturn(past.value, PercentChange(past.value, current)))
    else None
  }

  /** A period's return is absent exactly when the nearest close is missing or
      zero; otherwise it carries that close, and growing it by the change gives
      the current close. */
  lemma MarketPeriodReturnMeaning(ts: seq<int>, closes: seq<Option<real>>, current: real, p: Period)
    requires ts != []
    ensures var i := Nearest(ts, ts[|ts| - 1] - p.Days() * 86400);
      && IsNearest(ts, ts[|ts| - 1] - p.Days() * 86400, i)
      && var r := MarketPeriodReturn(ts, closes, current, p);
      && (r.None? <==> (i >= |closes| || closes[i].None? || closes[i] == Some(0.0)))
      && (r.Some? ==> r.value.price == closes[i].value
                      && r.value.price + r.value.price * r.value.changePercent / 100.0 == current)
  {
    var target := TargetSec(ts[|ts| - 1], p);
    NearestIsEarliestClosest(ts, target);
    var r := MarketPeriodReturn(ts, closes, current, p);
    if r.Some? {
      PercentChangeMeaning(r.value.price, current);
    }
  }

  /** `slice(-n)`: the last `n` elements, or all of them when there are fewer. */
  function LastN<T>(a: seq<T>, n: nat): (r: seq<T>)
    ensures |r| == if |a| <= n then |a| else n
    ensures r == a[|a| - |r|..]
  {
    if |a| <= n then a else a[|a| - n..]
  }

  /** The non-null values among the last 26 closes. */
  function Sparkline(closes: seq<Option<real>>): seq<real> {
    Somes(LastN(closes, SparklineLength))
  }

  /** The sparkline has at most 26 points; each is a close of the last 26
      weeks, and every present close of those weeks is on it. */
  lemma SparklineMeaning(closes: seq<Option<real>>)
    ensures |Sparkline(closes)| <= 26
    ensures forall k :: 0 <= k < |Sparkline(closes)| ==> Some(Sparkline(closes)[k]) in LastN(closes, 26)
    ensures forall k :: |closes| - 26 <= k < |closes| && 0 <= k && closes[k].Some? ==> closes[k].value in Sparkline(closes)
  {
    var tail := LastN(closes, SparklineLength);
    forall k | |closes| - 26 <= k < |closes| && 0 <= k && closes[k].Some?
      ensures closes[k].value in Sparkline(closes)
    {
      assert closes[k] == tail[k - (|closes| - |tail|)];
    }
  }

  /** The sparkline keeps the order of the closes. */
  lemma {:induction false} SomesKeepOrder(a: seq<Option<real>>)
    ensures IsSubsequence(Map(Somes(a)), a)
  {
    if a != [] {
      SomesKeepOrder(a[1..]);
      if a[0].Some? {
        assert Map(Somes(a))[1..] == Map(Somes(a[1..]));
      } else {
        SubsequenceOfTail(Map(Somes(a[1..])), a);
      }
    }
  }

  /** Each value wrapped back as a present close. */
  function Map(xs: seq<real>): (r: seq<Option<real>>)
    ensures |r| == |xs|
    ensures forall k :: 0 <= k < |xs| ==> r[k] == Some(xs[k])
  {
    if xs == [] then [] else [Some(xs[0])] + Map(xs[1..])
  }

  /** What one symbol's chart contributes to the results: nothing when it has no
      points or its last close is null. */
  function HistoricalOf(c: ChartSeries): Option<HistoricalData> {
    if c.timestamps == [] || c.closes == [] || c.closes[|c.closes| - 1].None? then None
    else
      var current := c.closes[|c.closes| - 1].value;
      Some(HistoricalData(
        seq(|Periods|, k requires 0 <= k < |Periods| => MarketPeriodReturn(c.timestamps, c.closes, current, Periods[k])),
        Sparkline(c.closes)))
  }

  /** The body of the per-symbol fetch once the chart is parsed: the period
      loop with its nested nearest-point scan, then the sparkline. */
  method FetchHistoricalData(timestamps: seq<int>, closes: seq<Option<real>>) returns (r: Option<HistoricalData>)
    ensures r.None? <==> (timestamps == [] || closes == [] || closes[|closes| - 1].None?)
    ensures r.Some? ==>
      && |r.value.periodReturns| == |Periods|
      && (forall k :: 0 <= k < |Periods| ==>
            r.value.periodReturns[k] == MarketPeriodReturn(timestamps, closes, closes[|closes| - 1].value, Periods[k]))
      && r.value.sparkline == Sparkline(closes)
    ensures r == HistoricalOf(ChartSeries(timestamps, closes))
  {
    if |timestamps| == 0 || |closes| == 0 {
      return None;
    }
    var currentPrice := closes[|closes| - 1];
    if currentPrice.None? {
      return None;
    }
    var nowSec := timestamps[|timestamps| - 1];
    var periodReturns: seq<Option<PeriodReturn>> := [None, None, None, None];
    var k := 0;
    while k < |Periods|
      invariant 0 <= k <= |Periods| && |periodReturns| == |Periods|
      invariant forall j :: 0 <= j < k ==>
        periodReturns[j] == MarketPeriodReturn(timestamps, closes, currentPrice.value, Periods[j])
      invariant forall j :: k <= j < |Periods| ==> periodReturns[j] == None
    {
      var targetSec := TargetSec(nowSec, Periods[k]);
      var bestIdx := NearestIndex(timestamps, targetSec);
      if bestIdx >= 0 && At(closes, bestIdx).Some? && At(closes, bestIdx).value != 0.0 {
        var pastPrice := At(closes, bestIdx).value;
        periodReturns := periodReturns[k := Some(PeriodReturn(pastPrice, PercentChange(pastPrice, currentPrice.value)))];
      }
      k := k + 1;
    }
    var sparkline := Somes(LastN(closes, SparklineLength));
    r := Some(HistoricalData(periodReturns, sparkline));
    assert periodReturns == seq(|Periods|, j requires 0 <= j < |Periods| =>
      MarketPeriodReturn(timestamps, closes, currentPrice.value, Periods[j]));
  }

  /** `results`: an entry for every requested symbol whose chart yields data. */
  function HistoricalMap(symbols: seq<string>, charts: map<string, ChartSeries>): map<string, HistoricalData> {
    map s | s in symbols && s in charts && HistoricalOf(charts[s]).Some? :: HistoricalOf(charts[s]).value
  }

  /** A symbol has an entry exactly when it was requested and its chart yields
      data, and the entry is that data. */
  lemma HistoricalMapMeaning(symbols: seq<string>, charts: map<string, ChartSeries>)
    ensures forall s :: s in HistoricalMap(symbols, charts) <==> s in symbols && s in charts && HistoricalOf(charts[s]).Some?
    ensures forall s :: s in HistoricalMap(symbols, charts) ==> HistoricalMap(symbols, charts)[s] == HistoricalOf(charts[s]).value
  {
  }

  lemma HistoricalMapStep(symbols: seq<string>, charts: map<string, ChartSeries>, i: nat)
    requires i < |symbols|
    ensures var s, m := symbols[i], HistoricalMap(symbols[..i], charts);
      HistoricalMap(symbols[..i + 1], charts)
        == if s in charts && HistoricalOf(charts[s]).Some? then m[s := HistoricalOf(charts[s]).value] else m
  {
    assert symbols[..i + 1] == symbols[..i] + [symbols[i]];
  }

  /** `fetchHistoricalData(symbols)` with the fetched charts given; a symbol
      missing from `charts` is one whose request failed. */
  method FetchAllHistorical(symbols: seq<string>, charts: map<string, ChartSeries>) returns (results: map<string, HistoricalData>)
    ensures results == HistoricalMap(symbols, charts)
  {
    results := map[];
    var i := 0;
    while i < |symbols|
      invariant 0 <= i <= |symbols|
      invariant results == HistoricalMap(symbols[..i], charts)
    {
      var symbol := symbols[i];
      HistoricalMapStep(symbols, charts, i);
      if symbol in charts {
        var c := charts[symbol];
        var h := FetchHistoricalData(c.timestamps, c.closes);
        assert c == ChartSeries(c.timestamps, c.closes);
        if h.Some? {
          results := results[symbol := h.value];
        }
      }
      i := i + 1;
    }
    assert symbols[..i] == symbols;
  }

  // ---------------------------------------------------------------------------
  // Ticker parsing and symbol batching
  // ---------------------------------------------------------------------------

  const VixSymbol: string := "^VIX"

  /** The keys of `MACRO_SYMBOLS`, in declaration order, and their labels. */
  const MacroSymbols: seq<string> := ["^TNX", "DX-Y.NYB", "GC=F", "CL=F", "BTC-USD", "ETH-USD"]
  const MacroLabels: seq<string> := ["10Y Yield", "Dollar", "Gold", "Oil", "BTC", "ETH"]

  predicate Reserved(t: string) {
    t == VixSymbol || t in MacroSymbols
  }

  /** Each piece trimmed and upper-cased. */
  function Normalize(pieces: seq<string>): (r: seq<string>)
    ensures |r| == |pieces|
    ensures forall k :: 0 <= k < |pieces| ==> r[k] == ToUpper(Trim(pieces[k]))
  {
    if pieces == [] then [] else [ToUpper(Trim(pieces[0]))] + Normalize(pieces[1..])
  }

  /** `(param || '').split(',').map(trim, toUpperCase).filter(Boolean)`. */
  function ParseTickers(param: Option<string>): seq<string> {
    RemoveAll(Normalize(Split(param.GetOr(""), ',')), "")
  }

  /** A ticker as parsing leaves it: non-empty, comma-free, free of surrounding
      white space and of lower-case ASCII letters. */
  predicate WellFormedTicker(t: string) {
    && t != ""
    && ',' !in t
    && !IsSpace(t[0]) && !IsSpace(t[|t| - 1])
    && ToUpper(t) == t
  }

  lemma NormalizedPiece(p: string)
    requires ',' !in p && ToUpper(Trim(p)) != ""
    ensures WellFormedTicker(ToUpper(Trim(p)))
  {
    TrimUpperKeepsCommaOut(p);
    ToUpperIdempotent(Trim(p));
    ToUpperSpaces(Trim(p));
  }

  /** Every parsed ticker is well formed. */
  lemma ParsedTickersWellFormed(param: Option<string>)
    ensures forall t :: t in ParseTickers(param) ==> WellFormedTicker(t)
  {
    var pieces := Split(param.GetOr(""), ',');
    var n := Normalize(pieces);
    forall t | t in ParseTickers(param)
      ensures WellFormedTicker(t)
    {
      assert t in n && t != "";
      var j :| 0 <= j < |n| && n[j] == t;
      assert ',' !in pieces[j];
      NormalizedPiece(pieces[j]);
    }
  }

  /** The parsed tickers keep the order of the pieces. */
  lemma ParseTickersOrder(param: Option<string>)
    ensures IsSubsequence(ParseTickers(param), Normalize(Split(param.GetOr(""), ',')))
  {
    RemoveAllKeepsOrder(Normalize(Split(param.GetOr(""), ',')), "");
  }

  /** An absent or empty parameter yields no tickers. */
  lemma ParseTickersEmpty()
    ensures ParseTickers(None) == [] && ParseTickers(Some("")) == []
  {
  }

  /** Every non-empty normalised piece is kept. */
  lemma ParseTickersKeepsPieces(param: Option<string>)
    ensures forall p :: p in Split(param.GetOr(""), ',') && ToUpper(Trim(p)) != "" ==> ToUpper(Trim(p)) in ParseTickers(param)
  {
    var pieces := Split(param.GetOr(""), ',');
    var n := Normalize(pieces);
    forall p | p in pieces && ToUpper(Trim(p)) != ""
      ensures ToUpper(Trim(p)) in ParseTickers(param)
    {
      var j :| 0 <= j < |pieces| && pieces[j] == p;
      assert n[j] == ToUpper(Trim(p));
    }
  }

  /** `allSymbols`: `^VIX`, the macro symbols, then the user tickers that are neither. */
  function AllSymbols(userTickers: seq<string>): (r: seq<string>)
    ensures |r| >= 7 && r[..7] == [VixSymbol] + MacroSymbols
    ensures forall k :: 7 <= k < |r| ==> !Reserved(r[k])
    ensures forall t :: t in userTickers ==> t in r
    ensures forall t :: multiset(r[7..])[t] == if Reserved(t) then 0 else multiset(userTickers)[t]
  {
    var rest := Filter(userTickers, t => !Reserved(t));
    var r := [VixSymbol] + MacroSymbols + rest;
    assert r[7..] == rest;
    FilterCounts(userTickers, t => !Reserved(t));
    forall t | t in userTickers
      ensures t in r
    {
      if !Reserved(t) {
        var k :| 0 <= k < |userTickers| && userTickers[k] == t;
        assert t in rest;
      } else if t == VixSymbol {
        assert r[0] == t;
      } else {
        var k :| 0 <= k < 6 && MacroSymbols[k] == t;
        assert r[k + 1] == t;
      }
    }
    r
  }

  /** The user tickers follow the fixed symbols in their own order. */
  lemma AllSymbolsOrder(userTickers: seq<string>)
    ensures IsSubsequence(AllSymbols(userTickers)[7..], userTickers)
  {
    var rest := Filter(userTickers, t => !Reserved(t));
    assert AllSymbols(userTickers)[7..] == rest;
    FilterKeepsOrder(userTickers, t => !Reserved(t));
  }

  // ---------------------------------------------------------------------------
  // Partition of the quotes
  // ---------------------------------------------------------------------------

  /** One normalised quote of `fetchQuotes`, its missing numbers already defaulted to 0. */
  datatype MarketQuote = MarketQuote(
    symbol: string, name: string, price: real, change: real, changePercent: real,
    prevClose: real, open: real, dayHigh: real, dayLow: real, volume: real, marketCap: real,
    marketState: string)

  /** A ticker quote with `periodReturns` and `sparkline` merged in, absent without history. */
  datatype TickerData = TickerData(quote: MarketQuote, periodReturns: Option<seq<Option<PeriodReturn>>>, sparkline: Option<seq<real>>)

  datatype MarketResponse = MarketResponse(
    fearGreed: Option<FearGreedData>, vix: Option<VixData>, macro: seq<MacroItem>, tickers: seq<TickerData>)

  /** `quotes.find((q) => q.symbol === sym)`. */
  function FindQuote(quotes: seq<MarketQuote>, sym: string): (r: Option<MarketQuote>)
    ensures r.None? <==> forall k :: 0 <= k < |quotes| ==> quotes[k].symbol != sym
    ensures r.Some? ==> exists i :: && 0 <= i < |quotes| && r.value == quotes[i] && quotes[i].symbol == sym
                                    && forall j :: 0 <= j < i ==> quotes[j].symbol != sym
  {
    if quotes == [] then None
    else if quotes[0].symbol == sym then
      assert 0 < |quotes| && quotes[0].symbol == sym;
      Some(quotes[0])
    else
      var r := FindQuote(quotes[1..], sym);
      if r.Some? then
        var i :| && 0 <= i < |quotes[1..]| && r.value == quotes[1..][i] && quotes[1..][i].symbol == sym
                 && forall j :: 0 <= j < i ==> quotes[1..][j].symbol != sym;
        assert r.value == quotes[i + 1] && forall j :: 0 <= j < i + 1 ==> quotes[j].symbol != sym;
        r
      else r
  }

  function VixOf(quotes: seq<MarketQuote>): (r: Option<VixData>)
    ensures r.Some? <==> FindQuote(quotes, VixSymbol).Some?
    ensures r.Some? ==> var q := FindQuote(quotes, VixSymbol).value; r.value == VixData(q.price, q.change, q.changePercent)
  {
    var q := FindQuote(quotes, VixSymbol);
    if q.Some? then Some(VixData(q.value.price, q.value.change, q.value.changePercent)) else None
  }

  /** The macro items for `syms`, labelled by `labels`, dropping symbols without a quote. */
  function MacroFrom(syms: seq<string>, labels: seq<string>, quotes: seq<MarketQuote>): seq<MacroItem>
    requires |syms| == |labels|
  {
    if syms == [] then []
    else
      var q := FindQuote(quotes, syms[0]);
      (if q.Some? then [MacroItem(syms[0], labels[0], q.value.price, q.value.change, q.value.changePercent)] else [])
      + MacroFrom(syms[1..], labels[1..], quotes)
  }

  function Macro(quotes: seq<MarketQuote>): seq<MacroItem> {
    MacroFrom(MacroSymbols, MacroLabels, quotes)
  }

  function Symbols(items: seq<MacroItem>): (r: seq<string>)
    ensures |r| == |items|
    ensures forall k :: 0 <= k < |items| ==> r[k] == items[k].symbol
  {
    if items == [] then [] else [items[0].symbol] + Symbols(items[1..])
  }

  /** Each item is the first quote of its symbol under that symbol's label;
      a symbol is listed iff it has a quote; the list follows `syms`. */
  lemma MacroFromMeaning(syms: seq<string>, labels: seq<string>, quotes: seq<MarketQuote>)
    requires |syms| == |labels|
    ensures var r := MacroFrom(syms, labels, quotes);
      && IsSubsequence(Symbols(r), syms)
      && (forall s :: s in syms ==> (s in Symbols(r) <==> FindQuote(quotes, s).Some?))
      && (forall m :: m in r ==>
            && (exists i :: 0 <= i < |syms| && m.symbol == syms[i] && m.name == labels[i])
            && FindQuote(quotes, m.symbol).Some?
            && var q := FindQuote(quotes, m.symbol).value;
               m.price == q.price && m.change == q.change && m.changePercent == q.changePercent)
  {
    var r := MacroFrom(syms, labels, quotes);
    MacroFromOrder(syms, labels, quotes);
    MacroFromItems(syms, labels, quotes);
    MacroFromCovers(syms, labels, quotes);
    forall s | s in syms && s in Symbols(r) ensures FindQuote(quotes, s).Some? {
      var k :| 0 <= k < |Symbols(r)| && Symbols(r)[k] == s;
      assert r[k] in r;
    }
  }

  lemma {:induction false} MacroFromOrder(syms: seq<string>, labels: seq<string>, quotes: seq<MarketQuote>)
    requires |syms| == |labels|
    ensures IsSubsequence(Symbols(MacroFrom(syms, labels, quotes)), syms)
  {
    if syms != [] {
      MacroFromOrder(syms[1..], labels[1..], quotes);
      var rest := MacroFrom(syms[1..], labels[1..], quotes);
      var r := MacroFrom(syms, labels, quotes);
      var q := FindQuote(quotes, syms[0]);
      if q.Some? {
        assert r == [MacroItem(syms[0], labels[0], q.value.price, q.value.change, q.value.changePercent)] + rest;
        assert Symbols(r)[1..] == Symbols(rest);
      } else {
        assert r == rest;
        SubsequenceOfTail(Symbols(rest), syms);
      }
    }
  }

  lemma {:induction false} MacroFromItems(syms: seq<string>, labels: seq<string>, quotes: seq<MarketQuote>)
    requires |syms| == |labels|
    ensures forall m :: m in MacroFrom(syms, labels, quotes) ==>
      && (exists i :: 0 <= i < |syms| && m.symbol == syms[i] && m.name == labels[i])
      && FindQuote(quotes, m.symbol).Some?
      && var q := FindQuote(quotes, m.symbol).value;
         m.price == q.price && m.change == q.change && m.changePercent == q.changePercent
  {
    if syms != [] {
      MacroFromItems(syms[1..], labels[1..], quotes);
      var rest := MacroFrom(syms[1..], labels[1..], quotes);
      var r := MacroFrom(syms, labels, quotes);
      var q := FindQuote(quotes, syms[0]);
      forall m | m in r
        ensures exists i :: 0 <= i < |syms| && m.symbol == syms[i] && m.name == labels[i]
      {
        if m in rest {
          var i :| 0 <= i < |syms[1..]| && m.symbol == syms[1..][i] && m.name == labels[1..][i];
          assert m.symbol == syms[i + 1] && m.name == labels[i + 1];
        } else {
          assert m.symbol == syms[0] && m.name == labels[0];
        }
      }
    }
  }

  /** Every symbol of `syms` with a quote is listed. */
  lemma {:induction false} MacroFromCovers(syms: seq<string>, labels: seq<string>, quotes: seq<MarketQuote>)
    requires |syms| == |labels|
    ensures forall s :: s in syms && FindQuote(quotes, s).Some? ==> s in Symbols(MacroFrom(syms, labels, quotes))
  {
    if syms != [] {
      MacroFromCovers(syms[1..], labels[1..], quotes);
      var rest := MacroFrom(syms[1..], labels[1..], quotes);
      var r := MacroFrom(syms, labels, quotes);
      var q := FindQuote(quotes, syms[0]);
      if q.Some? {
        assert r == [MacroItem(syms[0], labels[0], q.value.price, q.value.change, q.value.changePercent)] + rest;
        assert Symbols(r) == [syms[0]] + Symbols(rest);
      } else {
        assert r == rest;
      }
      forall s | s in syms && FindQuote(quotes, s).Some? ensures s in Symbols(r) {
        if s != syms[0] {
          assert s in syms[1..];
        }
      }
    }
  }

  /** The macro list follows `MACRO_SYMBOLS`, under its labels, without the symbols that have no quote. */
  lemma MacroMeaning(quotes: seq<MarketQuote>)
    ensures IsSubsequence(Symbols(Macro(quotes)), MacroSymbols)
    ensures forall s :: s in MacroSymbols ==> (s in Symbols(Macro(quotes)) <==> FindQuote(quotes, s).Some?)
  {
    MacroFromMeaning(MacroSymbols, MacroLabels, quotes);
  }

  function TickerQuotes(quotes: seq<MarketQuote>): seq<MarketQuote> {
    Filter(quotes, (q: MarketQuote) => !Reserved(q.symbol))
  }

  /** The ticker quotes are exactly the quotes of symbols that are neither
      `^VIX` nor a macro symbol, in their order. */
  lemma TickerQuotesMeaning(quotes: seq<MarketQuote>)
    ensures forall k :: 0 <= k < |TickerQuotes(quotes)| ==> !Reserved(TickerQuotes(quotes)[k].symbol)
    ensures forall k :: 0 <= k < |quotes| && !Reserved(quotes[k].symbol) ==> quotes[k] in TickerQuotes(quotes)
    ensures IsSubsequence(TickerQuotes(quotes), quotes)
    ensures forall q :: multiset(TickerQuotes(quotes))[q] == if Reserved(q.symbol) then 0 else multiset(quotes)[q]
  {
    FilterKeepsOrder(quotes, (q: MarketQuote) => !Reserved(q.symbol));
    FilterCounts(quotes, (q: MarketQuote) => !Reserved(q.symbol));
  }

  /** `tickersWithReturns`: each quote with its symbol's history, if any. */
  function WithHistory(tickerQuotes: seq<MarketQuote>, historical: map<string, HistoricalData>): (r: seq<TickerData>)
    ensures |r| == |tickerQuotes|
    ensures forall k :: 0 <= k < |r| ==>
      && r[k].quote == tickerQuotes[k]
      && (r[k].periodReturns.Some? <==> tickerQuotes[k].symbol in historical)
      && (r[k].sparkline.Some? <==> tickerQuotes[k].symbol in historical)
      && (tickerQuotes[k].symbol in historical ==>
            r[k].periodReturns == Some(historical[tickerQuotes[k].symbol].periodReturns)
            && r[k].sparkline == Some(historical[tickerQuotes[k].symbol].sparkline))
  {
    if tickerQuotes == [] then []
    else
      var t := tickerQuotes[0];
      var h := Lookup(historical, t.symbol);
      [TickerData(t, if h.Some? then Some(h.value.periodReturns) else None,
                     if h.Some? then Some(h.value.sparkline) else None)]
      + WithHistory(tickerQuotes[1..], historical)
  }

  /** `GET` with its I/O results given: the Fear & Greed reading, the quotes of
      the batched request, and each user ticker's chart. Returns the batched
      symbol list alongside the response. */
  method Get(tickersParam: Option<string>, fearGreed: Option<FearGreedData>, quotes: seq<MarketQuote>,
             charts: map<string, ChartSeries>) returns (allSymbols: seq<string>, resp: MarketResponse)
    ensures allSymbols == AllSymbols(ParseTickers(tickersParam))
    ensures resp.fearGreed == fearGreed && resp.vix == VixOf(quotes) && resp.macro == Macro(quotes)
    ensures resp.tickers == WithHistory(TickerQuotes(quotes), HistoricalMap(ParseTickers(tickersParam), charts))
  {
    var userTickers := ParseTickers(tickersParam);
    allSymbols := AllSymbols(userTickers);
    var historical: map<string, HistoricalData> := map[];
    if |userTickers| > 0 {
      historical := FetchAllHistorical(userTickers, charts);
    }
    resp := MarketResponse(fearGreed, VixOf(quotes), Macro(quotes), WithHistory(TickerQuotes(quotes), historical));
  }
}
