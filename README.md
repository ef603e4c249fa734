# market-pulse core, modelled in Dafny

market-pulse is a Next.js dashboard for market sentiment: the Fear & Greed index, VIX, macro indicators, a watchlist of
tickers, a crypto tab and a calendar heatmap of a daily "market temperature". This project models the deterministic logic
underneath those views and proves what it promises:

- **The composite scorer** (`HistoryStore`). Four optional signals are each clamped, rescaled to 0..100 and
  rounded. They are weighted 40/30/15/15 and renormalised over the signals that are present, then the result is rounded
  and clamped. The history store's scorer is the reference. The history route's own copy (`HistoryRoute.ComputeComposite`)
  is written as the route writes it: conditional pushes and left-to-right `reduce`s. The thermometer's version
  (`MarketThermometer.ComputeScore`) is written with its labelled entries. Both are proved to compute the store's result.
- **The daily snapshot store**: a class around a `map<string, DayScore>`. A live write always overwrites its date. A
  backfill only fills a missing date.
- **The history route**: the day-over-day change series, the per-date lookup maps, the open/closed decision and the loop
  that emits one `DayScore` per calendar date up to today.
- **The market route**: the nearest-point period returns and the sparkline of each ticker's weekly chart, the parsing of
  the `tickers` parameter, the batched symbol list, and the partition of the quotes into VIX, macro items and tickers.
- **The coin route**: the change against the previous close, the six-month chart filter and the period returns. Its
  guard is stricter (`> 0`) than the market route's (`!== 0`).
- **Utilities**: the sentiment and VIX classifiers, and the average-cost position of a trade list replayed in
  (date, id) order.
- **The calendar heatmap**: grouping days into months in order of first appearance, padding each month to the
  weekday of its first day, the 7-band level scale, month navigation and the day-click guard.
- **The watchlist table**: the rank sort by the saved order, drag-reorder and swipe-to-pin splices, the swipe axis-lock
  state machine and the cost-basis editor, as a class holding the component's state.
- **The watchlist editor**: the input sanitiser, and adding and removing tickers without duplicates.

Prices and scores are `real`. JavaScript's `Math.round(x)` is `Floor(x + 0.5)`, and `null`/`undefined` become
`Option.None`. Network results, the clock, "today", the six-month chart cutoff and `parseFloat` are parameters. The
calendar's weekday and month length come from a Gregorian formula: Sakamoto's method and the leap-year rule.

The history route gives a closed day its looked-up Fear & Greed, TNX and DXY values; only its composite is forced to 50
(`HistoryRoute.DayForMeaning`). The snapshot store's `getSnapshots` returns the whole map
(`HistoryStore.SnapshotStore.GetSnapshots`).

## Model

| member | source | states |
|---|---|---|
| Wrappers.Lookup | src/app/api/history/route.ts:161-164 | `map.get(k) ?? null` is present exactly for keys of the map, with the mapped value |
| Wrappers.At | src/app/api/market/route.ts:193 | reading a nullable array is present exactly at an index in range holding a value |
| Wrappers.Somes | src/app/api/market/route.ts:203-205 | filtering out nulls keeps only values of the input and every present value of it |
| Numeric.Clamp | src/lib/historyStore.ts:27-29 | `Math.max(min, Math.min(max, v))` lies in [min, max], is `v` inside it and the nearer bound outside it |
| Numeric.Round | src/lib/historyStore.ts:39 | `Math.round` gives the integer within half a unit, halves going up |
| Numeric.RoundTo | src/lib/historyStore.ts:67-69 | the result times the scale is `Math.round(x * scale)`, so it lies on the 1/scale grid and is within half a place of `x` |
| Numeric.RoundInRange | src/lib/historyStore.ts:38-39 | rounding a value between two integers stays between them |
| Numeric.PercentChangeMeaning | src/app/api/history/route.ts:73 | growing `prev` by the computed percentage gives back `c` |
| Numeric.Abs | src/components/TickerTable.tsx:230 | `Math.abs` is non-negative and is `x` or `-x` |
| Numeric.AbsInt | src/app/api/market/route.ts:187 | the distance of two integer timestamps is a natural number equal to their difference up to sign |
| HistoryStore.FgScore | src/lib/historyStore.ts:34-36 | the Fear & Greed sub-score is in 0..100 and equals the raw score inside that range |
| HistoryStore.VixScore | src/lib/historyStore.ts:37-40 | the VIX sub-score is in 0..100, 100 at or below VIX 10 and 0 at or above VIX 40 |
| HistoryStore.TnxScore | src/lib/historyStore.ts:41-44 | the TNX sub-score is in 0..100, 50 at no change, 0 at +3% or more, 100 at -3% or less |
| HistoryStore.DxyScore | src/lib/historyStore.ts:45-48 | the DXY sub-score is in 0..100, 50 at no change, 0 at +2% or more, 100 at -2% or less |
| HistoryStore.VixScoreAntitone | src/lib/historyStore.ts:37-40 | a higher VIX never gives a higher sub-score |
| HistoryStore.Entries | src/lib/historyStore.ts:32-48 | one entry per present signal, each with positive weight and a score in 0..100 |
| HistoryStore.TotalWeightPositive | src/lib/historyStore.ts:52 | the total weight of a non-empty entry list is positive, so the division is defined |
| HistoryStore.WeightedSumIsDot | src/lib/historyStore.ts:52-55 | summing `score * weight / total` term by term is the weighted sum divided by the total |
| HistoryStore.WeightedAverageBounds | src/lib/historyStore.ts:52-55 | the renormalised weighted average lies between the smallest and largest possible sub-score |
| HistoryStore.ClampInt | src/lib/historyStore.ts:56 | the final clamp lies in [0, 100] and keeps a value already inside |
| HistoryStore.Combine | src/lib/historyStore.ts:50-56 | no entries give exactly 50; any entries give a value in 0..100 |
| HistoryStore.ComputeComposite | src/lib/historyStore.ts:31-57 | the composite is always in 0..100, and exactly 50 when all four signals are null |
| HistoryStore.FinalClampRedundant | src/lib/historyStore.ts:53-56 | the rounded average already lies between the extreme sub-scores, so the final clamp never changes it |
| HistoryStore.SingleSignal | src/lib/historyStore.ts:50-56 | with exactly one signal present the composite is that signal's rounded sub-score |
| HistoryStore.VixAloneEndpoints | src/lib/historyStore.ts:37-56 | VIX alone at or below 10 scores 100, and at or above 40 scores 0 |
| HistoryStore.LiveDay | src/lib/historyStore.ts:60-71 | the recorded day is open, keeps `fg`, has the composite of the snapshot, VIX rounded to 1 decimal (`Math.round(vix * 10) / 10`) and TNX/DXY to 2 decimals, nulls kept null |
| HistoryStore.Record | src/lib/historyStore.ts:60-72 | a live write sets today's entry whether or not it existed and touches no other date |
| HistoryStore.Backfill | src/lib/historyStore.ts:80-84 | a backfill leaves a known date as it is, adds a missing one, and touches no other date |
| HistoryStore.RecordThenBackfill | src/lib/historyStore.ts:60-84 | a backfill after a live write of the same date leaves the live entry |
| HistoryStore.BackfillThenRecord | src/lib/historyStore.ts:60-84 | a live write after a backfill of the same date replaces the backfilled entry |
| HistoryStore.BackfillIdempotent | src/lib/historyStore.ts:80-84 | backfilling a date twice keeps the first value |
| HistoryStore.SnapshotStore.constructor | src/lib/historyStore.ts:14 | the store starts empty |
| HistoryStore.SnapshotStore.RecordSnapshot | src/lib/historyStore.ts:60-72 | the new store is the old one with today's live entry written: the snapshot's composite, VIX to 1 decimal, TNX/DXY to 2 |
| HistoryStore.SnapshotStore.GetSnapshots | src/lib/historyStore.ts:75-77 | returns the whole store |
| HistoryStore.SnapshotStore.BackfillIfMissing | src/lib/historyStore.ts:80-84 | the new store is the old one backfilled at that date |
| HistoryStore.RecordedEntrySurvivesBackfill | src/lib/historyStore.ts:60-84 | after a live write and then a backfill of the same date, the store holds the live entry |
| HistoryRoute.ComputeChangePercents | src/app/api/history/route.ts:68-75 | same length; index 0 null; index i null exactly when the previous close is 0, else the percent change from it |
| HistoryRoute.ComputeComposite | src/app/api/history/route.ts:77-108 | the route's own pushes, `reduce`s, rounding and clamp give a value in 0..100 equal to the history store's scorer on the same four signals |
| HistoryRoute.ReduceWeightIsTotal | src/app/api/history/route.ts:103 | the left-to-right `reduce` of the weights is the total weight |
| HistoryRoute.ReduceWeightedIsSum | src/app/api/history/route.ts:104-106 | the left-to-right `reduce` of the weighted scores is the store's weighted sum |
| HistoryRoute.RouteEntriesAreStoreEntries | src/app/api/history/route.ts:83-98 | the route's four conditional pushes give the store's entries |
| HistoryRoute.AssocKeys | src/app/api/history/route.ts:133-136 | a date is a key of a built lookup map exactly when some position carries it with a value |
| HistoryRoute.AssocLast | src/app/api/history/route.ts:133-136 | the value under a date is that of the last position carrying it |
| HistoryRoute.BuildMap | src/app/api/history/route.ts:127-142 | the `map.set` loop builds the lookup map of its keys and present values |
| HistoryRoute.CloseMapKeys | src/app/api/history/route.ts:127-130 | the VIX lookup map has a close for exactly the VIX dates |
| HistoryRoute.ChangeMapKeys | src/app/api/history/route.ts:132-142 | a date has a TNX/DXY change exactly when it follows a non-zero close, so the first date of a series has none |
| HistoryRoute.ChangeMapValue | src/app/api/history/route.ts:132-136 | a date's change is the percent change from the close before its last point |
| HistoryRoute.RoundTo2 | src/app/api/history/route.ts:175-176 | a stored change is present exactly when looked up, and is `Math.round(x * 100) / 100` |
| HistoryRoute.DayForMeaning | src/app/api/history/route.ts:158-177 | a day is open iff its date is a VIX date; carries the looked-up signals with changes rounded; scores 50 when closed and the store's composite when open |
| HistoryRoute.EmittedCount | src/app/api/history/route.ts:157-182 | the loop emits the dates up to and including today, or the whole window when today is not in it |
| HistoryRoute.AssembleDays | src/app/api/history/route.ts:157-182 | the day-assembly loop emits one day per successive date, in order, stopping after today |
| HistoryRoute.AssembleHistory | src/app/api/history/route.ts:126-182 | the whole `GET` assembly: each emitted day is built from the lookup maps, and the last one is today |
| HistoryRoute.OpenIffVixClose | src/app/api/history/route.ts:145-168 | a day is open iff VIX has a close that date, iff it carries a VIX value; a closed day scores 50 |
| MarketThermometer.FindIndex | src/components/MarketThermometer.tsx:57 | the index of the first item with the symbol, or -1 when there is none |
| MarketThermometer.Find | src/components/MarketThermometer.tsx:57 | `macro.find` gives the first item with the symbol, or nothing when none carries it |
| MarketThermometer.SubScores | src/components/MarketThermometer.tsx:80 | one breakdown row per entry, with its label, key and score |
| MarketThermometer.SameEntries | src/components/MarketThermometer.tsx:45-69 | the thermometer's entries without their labels are the history store's entries of the same signals |
| MarketThermometer.ComputeScore | src/components/MarketThermometer.tsx:40-82 | a present result's composite is in 0..100 |
| MarketThermometer.NullIffNoSignal | src/components/MarketThermometer.tsx:71 | the result is null exactly when there is no F&G, no VIX and no TNX or DXY item |
| MarketThermometer.AgreesWithHistoryStore | src/components/MarketThermometer.tsx:40-82 | a present composite equals the history store's composite of F&G score, VIX value and the first TNX/DXY change percents |
| MarketThermometer.SubScoresInOrder | src/components/MarketThermometer.tsx:45-80 | the breakdown has one row per present signal, scores in 0..100, labels in the order F&G, VIX, TNX, DXY |
| MarketThermometer.ScoreSub | src/components/MarketThermometer.tsx:80 | a result's breakdown is the rows of its weighted entries |
| MarketThermometer.EntriesInOrder | src/components/MarketThermometer.tsx:45-69 | the entries count the present signals, score in 0..100, and follow the fixed label order |
| MarketThermometer.EntryNames | src/components/MarketThermometer.tsx:45-69 | the entries' labels are a subsequence of F&G, VIX, TNX, DXY |
| MarketThermometer.GetLevel | src/components/MarketThermometer.tsx:29-34 | the first band whose bound reaches the score, the last band above 100 |
| Bands.Scan | src/components/MarketThermometer.tsx:29-34 | the `for ... of LEVELS` scan stops at the first band whose bound reaches the score, else the last band |
| Bands.FirstBandMonotone | src/components/MarketThermometer.tsx:29-34 | a higher score never lands in a lower band |
| Bands.LevelBands | src/components/MarketThermometer.tsx:19-34 | the band of each score range of the 15/30/45/55/70/85/100 scale |
| NearestPoint.BestOfPrefixIsNearest | src/app/api/market/route.ts:184-192 | after each prefix the scan holds the earliest index at the smallest distance |
| NearestPoint.NearestIsEarliestClosest | src/app/api/market/route.ts:184-192 | the chosen index minimises the distance to the target, and the strict `<` keeps the earliest of a tie |
| NearestPoint.NearestUnique | src/app/api/market/route.ts:184-192 | only one index is the earliest closest |
| NearestPoint.NearestIndex | src/app/api/coin/route.ts:80-88 | the nested scan returns -1 on no points and otherwise the earliest closest index |
| MarketRoute.TargetSec | src/app/api/market/route.ts:183 | the target is the last timestamp minus the period's days times 86400 |
| MarketRoute.MarketPeriodReturnMeaning | src/app/api/market/route.ts:176-199 | a period return is null exactly when the nearest close is missing or 0; otherwise it is that close, and the change takes it to the current close |
| MarketRoute.LastN | src/app/api/market/route.ts:204 | `slice(-26)` is the last 26 elements, or all of them when there are fewer |
| MarketRoute.SparklineMeaning | src/app/api/market/route.ts:203-205 | at most 26 points; each is a close of the last 26 weeks, and every present one is kept |
| MarketRoute.SomesKeepOrder | src/app/api/market/route.ts:203-205 | the sparkline keeps the input order of the closes |
| MarketRoute.FetchHistoricalData | src/app/api/market/route.ts:172-207 | no data without points or with a null last close; otherwise each period's return against the nearest close, and the sparkline |
| MarketRoute.HistoricalMapMeaning | src/app/api/market/route.ts:155-214 | a symbol has historical data exactly when it was requested and its chart yields data, and the data is that chart's |
| MarketRoute.FetchAllHistorical | src/app/api/market/route.ts:147-215 | the results are the historical map of the requested symbols |
| MarketRoute.Normalize | src/app/api/market/route.ts:222 | each piece trimmed and upper-cased |
| MarketRoute.ParsedTickersWellFormed | src/app/api/market/route.ts:219-223 | every parsed ticker is non-empty, comma-free, trimmed and upper case |
| MarketRoute.ParseTickersOrder | src/app/api/market/route.ts:219-223 | parsed tickers keep the order of the pieces |
| MarketRoute.ParseTickersEmpty | src/app/api/market/route.ts:219 | a missing or empty parameter yields no tickers |
| MarketRoute.ParseTickersKeepsPieces | src/app/api/market/route.ts:220-223 | every piece that is non-empty once normalised is among the tickers |
| MarketRoute.AllSymbols | src/app/api/market/route.ts:226-232 | `^VIX`, then the six macro symbols in order, then each non-reserved user ticker as often as it was given and no reserved one |
| MarketRoute.AllSymbolsOrder | src/app/api/market/route.ts:228-232 | the user tickers after the fixed symbols keep their input order |
| MarketRoute.FindQuote | src/app/api/market/route.ts:241 | `quotes.find` is the first quote with the symbol, or nothing when none has it |
| MarketRoute.VixOf | src/app/api/market/route.ts:273-279 | the VIX reading is present exactly when a `^VIX` quote is, with its price and changes |
| MarketRoute.MacroFromMeaning | src/app/api/market/route.ts:243-255 | the items follow the symbol list; a symbol is listed iff it has a quote; each item is its first quote under its label |
| MarketRoute.MacroFromOrder | src/app/api/market/route.ts:243-255 | the macro items follow the order of the symbol list |
| MarketRoute.MacroFromItems | src/app/api/market/route.ts:244-253 | each macro item carries a listed symbol, its label and the price and changes of its first quote |
| MarketRoute.MacroFromCovers | src/app/api/market/route.ts:243-255 | every listed symbol with a quote has an item |
| MarketRoute.MacroMeaning | src/app/api/market/route.ts:243-255 | the macro list follows `MACRO_SYMBOLS` and drops exactly the symbols without a quote |
| MarketRoute.TickerQuotesMeaning | src/app/api/market/route.ts:257-259 | ticker quotes are the quotes that are neither `^VIX` nor macro, each as often as in the input, in order |
| MarketRoute.WithHistory | src/app/api/market/route.ts:262-269 | each ticker keeps its quote and gets its symbol's period returns and sparkline, or none without history |
| MarketRoute.Get | src/app/api/market/route.ts:217-284 | the batched symbols, VIX, macro and ticker list of the response, from the parsed parameter and the fetched data |
| Text.Trim | src/app/api/market/route.ts:222 | `trim` leaves no white space at either end |
| Text.TrimIsSlice | src/app/api/market/route.ts:222 | `trim` keeps a contiguous slice and cuts only white space |
| Text.ToUpper | src/app/api/market/route.ts:222 | `toUpperCase` maps each ASCII lower-case letter to upper case and keeps the rest |
| Text.ToUpperIdempotent | src/app/api/market/route.ts:222 | upper-casing twice is upper-casing once |
| Text.Split | src/app/api/market/route.ts:221 | `split(',')` gives at least one piece and no piece holds a comma |
| Text.JoinSplit | src/app/api/market/route.ts:221 | joining the pieces with the separator gives back the string |
| Text.SplitCount | src/app/api/market/route.ts:221 | there is one piece more than there are separators |
| Text.IndexOf | src/components/TickerTable.tsx:141 | `indexOf` is the first index holding the value, or -1 when it is absent |
| Text.RemoveAll | src/components/TickerEditor.tsx:48 | `filter(t => t !== x)` drops every copy of `x` and keeps everything else |
| Text.RemoveAllKeepsOrder | src/app/api/market/route.ts:223 | dropping empty pieces keeps the order of the rest |
| Text.Filter | src/app/api/market/route.ts:231 | `filter` keeps only elements satisfying the predicate, and keeps every one of them |
| Text.FilterCounts | src/app/api/market/route.ts:231 | `filter` keeps each satisfying element as often as it occurs and drops the rest |
| Text.FilterKeepsOrder | src/app/api/market/route.ts:231 | `filter` keeps the order of the elements |
| CoinRoute.ChangeMeaning | src/app/api/coin/route.ts:53-56 | both figures are 0 without a previous close; otherwise the change takes the previous close to the current price and is `changePercent` % of it |
| CoinRoute.ChartPrefixMembers | src/app/api/coin/route.ts:59-65 | the points pushed so far are exactly the scanned points at or after the cutoff with a close |
| CoinRoute.ChartMembers | src/app/api/coin/route.ts:59-65 | the chart is exactly the points at or after the cutoff with a non-null close |
| CoinRoute.ChartPrefixOrdered | src/app/api/coin/route.ts:59-65 | the chart points pushed so far are in increasing time order when the timestamps are |
| CoinRoute.ChartOrdered | src/app/api/coin/route.ts:59-65 | the chart keeps the timestamps' increasing order |
| CoinRoute.BuildChart | src/app/api/coin/route.ts:59-65 | the chart loop produces that chart |
| CoinRoute.PeriodSlots | src/app/api/coin/route.ts:75-96 | one slot per period, the period's guarded return |
| CoinRoute.SlotNamesInOrder | src/app/api/coin/route.ts:76-96 | the periods pushed follow the period table's order |
| CoinRoute.CoinPeriodsInOrder | src/app/api/coin/route.ts:68-96 | the period returns name a subsequence of 1M, 3M, 6M, 1Y, so there are at most four |
| CoinRoute.CoinGuardStricter | src/app/api/coin/route.ts:89 | a period the coin route reports, the market route reports too, with the same change |
| CoinRoute.CoinGuardStrictlyStricter | src/app/api/coin/route.ts:89 | a negative nearest close is reported by the market route and not by the coin route |
| CoinRoute.BuildPeriodReturns | src/app/api/coin/route.ts:75-96 | the period loop pushes exactly the periods whose nearest close is present and positive, in order |
| CoinRoute.FetchCoinData | src/app/api/coin/route.ts:47-98 | null exactly without timestamps or closes; otherwise the current price, change, chart and period returns |
| CoinRoute.Get | src/app/api/coin/route.ts:105-113 | the coins whose fetch produced data, in `COINS` order, at most two |
| Utils.GetSentimentLevel | src/lib/utils.ts:3-9 | the level counts how many of the inclusive bounds 20, 40, 60, 80 the score exceeds |
| Utils.SentimentMonotone | src/lib/utils.ts:3-9 | a higher score never gives a more fearful level |
| Utils.GetVixLevel | src/lib/utils.ts:44-49 | the level counts how many of the strict bounds 12, 20, 30 the value reaches |
| Utils.VixLevelMonotone | src/lib/utils.ts:44-49 | a higher VIX never gives a calmer level |
| Utils.StrLessIrreflexive | src/lib/utils.ts:170 | no string sorts before itself |
| Utils.StrLessTransitive | src/lib/utils.ts:170 | the string order is transitive |
| Utils.StrLessTotal | src/lib/utils.ts:170 | of two different strings one sorts first |
| Utils.BeforeIrreflexive | src/lib/utils.ts:170 | no trade is due before itself |
| Utils.BeforeTransitive | src/lib/utils.ts:170 | the (date, id) order is transitive |
| Utils.BeforeTotal | src/lib/utils.ts:170 | of two trades one is due first unless both date and id agree |
| Utils.Insert | src/lib/utils.ts:170 | inserting one trade adds exactly that trade |
| Utils.InsertSorted | src/lib/utils.ts:170 | inserting into a sorted list keeps it sorted |
| Utils.SortTrades | src/lib/utils.ts:170 | sorting is a permutation of the trades |
| Utils.SortTradesSorted | src/lib/utils.ts:170 | the sorted trades are in ascending (date, id) order |
| Utils.SortedUnique | src/lib/utils.ts:170 | two sorted lists of the same trades with unique keys are equal |
| Utils.CalcPosition | src/lib/utils.ts:159-188 | the replay loop gives the position of the sorted trades; `avgCost` is cost over quantity, or 0 with nothing held |
| Utils.PositionOrderIndependent | src/lib/utils.ts:170 | for distinct (date, id) keys the position does not depend on the input order |
| Utils.ReplayQtyNonNegative | src/lib/utils.ts:172-184 | the held quantity stays non-negative at every step of the replay |
| Utils.PositionQtyNonNegative | src/lib/utils.ts:179-182 | the final held quantity is never negative, because a sell removes at most what is held |
| Utils.SellKeepsAverage | src/lib/utils.ts:178-182 | a partial sell leaves the average cost unchanged |
| Utils.SellAllClears | src/lib/utils.ts:178-182 | selling at least the holding clears quantity and cost and books the profit on the whole holding |
| Utils.ReplayBuys | src/lib/utils.ts:173-176 | replaying buys only sums quantities and costs, with no realised profit |
| Utils.BuysOnlyPosition | src/lib/utils.ts:173-187 | with buys only, the quantity and invested amount are the sums and realised profit is 0 |
| HeatmapCalendar.GetLevel | src/components/HeatmapCalendar.tsx:17-22 | the first band whose bound reaches the score, the last band above 100 |
| HeatmapCalendar.KeyOfDate | src/components/HeatmapCalendar.tsx:37 | `slice(0, 7)` is the first seven characters, or the whole string when shorter |
| HeatmapCalendar.MonthOf | src/components/HeatmapCalendar.tsx:44 | the parsed month of a valid key is 1..12 |
| HeatmapCalendar.DateStrKey | src/components/HeatmapCalendar.tsx:53 | each date string built for a month's day has that month's key |
| HeatmapCalendar.DaysInMonth | src/components/HeatmapCalendar.tsx:51 | a month has 28 to 31 days, 29 exactly for February of a leap year |
| HeatmapCalendar.Weekday | src/components/HeatmapCalendar.tsx:46-47 | the weekday is in 0..6 |
| HeatmapCalendar.NextMonthWeekday | src/components/HeatmapCalendar.tsx:46-51 | a month starts the weekday after the previous month's last day |
| HeatmapCalendar.WeekdayAnchors | src/components/HeatmapCalendar.tsx:46-47 | 1 January 2000 is a Saturday and 1 March 2024 a Friday |
| HeatmapCalendar.MonthKeysCover | src/components/HeatmapCalendar.tsx:36-40 | every day's month key is a key of the map |
| HeatmapCalendar.MonthKeysFromDays | src/components/HeatmapCalendar.tsx:36-40 | every key of the map is the month of some day |
| HeatmapCalendar.LastDated | src/components/HeatmapCalendar.tsx:50 | the day found for a date has that date, nothing is found when none has it |
| HeatmapCalendar.LastDatedIsLast | src/components/HeatmapCalendar.tsx:50 | among duplicates the last day of a date wins |
| HeatmapCalendar.FillMonth | src/components/HeatmapCalendar.tsx:46-55 | the padding loop builds the month's cells |
| HeatmapCalendar.Bucket | src/components/HeatmapCalendar.tsx:35-40 | the `map` loop lists the distinct keys in first-appearance order, each with its month's days in order |
| HeatmapCalendar.MonthGroupOf | src/components/HeatmapCalendar.tsx:44-57 | one group: the key's year, month and padded cells |
| HeatmapCalendar.GroupAll | src/components/HeatmapCalendar.tsx:42-58 | one group per key, in key order |
| HeatmapCalendar.GroupByMonthLoop | src/components/HeatmapCalendar.tsx:34-61 | `groupByMonth` produces the grouping of the days |
| HeatmapCalendar.MonthKeysDistinct | src/components/HeatmapCalendar.tsx:35-43 | no month key is listed twice |
| HeatmapCalendar.MonthKeysFirstAppearance | src/components/HeatmapCalendar.tsx:35-43 | keys are listed in order of first appearance |
| HeatmapCalendar.GroupKeys | src/components/HeatmapCalendar.tsx:34-61 | one group per distinct month key, in order, and every day's month has a group |
| HeatmapCalendar.DayMapIsLastDated | src/components/HeatmapCalendar.tsx:50 | the date map holds the last day of each date |
| HeatmapCalendar.LastDatedInMonth | src/components/HeatmapCalendar.tsx:35-55 | looking a date up among its month's days finds the same day as among all days |
| HeatmapCalendar.CellsMeaning | src/components/HeatmapCalendar.tsx:46-55 | `leadingPad + daysInMonth` cells, the first `leadingPad` empty, then each day's last dated entry |
| HeatmapCalendar.GroupCells | src/components/HeatmapCalendar.tsx:46-55 | the padding is 0..6; cell `leadingPad + d - 1` is the last input day dated `y-mm-dd`, or empty |
| HeatmapCalendar.CurrentIndex | src/components/HeatmapCalendar.tsx:199 | an unset (negative) index means the last month; a set index is kept unchanged; with months present and the index below the count, the result is a valid month |
| HeatmapCalendar.GoPrev | src/components/HeatmapCalendar.tsx:213 | one month back, never below 0 |
| HeatmapCalendar.GoNext | src/components/HeatmapCalendar.tsx:214 | one month on, never past the last |
| HeatmapCalendar.NavigationInRange | src/components/HeatmapCalendar.tsx:199-214 | from any index or the unset -1, both buttons land on an existing month |
| HeatmapCalendar.NavigationInverse | src/components/HeatmapCalendar.tsx:213-214 | away from the ends, back then forward (and forward then back) returns to the same month |
| HeatmapCalendar.DayClick | src/components/HeatmapCalendar.tsx:209-211 | a click selects a day exactly when the market was open that day, else keeps the selection |
| TickerTable.Rank | src/components/TickerTable.tsx:141-143 | a symbol's rank is its first index in the order, or 999 when it is missing |
| TickerTable.InsertByRank | src/components/TickerTable.tsx:139-145 | inserting one row adds exactly that row |
| TickerTable.SortByRank | src/components/TickerTable.tsx:139-145 | the rank sort is a permutation of the rows |
| TickerTable.SortedTickers | src/components/TickerTable.tsx:139-145 | `sortedTickers` is a permutation, and the input itself without a saved order |
| TickerTable.InsertByRankSorted | src/components/TickerTable.tsx:139-145 | inserting into rank order keeps rank order |
| TickerTable.SortByRankSorted | src/components/TickerTable.tsx:139-145 | the rows come out in ascending rank |
| TickerTable.InsertOfRank | src/components/TickerTable.tsx:139-145 | an insertion puts the new row after the existing rows of its rank |
| TickerTable.SortByRankStable | src/components/TickerTable.tsx:139-145 | rows of equal rank keep their input order |
| TickerTable.RemoveAt | src/components/TickerTable.tsx:199 | `splice(i, 1)` removes one element |
| TickerTable.InsertAt | src/components/TickerTable.tsx:200 | `splice(i, 0, x)` inserts one element |
| TickerTable.Move | src/components/TickerTable.tsx:199-200 | the two splices keep the length |
| TickerTable.MoveLands | src/components/TickerTable.tsx:199-200 | the moved element lands at the target index, the rest keep their relative order, and it is a permutation |
| TickerTable.MoveInverse | src/components/TickerTable.tsx:199-200 | moving back undoes a move |
| TickerTable.MoveInPlace | src/components/TickerTable.tsx:199-200 | moving an element onto its own place changes nothing |
| TickerTable.DragReorderMeaning | src/components/TickerTable.tsx:194-202 | reorders iff both symbols are listed; a permutation with the dragged symbol at the target's index; no change when they are the same |
| TickerTable.Reorder | src/components/TickerTable.tsx:195-201 | the two splices on a copy give the drag reorder |
| TickerTable.PinToTopMeaning | src/components/TickerTable.tsx:263-269 | pins iff the symbol is listed and not first; then it is first, the others keep their order, and it is a permutation |
| TickerTable.Pin | src/components/TickerTable.tsx:263-269 | the splice and `unshift` on a copy give the pin-to-top order |
| TickerTable.SwipeMove | src/components/TickerTable.tsx:222-246 | the start is kept, a set lock never changes, and an offset is only published while locked horizontally |
| TickerTable.SwipeLocks | src/components/TickerTable.tsx:229-245 | unlocked: over 10 px horizontally locks horizontal, else over 10 px vertically locks vertical and ends, else nothing; horizontal follows the pointer |
| TickerTable.SwipeInactiveIgnored | src/components/TickerTable.tsx:223-224 | an ended gesture ignores the pointer |
| TickerTable.SaveCost | src/components/TickerTable.tsx:298-303 | an empty, unparsable or non-positive edit deletes the basis, otherwise sets it; other symbols unchanged |
| TickerTable.SaveCostKeepsPositive | src/components/TickerTable.tsx:299-303 | saving keeps every stored basis positive |
| TickerTable.Table.constructor | src/components/TickerTable.tsx:117-136 | the mounted table has no drag, no swipes, no prompt, no edits and the loaded cost basis |
| TickerTable.Table.DragStart | src/components/TickerTable.tsx:162-169 | the drag starts over its own row with that pointer; nothing else changes |
| TickerTable.Table.DragEnd | src/components/TickerTable.tsx:191-208 | another pointer or no drag changes nothing; otherwise the drag reorder when allowed, and the drag is cleared |
| TickerTable.Table.SwipePointerDown | src/components/TickerTable.tsx:211-220 | a fresh active, unlocked gesture at the pointer, unless a drag is in progress |
| TickerTable.Table.SwipePointerMove | src/components/TickerTable.tsx:222-246 | the row's gesture advances by one pointer move and its published offset is recorded |
| TickerTable.Table.SwipePointerUp | src/components/TickerTable.tsx:248-278 | the gesture always ends; a live one resets its offset to 0, marks a swipe action, pins past +80 or prompts delete past -80 |
| TickerTable.Table.CostSave | src/components/TickerTable.tsx:294-311 | with a pending edit, the basis is saved from it and the edit dropped, keeping bases positive; without one nothing changes |
| TickerTable.Table.Toggle | src/components/TickerTable.tsx:147-159 | no effect during a drag; a tap ending a swipe is consumed; otherwise the row's expansion flips |
| TickerTable.Table.ConfirmDelete | src/components/TickerTable.tsx:280-283 | the prompt closes and the symbol is handed to `onDelete` |
| TickerTable.Table.CancelDelete | src/components/TickerTable.tsx:285-287 | the prompt closes |
| TickerTable.Table.CostChange | src/components/TickerTable.tsx:290-292 | the typed text is recorded for the row |
| TickerEditor.Sanitise | src/components/TickerEditor.tsx:102 | the first `min(10, n)` of the input's `n` accepted characters (letters, '.', '^', '-'), in order |
| TickerEditor.SanitiseKeepsClean | src/components/TickerEditor.tsx:102 | clean text of at most 10 characters passes unchanged |
| TickerEditor.SanitiseIdempotent | src/components/TickerEditor.tsx:102 | sanitising twice is sanitising once |
| TickerEditor.AddTicker | src/components/TickerEditor.tsx:30-45 | empty after trim: no update; already listed: no update, input cleared, shake; otherwise the upper-cased ticker appended |
| TickerEditor.AddKeepsDistinct | src/components/TickerEditor.tsx:34-41 | adding keeps the list free of duplicates, and the added ticker is non-empty and upper case |
| TickerEditor.AddUpdatesIff | src/components/TickerEditor.tsx:31-41 | an update happens exactly when the normalised input is non-empty and new |
| TickerEditor.AddTwice | src/components/TickerEditor.tsx:34-41 | adding the same input again changes nothing |
| TickerEditor.SanitisedInputAdds | src/components/TickerEditor.tsx:31 | sanitised input needs no trim: the added ticker is its upper-case form, at most 10 long |
| TickerEditor.RemoveTicker | src/components/TickerEditor.tsx:47-49 | the symbol is gone, every other ticker keeps its count, and the order is kept |
| TickerEditor.RemoveKeepsDistinct | src/components/TickerEditor.tsx:47-49 | removing keeps the list free of duplicates |
| TickerEditor.RemoveUndoesAdd | src/components/TickerEditor.tsx:41-48 | removing a ticker just appended gives back the list before |
| TickerEditor.RemoveAbsent | src/components/TickerEditor.tsx:47-49 | removing an unlisted ticker changes nothing |
| TickerEditor.KeyDown | src/components/TickerEditor.tsx:51-54 | Enter runs `addTicker`: its update, its new input text, a shake that stays on once set, and the just-added flash; Escape closes the panel; any other key does nothing |

## Left out

- Network I/O: the Yahoo crumb and cookie handshake, `fetchQuotes`, `fetchFearGreed`, `fetchVIX`, the chart and history
  fetches, `res.ok` handling, and the JSON normalisation of their payloads. Their parsed results are parameters: quotes,
  chart series, the Fear & Greed map, coin feeds.
- `Promise.all` and the other async control flow: the per-symbol fetches are modelled as a sequential loop over given
  results. Concurrency does not change their outcome.
- The crumb cache and the history route's one-hour response cache, because they depend on the wall clock and the process
  lifetime.
- Timezone and date conversion (`toETDate`, `todayET`, `toLocaleDateString('en-CA')`, `setMonth`/`setDate` on the
  cursor, `Date.now()`). Date keys, "today", the calendar window and the six-month coin chart cutoff are inputs.
- `new Date(y, m - 1, 1).getDay()` and `new Date(y, m, 0).getDate()` are replaced by the Gregorian rules, because
  JavaScript's `Date` is unavailable here.
- The month group's `label` (`toLocaleDateString('ko-KR')`), because it is locale formatting.
- HeatmapCalendar.GroupByMonthLoop: requires every history date to start with a `YYYY-MM` key, as the history route
  produces. The source's `Number` parsing of a malformed key (NaN) is not modelled.
- IEEE-754 doubles: prices, scores and changes are reals, so rounding and division are exact.
- `Math.round` is `Floor(x + 0.5)`. This agrees with JavaScript on every finite value except the float artefacts of
  doubles.
- `parseFloat` is a parameter of `TickerTable.Table.CostSave` returning an optional real, with NaN as nothing.
- `localStorage` persistence (`loadCostBasis`, `saveCostBasis` and the rest), because it is browser storage. The loaded
  cost basis is the constructor's argument.
- `getEditValue` (`toString` of a number), because it is float formatting.
- `handlePointerMove` of the drag: finding the closest row from DOM geometry is left out. The row it picks is
  `overSymbol`, which `DragStart` sets and `DragEnd` reads.
- The shake and justAdded timers (`setTimeout`) of the editor, the auto-focus, and the confetti, because they are
  timers and animation.
- Array `sort` is modelled as a stable insertion sort. JavaScript's sort is stable, so the result is the same; only the
  algorithm differs.
- Utils.CalcPosition: the loop body is written through `Step`, one buy or sell, rather than inline.
- The string comparison `localeCompare` is taken as code-point order. Locale collation rules are not modelled.
- `trim` and `toUpperCase` are modelled for JavaScript's white space and for ASCII letters only. Non-ASCII case mapping
  is not modelled.
- Rendering: the SVG sparkline, the day-range bar, the gauges and every other view, because they are presentation.
