/** The history route: turns three daily chart series and the Fear & Greed
    history into one `DayScore` per calendar day of the displayed window. */
module HistoryRoute {
  import opened Wrappers
  import opened Numeric
  import opened Types
  import HistoryStore
  import Text

  /** One point of a daily chart after the fetch dropped the null closes:
      its Eastern-time date key and its close. */
  datatype ChartPoint = ChartPoint(date: string, close: real)

  function Closes(series: seq<ChartPoint>): (r: seq<real>)
    ensures |r| == |series| && forall i :: 0 <= i < |series| ==> r[i] == series[i].close
  {
    if series == [] then [] else [series[0].close] + Closes(series[1..])
  }

  function Dates(series: seq<ChartPoint>): (r: seq<string>)
    ensures |r| == |series| && forall i :: 0 <= i < |series| ==> r[i] == series[i].date
  {
    if series == [] then [] else [series[0].date] + Dates(series[1..])
  }

  /** `computeChangePercents`: the day-over-day change in percent; none for the
      first close and none after a zero close. */
  function ComputeChangePercents(closes: seq<real>): (r: seq<Option<real>>)
    ensures |r| == |closes|
    ensures |closes| > 0 ==> r[0].None?
    ensures forall i :: 0 < i < |closes| ==> (r[i].None? <==> closes[i - 1] == 0.0)
    ensures forall i :: 0 < i < |closes| && closes[i - 1] != 0.0 ==>
      r[i] == Some(PercentChange(closes[i - 1], closes[i]))
  {
    seq(|closes|, i requires 0 <= i < |closes| =>
      if i == 0 || closes[i - 1] == 0.0 then None
      else Some(PercentChange(closes[i - 1], closes[i])))
  }

  /** The `entries.push` calls of the route's own `computeComposite`, one per
      present signal, in source order. */
  function RouteEntries(fg: Option<real>, vix: Option<real>, tnxChange: Option<real>, dxyChange: Option<real>): seq<HistoryStore.Entry> {
    var e1: seq<HistoryStore.Entry> :=
      if fg.Some? then [HistoryStore.Entry(40.0, Clamp(fg.value, 0.0, 100.0))] else [];
    var e2 := if vix.Some? then
      e1 + [HistoryStore.Entry(30.0, Round(100.0 - ((Clamp(vix.value, 10.0, 40.0) - 10.0) / 30.0) * 100.0) as real)]
      else e1;
    var e3 := if tnxChange.Some? then
      e2 + [HistoryStore.Entry(15.0, Round(50.0 - (Clamp(tnxChange.value, -3.0, 3.0) / 3.0) * 50.0) as real)]
      else e2;
    if dxyChange.Some? then
      e3 + [HistoryStore.Entry(15.0, Round(50.0 - (Clamp(dxyChange.value, -2.0, 2.0) / 2.0) * 50.0) as real)]
    else e3
  }

  /** `entries.reduce((s, e) => s + e.weight, acc)`, left to right. */
  function ReduceWeight(es: seq<HistoryStore.Entry>, acc: real): real
    decreases |es|
  {
    if es == [] then acc else ReduceWeight(es[1..], acc + es[0].weight)
  }

  /** `entries.reduce((s, e) => s + (e.score * e.weight) / total, acc)`, left to right. */
  function ReduceWeighted(es: seq<HistoryStore.Entry>, total: real, acc: real): real
    requires total != 0.0
    decreases |es|
  {
    if es == [] then acc else ReduceWeighted(es[1..], total, acc + es[0].score * es[0].weight / total)
  }

  lemma {:induction false} ReduceWeightIsTotal(es: seq<HistoryStore.Entry>, acc: real)
    ensures ReduceWeight(es, acc) == acc + HistoryStore.TotalWeight(es)
    decreases |es|
  {
    if es != [] {
      ReduceWeightIsTotal(es[1..], acc + es[0].weight);
    }
  }

  lemma {:induction false} ReduceWeightedIsSum(es: seq<HistoryStore.Entry>, total: real, acc: real)
    requires total != 0.0
    ensures ReduceWeighted(es, total, acc) == acc + HistoryStore.WeightedSum(es, total)
    decreases |es|
  {
    if es != [] {
      ReduceWeightedIsSum(es[1..], total, acc + es[0].score * es[0].weight / total);
    }
  }

  /** The route pushes the same entries as the history store. */
  lemma RouteEntriesAreStoreEntries(fg: Option<real>, vix: Option<real>, tnxChange: Option<real>, dxyChange: Option<real>)
    ensures RouteEntries(fg, vix, tnxChange, dxyChange) == HistoryStore.Entries(fg, vix, tnxChange, dxyChange)
  {
  }

  /** `computeComposite` of the history route, written out as the route writes it;
      it computes exactly what the history store's scorer does. */
  function ComputeComposite(fg: Option<real>, vix: Option<real>, tnxChange: Option<real>, dxyChange: Option<real>): (r: int)
    ensures 0 <= r <= 100
    ensures r == HistoryStore.ComputeComposite(HistoryStore.DailySnapshot(fg, vix, tnxChange, dxyChange))
  {
    var es := RouteEntries(fg, vix, tnxChange, dxyChange);
    RouteEntriesAreStoreEntries(fg, vix, tnxChange, dxyChange);
    if |es| == 0 then 50
    else
      ReduceWeightIsTotal(es, 0.0);
      HistoryStore.TotalWeightPositive(es);
      var totalWeight := ReduceWeight(es, 0.0);
      ReduceWeightedIsSum(es, totalWeight, 0.0);
      var composite := Round(ReduceWeighted(es, totalWeight, 0.0));
      if 100 < composite then 100 else if composite < 0 then 0 else composite
  }

  /** The lookup map a `for` loop of `map.set(keys[i], vals[i])` builds over the
      present values: a later key overwrites an earlier one. */
  function Assoc(keys: seq<string>, vals: seq<Option<real>>): map<string, real>
    requires |keys| == |vals|
  {
    if keys == [] then map[]
    else
      var n := |keys| - 1;
      var m := Assoc(keys[..n], vals[..n]);
      if vals[n].Some? then m[keys[n] := vals[n].value] else m
  }

  /** A key is in the map exactly when some position carries it with a value. */
  lemma {:induction false} AssocKeys(keys: seq<string>, vals: seq<Option<real>>, k: string)
    requires |keys| == |vals|
    ensures k in Assoc(keys, vals) <==> exists i :: 0 <= i < |keys| && keys[i] == k && vals[i].Some?
  {
    if keys != [] {
      var n := |keys| - 1;
      AssocKeys(keys[..n], vals[..n], k);
      if k in Assoc(keys[..n], vals[..n]) {
        var i :| 0 <= i < n && keys[..n][i] == k && vals[..n][i].Some?;
        assert keys[i] == k && vals[i].Some?;
      }
      if exists i :: 0 <= i < |keys| && keys[i] == k && vals[i].Some? {
        var i :| 0 <= i < |keys| && keys[i] == k && vals[i].Some?;
        if i < n {
          assert keys[..n][i] == k && vals[..n][i].Some?;
        }
      }
    }
  }

  /** The value under a key is that of the last position carrying it with a value. */
  lemma {:induction false} AssocLast(keys: seq<string>, vals: seq<Option<real>>, i: nat)
    requires |keys| == |vals| && i < |keys| && vals[i].Some?
    requires forall j :: i < j < |keys| && keys[j] == keys[i] ==> vals[j].None?
    ensures keys[i] in Assoc(keys, vals) && Assoc(keys, vals)[keys[i]] == vals[i].value
  {
    var n := |keys| - 1;
    if i < n {
      AssocLast(keys[..n], vals[..n], i);
    }
  }

  /** Builds `Assoc(keys, vals)` with the source's loop. */
  method BuildMap(keys: seq<string>, vals: seq<Option<real>>) returns (m: map<string, real>)
    requires |keys| == |vals|
    ensures m == Assoc(keys, vals)
  {
    m := map[];
    var i := 0;
    while i < |keys|
      invariant 0 <= i <= |keys|
      invariant m == Assoc(keys[..i], vals[..i])
    {
      assert keys[..i + 1][..i] == keys[..i] && vals[..i + 1][..i] == vals[..i];
      if vals[i].Some? {
        m := m[keys[i] := vals[i].value];
      }
      i := i + 1;
    }
    assert keys[..i] == keys && vals[..i] == vals;
  }

  function Present(xs: seq<real>): (r: seq<Option<real>>)
    ensures |r| == |xs| && forall i :: 0 <= i < |xs| ==> r[i] == Some(xs[i])
  {
    if xs == [] then [] else [Some(xs[0])] + Present(xs[1..])
  }

  /** `vixMap`: date -> VIX close. */
  function CloseMap(series: seq<ChartPoint>): map<string, real> {
    Assoc(Dates(series), Present(Closes(series)))
  }

  /** `tnxMap` and `dxyMap`: date -> daily change, for the dates that have one. */
  function ChangeMap(series: seq<ChartPoint>): map<string, real> {
    Assoc(Dates(series), ComputeChangePercents(Closes(series)))
  }

  /** `marketOpenDates`: the VIX dates. */
  function OpenDates(series: seq<ChartPoint>): set<string> {
    set i | 0 <= i < |series| :: series[i].date
  }

  /** Every VIX date has a close in the lookup map, and only those. */
  lemma CloseMapKeys(series: seq<ChartPoint>)
    ensures CloseMap(series).Keys == OpenDates(series)
  {
    forall k ensures k in CloseMap(series) <==> k in OpenDates(series) {
      AssocKeys(Dates(series), Present(Closes(series)), k);
    }
  }

  /** A change is only ever recorded for a date that follows a non-zero close,
      so a series' first date carries none unless it repeats later. */
  lemma ChangeMapKeys(series: seq<ChartPoint>, k: string)
    ensures k in ChangeMap(series) <==>
      exists i :: 0 < i < |series| && series[i].date == k && series[i - 1].close != 0.0
    ensures |series| > 0 && (forall i :: 0 < i < |series| ==> series[i].date != series[0].date) ==>
      series[0].date !in ChangeMap(series)
  {
    var changes := ComputeChangePercents(Closes(series));
    AssocKeys(Dates(series), changes, k);
    if |series| > 0 {
      AssocKeys(Dates(series), changes, series[0].date);
    }
  }

  /** The change recorded for a date is that of its last point in the series. */
  lemma ChangeMapValue(series: seq<ChartPoint>, i: nat)
    requires 0 < i < |series| && series[i - 1].close != 0.0
    requires forall j :: i < j < |series| ==> series[j].date != series[i].date
    ensures series[i].date in ChangeMap(series)
    ensures ChangeMap(series)[series[i].date] == PercentChange(series[i - 1].close, series[i].close)
  {
    AssocLast(Dates(series), ComputeChangePercents(Closes(series)), i);
  }

  function RoundTo2(x: Option<real>): (r: Option<real>)
    ensures r.Some? <==> x.Some?
    ensures r.Some? ==> r.value * 100.0 == Round(x.value * 100.0) as real
    ensures r.Some? ==> x.value - 0.005 < r.value <= x.value + 0.005
  {
    if x.Some? then Some(RoundTo(x.value, 100)) else None
  }

  /** The day the assembly loop emits for `date`. */
  function DayFor(date: string, fgMap: map<string, real>, vixMap: map<string, real>,
                  tnxMap: map<string, real>, dxyMap: map<string, real>, open: set<string>): (d: DayScore)
    ensures d.date == date
  {
    var marketOpen := date in open;
    var fg := Lookup(fgMap, date);
    var vix := Lookup(vixMap, date);
    var tnxChange := Lookup(tnxMap, date);
    var dxyChange := Lookup(dxyMap, date);
    var composite := if marketOpen then ComputeComposite(fg, vix, tnxChange, dxyChange) else 50;
    DayScore(date, composite, fg, vix, RoundTo2(tnxChange), RoundTo2(dxyChange), marketOpen)
  }

  /** A day carries the date's looked-up signals, the two changes rounded to two
      places, and a composite that is the history store's score on an open day
      and 50 on a closed one. */
  lemma DayForMeaning(date: string, fgMap: map<string, real>, vixMap: map<string, real>,
                      tnxMap: map<string, real>, dxyMap: map<string, real>, open: set<string>)
    ensures var d := DayFor(date, fgMap, vixMap, tnxMap, dxyMap, open);
      && (d.marketOpen <==> date in open)
      && d.fg == Lookup(fgMap, date) && d.vix == Lookup(vixMap, date)
      && d.tnxChange == RoundTo2(Lookup(tnxMap, date))
      && d.dxyChange == RoundTo2(Lookup(dxyMap, date))
      && (!d.marketOpen ==> d.composite == 50)
      && (d.marketOpen ==> d.composite == HistoryStore.ComputeComposite(HistoryStore.DailySnapshot(
           Lookup(fgMap, date), Lookup(vixMap, date), Lookup(tnxMap, date), Lookup(dxyMap, date))))
  {
  }

  /** How many days the loop emits: up to and including `today`, or the whole calendar. */
  function EmittedCount(calendar: seq<string>, today: string): (n: nat)
    ensures n <= |calendar|
    ensures today in calendar ==> n == Text.IndexOf(calendar, today) + 1
    ensures today !in calendar ==> n == |calendar|
  {
    var i := Text.IndexOf(calendar, today);
    if i < 0 then |calendar| else i + 1
  }

  /** `days` are the days of the first `n` calendar dates. */
  ghost predicate DaysOfPrefix(days: seq<DayScore>, calendar: seq<string>, n: nat, fgMap: map<string, real>,
                               vixMap: map<string, real>, tnxMap: map<string, real>,
                               dxyMap: map<string, real>, open: set<string>) {
    && n <= |calendar| && |days| == n
    && forall k :: 0 <= k < n ==> days[k] == DayFor(calendar[k], fgMap, vixMap, tnxMap, dxyMap, open)
  }

  lemma DaysOfPrefixStep(days: seq<DayScore>, calendar: seq<string>, n: nat, fgMap: map<string, real>,
                         vixMap: map<string, real>, tnxMap: map<string, real>,
                         dxyMap: map<string, real>, open: set<string>)
    requires n < |calendar| && DaysOfPrefix(days, calendar, n, fgMap, vixMap, tnxMap, dxyMap, open)
    ensures DaysOfPrefix(days + [DayFor(calendar[n], fgMap, vixMap, tnxMap, dxyMap, open)],
                         calendar, n + 1, fgMap, vixMap, tnxMap, dxyMap, open)
  {
  }

  /** The day-assembly loop of `GET`: one day per calendar date, stopping
      after `today`. */
  method AssembleDays(fgMap: map<string, real>, vixMap: map<string, real>, tnxMap: map<string, real>,
                      dxyMap: map<string, real>, open: set<string>, calendar: seq<string>, today: string)
    returns (days: seq<DayScore>)
    ensures |days| == EmittedCount(calendar, today)
    ensures forall k :: 0 <= k < |days| ==> days[k] == DayFor(calendar[k], fgMap, vixMap, tnxMap, dxyMap, open)
  {
    days := [];
    var i := 0;
    while i < |calendar|
      invariant 0 <= i <= |calendar|
      invariant today !in calendar[..i]
      invariant DaysOfPrefix(days, calendar, i, fgMap, vixMap, tnxMap, dxyMap, open)
    {
      var dateStr := calendar[i];
      DaysOfPrefixStep(days, calendar, i, fgMap, vixMap, tnxMap, dxyMap, open);
      days := days + [DayFor(dateStr, fgMap, vixMap, tnxMap, dxyMap, open)];
      if dateStr == today {
        Text.IndexOfAt(calendar, today, i);
        return;
      }
      assert calendar[..i + 1] == calendar[..i] + [dateStr];
      i := i + 1;
    }
    assert calendar[..i] == calendar;
  }

  /** The map-building loops and the day-assembly loop of `GET`. `calendar` is
      the successive date keys of the window's cursor, first of the month three
      months back onwards; the loop stops after `today`. */
  method AssembleHistory(fgMap: map<string, real>, vixData: seq<ChartPoint>, tnxData: seq<ChartPoint>,
                         dxyData: seq<ChartPoint>, calendar: seq<string>, today: string)
    returns (days: seq<DayScore>)
    ensures |days| == EmittedCount(calendar, today)
    ensures forall k :: 0 <= k < |days| ==> days[k] == DayFor(calendar[k], fgMap,
      CloseMap(vixData), ChangeMap(tnxData), ChangeMap(dxyData), OpenDates(vixData))
    ensures today in calendar ==> days != [] && days[|days| - 1].date == today
  {
    var vixMap := BuildMap(Dates(vixData), Present(Closes(vixData)));
    var tnxMap := BuildMap(Dates(tnxData), ComputeChangePercents(Closes(tnxData)));
    var dxyMap := BuildMap(Dates(dxyData), ComputeChangePercents(Closes(dxyData)));
    var marketOpenDates := set i | 0 <= i < |vixData| :: vixData[i].date;
    assert marketOpenDates == OpenDates(vixData);
    days := AssembleDays(fgMap, vixMap, tnxMap, dxyMap, marketOpenDates, calendar, today);
    if today in calendar {
      var n := Text.IndexOf(calendar, today);
      assert days[n].date == calendar[n];
    }
  }

  /** A day is open exactly when VIX has a close for it; an open day always
      carries a VIX value, a closed one never does, and a closed day scores 50. */
  lemma OpenIffVixClose(vixData: seq<ChartPoint>, date: string, fgMap: map<string, real>,
                        tnxMap: map<string, real>, dxyMap: map<string, real>)
    ensures var d := DayFor(date, fgMap, CloseMap(vixData), tnxMap, dxyMap, OpenDates(vixData));
      && (d.marketOpen <==> exists i :: 0 <= i < |vixData| && vixData[i].date == date)
      && (d.marketOpen <==> d.vix.Some?)
      && (!d.marketOpen ==> d.composite == 50)
  {
    CloseMapKeys(vixData);
    DayForMeaning(date, fgMap, CloseMap(vixData), tnxMap, dxyMap, OpenDates(vixData));
  }
}
