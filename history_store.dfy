/** The composite market-temperature scorer and the in-process store of daily
    snapshots that the market route writes and the history route reads. */
module HistoryStore {
  import opened Wrappers
  import opened Numeric
  import opened Types

  /** The four raw signals of one collection; any of them may be missing. */
  datatype DailySnapshot = DailySnapshot(
    fg: Option<real>,
    vix: Option<real>,
    tnxChange: Option<real>,
    dxyChange: Option<real>)

  /** One present signal: its fixed weight and its 0..100 sub-score. */
  datatype Entry = Entry(weight: real, score: real)

  const FgWeight: real := 40.0
  const VixWeight: real := 30.0
  const TnxWeight: real := 15.0
  const DxyWeight: real := 15.0

  /** Fear & Greed: the raw score clamped to 0..100 (not rounded). */
  function FgScore(fg: real): (r: real)
    ensures 0.0 <= r <= 100.0
    ensures 0.0 <= fg <= 100.0 ==> r == fg
  {
    Clamp(fg, 0.0, 100.0)
  }

  /** VIX, inverted: 10 or below is 100 (hot), 40 or above is 0 (cold). */
  function VixScore(vix: real): (r: int)
    ensures 0 <= r <= 100
    ensures vix <= 10.0 ==> r == 100
    ensures vix >= 40.0 ==> r == 0
  {
    var normalized := 100.0 - ((Clamp(vix, 10.0, 40.0) - 10.0) / 30.0) * 100.0;
    RoundInRange(normalized, 0, 100);
    Round(normalized)
  }

  /** 10-year yield daily change %, inverted: 0% is 50, +3% or more is 0, -3% or less is 100. */
  function TnxScore(change: real): (r: int)
    ensures 0 <= r <= 100
    ensures change == 0.0 ==> r == 50
    ensures change >= 3.0 ==> r == 0
    ensures change <= -3.0 ==> r == 100
  {
    var normalized := 50.0 - (Clamp(change, -3.0, 3.0) / 3.0) * 50.0;
    RoundInRange(normalized, 0, 100);
    Round(normalized)
  }

  /** Dollar index daily change %, inverted: 0% is 50, +2% or more is 0, -2% or less is 100. */
  function DxyScore(change: real): (r: int)
    ensures 0 <= r <= 100
    ensures change == 0.0 ==> r == 50
    ensures change >= 2.0 ==> r == 0
    ensures change <= -2.0 ==> r == 100
  {
    var normalized := 50.0 - (Clamp(change, -2.0, 2.0) / 2.0) * 50.0;
    RoundInRange(normalized, 0, 100);
    Round(normalized)
  }

  lemma VixScoreAntitone(a: real, b: real)
    requires a <= b
    ensures VixScore(b) <= VixScore(a)
  {
    var na := 100.0 - ((Clamp(a, 10.0, 40.0) - 10.0) / 30.0) * 100.0;
    var nb := 100.0 - ((Clamp(b, 10.0, 40.0) - 10.0) / 30.0) * 100.0;
    RoundMonotone(nb, na);
  }

  /** The weighted entries of the signals that are present, in the order F&G, VIX, TNX, DXY. */
  function Entries(fg: Option<real>, vix: Option<real>, tnx: Option<real>, dxy: Option<real>): (es: seq<Entry>)
    ensures |es| == (if fg.Some? then 1 else 0) + (if vix.Some? then 1 else 0)
                    + (if tnx.Some? then 1 else 0) + (if dxy.Some? then 1 else 0)
    ensures forall k :: 0 <= k < |es| ==> es[k].weight > 0.0 && 0.0 <= es[k].score <= 100.0
  {
    (if fg.Some? then [Entry(FgWeight, FgScore(fg.value))] else [])
    + (if vix.Some? then [Entry(VixWeight, VixScore(vix.value) as real)] else [])
    + (if tnx.Some? then [Entry(TnxWeight, TnxScore(tnx.value) as real)] else [])
    + (if dxy.Some? then [Entry(DxyWeight, DxyScore(dxy.value) as real)] else [])
  }

  /** `entries.reduce((sum, e) => sum + e.weight, 0)`. */
  function TotalWeight(es: seq<Entry>): real {
    if es == [] then 0.0 else es[0].weight + TotalWeight(es[1..])
  }

  /** `entries.reduce((sum, e) => sum + (e.score * e.weight) / total, 0)`. */
  function WeightedSum(es: seq<Entry>, total: real): real
    requires total != 0.0
  {
    if es == [] then 0.0 else es[0].score * es[0].weight / total + WeightedSum(es[1..], total)
  }

  predicate ScoresWithin(es: seq<Entry>, lo: real, hi: real) {
    forall k :: 0 <= k < |es| ==> lo <= es[k].score <= hi
  }

  predicate PositiveWeights(es: seq<Entry>) {
    forall k :: 0 <= k < |es| ==> es[k].weight > 0.0
  }

  lemma {:induction false} TotalWeightPositive(es: seq<Entry>)
    requires PositiveWeights(es) && es != []
    ensures TotalWeight(es) > 0.0
  {
    if es[1..] != [] {
      TotalWeightPositive(es[1..]);
    }
  }

  /** `sum(score * weight)`: the weighted sum before the division by the total weight. */
  function Dot(es: seq<Entry>): real {
    if es == [] then 0.0 else es[0].score * es[0].weight + Dot(es[1..])
  }

  lemma AddQuotients(a: real, b: real, t: real)
    requires t != 0.0
    ensures a / t + b / t == (a + b) / t
  {
  }

  /** Dividing each term by the total is dividing the sum by the total. */
  lemma {:induction false} WeightedSumIsDot(es: seq<Entry>, t: real)
    requires t != 0.0
    ensures WeightedSum(es, t) == Dot(es) / t
  {
    if es != [] {
      WeightedSumIsDot(es[1..], t);
      AddQuotients(es[0].score * es[0].weight, Dot(es[1..]), t);
    }
  }

  lemma ScaleStep(lo: real, s: real, hi: real, w: real, rest: real, drest: real)
    requires w >= 0.0 && lo <= s <= hi
    requires lo * rest <= drest <= hi * rest
    ensures lo * (w + rest) <= s * w + drest <= hi * (w + rest)
  {
    assert lo * w <= s * w <= hi * w;
  }

  lemma {:induction false} DotBounds(es: seq<Entry>, lo: real, hi: real)
    requires PositiveWeights(es) && ScoresWithin(es, lo, hi)
    ensures lo * TotalWeight(es) <= Dot(es) <= hi * TotalWeight(es)
  {
    if es != [] {
      DotBounds(es[1..], lo, hi);
      ScaleStep(lo, es[0].score, hi, es[0].weight, TotalWeight(es[1..]), Dot(es[1..]));
    }
  }

  lemma QuotientBounds(lo: real, hi: real, d: real, t: real)
    requires t > 0.0 && lo * t <= d <= hi * t
    ensures lo <= d / t <= hi
  {
  }

  /** The renormalised weighted average of sub-scores in [lo, hi] is in [lo, hi]. */
  lemma WeightedAverageBounds(es: seq<Entry>, lo: real, hi: real)
    requires es != [] && PositiveWeights(es) && ScoresWithin(es, lo, hi)
    ensures TotalWeight(es) > 0.0
    ensures lo <= WeightedSum(es, TotalWeight(es)) <= hi
  {
    TotalWeightPositive(es);
    WeightedSumIsDot(es, TotalWeight(es));
    AverageWithin(es, lo, hi);
  }

  lemma AverageWithin(es: seq<Entry>, lo: real, hi: real)
    requires es != [] && PositiveWeights(es) && ScoresWithin(es, lo, hi)
    ensures TotalWeight(es) > 0.0
    ensures lo <= Dot(es) / TotalWeight(es) <= hi
  {
    TotalWeightPositive(es);
    DotBounds(es, lo, hi);
    QuotientBounds(lo, hi, Dot(es), TotalWeight(es));
  }

  function ClampInt(v: int, lo: int, hi: int): (r: int)
    requires lo <= hi
    ensures lo <= r <= hi
    ensures lo <= v <= hi ==> r == v
  {
    if hi < v then hi else if v < lo then lo else v
  }

  /** No entry gives the neutral 50; otherwise the rounded weighted average, clamped to 0..100. */
  function Combine(es: seq<Entry>): (r: int)
    requires PositiveWeights(es) && ScoresWithin(es, 0.0, 100.0)
    ensures 0 <= r <= 100
    ensures es == [] ==> r == 50
  {
    if es == [] then 50
    else
      TotalWeightPositive(es);
      ClampInt(Round(WeightedSum(es, TotalWeight(es))), 0, 100)
  }

  /** `computeComposite` of historyStore.ts. */
  function ComputeComposite(s: DailySnapshot): (r: int)
    ensures 0 <= r <= 100
    ensures s.fg.None? && s.vix.None? && s.tnxChange.None? && s.dxyChange.None? ==> r == 50
  {
    Combine(Entries(s.fg, s.vix, s.tnxChange, s.dxyChange))
  }

  /** The final clamp never changes anything: the rounded weighted average is already in 0..100,
      and it lies between the smallest and the largest present sub-score. */
  lemma {:induction false} FinalClampRedundant(es: seq<Entry>, lo: int, hi: int)
    requires es != [] && PositiveWeights(es) && ScoresWithin(es, lo as real, hi as real)
    requires 0 <= lo <= hi <= 100
    ensures TotalWeight(es) > 0.0
    ensures lo <= Round(WeightedSum(es, TotalWeight(es))) <= hi
    ensures Combine(es) == Round(WeightedSum(es, TotalWeight(es)))
  {
    WeightedAverageBounds(es, lo as real, hi as real);
    RoundInRange(WeightedSum(es, TotalWeight(es)), lo, hi);
  }

  /** With a single signal its weight renormalises to 1: the composite is its rounded sub-score. */
  lemma {:induction false} SingleSignal(s: DailySnapshot)
    ensures s.vix.None? && s.tnxChange.None? && s.dxyChange.None? && s.fg.Some? ==>
      ComputeComposite(s) == Round(FgScore(s.fg.value))
    ensures s.fg.None? && s.tnxChange.None? && s.dxyChange.None? && s.vix.Some? ==>
      ComputeComposite(s) == VixScore(s.vix.value)
    ensures s.fg.None? && s.vix.None? && s.dxyChange.None? && s.tnxChange.Some? ==>
      ComputeComposite(s) == TnxScore(s.tnxChange.value)
    ensures s.fg.None? && s.vix.None? && s.tnxChange.None? && s.dxyChange.Some? ==>
      ComputeComposite(s) == DxyScore(s.dxyChange.value)
  {
    var es := Entries(s.fg, s.vix, s.tnxChange, s.dxyChange);
    if |es| == 1 {
      var e := es[0];
      assert TotalWeight(es) == e.weight;
      assert WeightedSum(es, e.weight) == e.score * e.weight / e.weight == e.score;
      FinalClampRedundant(es, 0, 100);
      if s.fg.None? {
        RoundOfInt(e.score.Floor);
      }
    }
  }

  /** VIX alone at or below 10 reads 100, at or above 40 reads 0. */
  lemma VixAloneEndpoints(v: real)
    ensures v <= 10.0 ==> ComputeComposite(DailySnapshot(None, Some(v), None, None)) == 100
    ensures v >= 40.0 ==> ComputeComposite(DailySnapshot(None, Some(v), None, None)) == 0
  {
    SingleSignal(DailySnapshot(None, Some(v), None, None));
  }

  // ---- the store ----

  /** The entry `recordSnapshot` writes for `date`. */
  function LiveDay(date: string, s: DailySnapshot): (d: DayScore)
    ensures d.date == date && d.marketOpen && 0 <= d.composite <= 100
    ensures d.composite == ComputeComposite(s)
    ensures d.fg == s.fg
    ensures d.vix.Some? <==> s.vix.Some?
    ensures d.vix.Some? ==> d.vix.value * 10.0 == Round(s.vix.value * 10.0) as real
    ensures d.vix.Some? ==> s.vix.value - 0.05 < d.vix.value <= s.vix.value + 0.05
    ensures d.tnxChange.Some? <==> s.tnxChange.Some?
    ensures d.tnxChange.Some? ==> d.tnxChange.value * 100.0 == Round(s.tnxChange.value * 100.0) as real
    ensures d.tnxChange.Some? ==> s.tnxChange.value - 0.005 < d.tnxChange.value <= s.tnxChange.value + 0.005
    ensures d.dxyChange.Some? <==> s.dxyChange.Some?
    ensures d.dxyChange.Some? ==> d.dxyChange.value * 100.0 == Round(s.dxyChange.value * 100.0) as real
    ensures d.dxyChange.Some? ==> s.dxyChange.value - 0.005 < d.dxyChange.value <= s.dxyChange.value + 0.005
  {
    DayScore(
      date,
      ComputeComposite(s),
      s.fg,
      if s.vix.Some? then Some(RoundTo(s.vix.value, 10)) else None,
      if s.tnxChange.Some? then Some(RoundTo(s.tnxChange.value, 100)) else None,
      if s.dxyChange.Some? then Some(RoundTo(s.dxyChange.value, 100)) else None,
      true)
  }

  /** The store after `recordSnapshot`: today's entry is always overwritten. */
  function Record(m: map<string, DayScore>, date: string, s: DailySnapshot): (m': map<string, DayScore>)
    ensures m'.Keys == m.Keys + {date}
    ensures m'[date] == LiveDay(date, s)
    ensures forall k :: k in m && k != date ==> m'[k] == m[k]
  {
    m[date := LiveDay(date, s)]
  }

  /** The store after `backfillIfMissing`: only an absent date is filled. */
  function Backfill(m: map<string, DayScore>, date: string, day: DayScore): (m': map<string, DayScore>)
    ensures m'.Keys == m.Keys + {date}
    ensures date in m ==> m' == m
    ensures date !in m ==> m'[date] == day
    ensures forall k :: k in m ==> m'[k] == m[k]
  {
    if date in m then m else m[date := day]
  }

  /** A backfill after a live write of the same date leaves the live entry in place. */
  lemma RecordThenBackfill(m: map<string, DayScore>, date: string, s: DailySnapshot, day: DayScore)
    ensures Backfill(Record(m, date, s), date, day) == Record(m, date, s)
  {
  }

  /** A live write after a backfill of the same date replaces the backfilled entry. */
  lemma BackfillThenRecord(m: map<string, DayScore>, date: string, s: DailySnapshot, day: DayScore)
    ensures Record(Backfill(m, date, day), date, s) == Record(m, date, s)
  {
  }

  /** Backfilling the same date twice keeps the first one. */
  lemma BackfillIdempotent(m: map<string, DayScore>, date: string, x: DayScore, y: DayScore)
    ensures Backfill(Backfill(m, date, x), date, y) == Backfill(m, date, x)
  {
  }

  /** The module-level `store` Map of historyStore.ts, as an object passed to its users. */
  class SnapshotStore {
    var store: map<string, DayScore>

    constructor ()
      ensures store == map[]
    {
      store := map[];
    }

    /** `recordSnapshot`, with today's date given by the caller instead of read from the clock. */
    method RecordSnapshot(date: string, snapshot: DailySnapshot)
      modifies this
      ensures store == Record(old(store), date, snapshot)
    {
      var composite := ComputeComposite(snapshot);
      store := store[date := DayScore(
        date,
        composite,
        snapshot.fg,
        if snapshot.vix.Some? then Some(RoundTo(snapshot.vix.value, 10)) else None,
        if snapshot.tnxChange.Some? then Some(RoundTo(snapshot.tnxChange.value, 100)) else None,
        if snapshot.dxyChange.Some? then Some(RoundTo(snapshot.dxyChange.value, 100)) else None,
        true)];
    }

    /** `getSnapshots`: every stored entry. */
    method GetSnapshots() returns (m: map<string, DayScore>)
      ensures m == store
    {
      m := store;
    }

    method BackfillIfMissing(date: string, day: DayScore)
      modifies this
      ensures store == Backfill(old(store), date, day)
    {
      if date !in store {
        store := store[date := day];
      }
    }
  }

  /** What a caller of the store can rely on: a live write survives a later backfill of its date. */
  method RecordedEntrySurvivesBackfill(st: SnapshotStore, date: string, s: DailySnapshot, day: DayScore)
    modifies st
    ensures date in st.store && st.store[date] == LiveDay(date, s)
    ensures st.store.Keys == old(st.store.Keys) + {date}
  {
    st.RecordSnapshot(date, s);
    st.BackfillIfMissing(date, day);
  }
}
