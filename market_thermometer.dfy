/** The thermometer view's copy of the composite scorer: it reads the live
    market payload, reports each present sub-score with its label, and yields
    no result at all when no signal is present. */
module MarketThermometer {
  import opened Wrappers
  import opened Numeric
  import opened Types
  import HistoryStore
  import Bands
  import Text

  datatype LabelledEntry = LabelledEntry(weight: real, score: real, name: string, key: string)

  /** One row of the thermometer's breakdown; `name` is the source's `label`. */
  datatype SubScore = SubScore(name: string, key: string, score: real)

  datatype ScoreResult = ScoreResult(composite: int, sub: seq<SubScore>)

  const TnxSymbol: string := "^TNX"
  const DxySymbol: string := "DX-Y.NYB"

  /** The index of the first item carrying `symbol`, or -1. */
  function FindIndex(macro: seq<MacroItem>, symbol: string): (i: int)
    ensures -1 <= i < |macro|
    ensures i == -1 <==> forall k :: 0 <= k < |macro| ==> macro[k].symbol != symbol
    ensures i >= 0 ==> macro[i].symbol == symbol && forall j :: 0 <= j < i ==> macro[j].symbol != symbol
  {
    if macro == [] then -1
    else if macro[0].symbol == symbol then 0
    else
      var i := FindIndex(macro[1..], symbol);
      if i == -1 then -1 else i + 1
  }

  /** `macro.find((m) => m.symbol === symbol)`: the first item carrying `symbol`. */
  function Find(macro: seq<MacroItem>, symbol: string): (r: Option<MacroItem>)
    ensures r.None? <==> forall k :: 0 <= k < |macro| ==> macro[k].symbol != symbol
    ensures r.Some? ==> r.value == macro[FindIndex(macro, symbol)] && r.value.symbol == symbol
  {
    var i := FindIndex(macro, symbol);
    if i < 0 then None else Some(macro[i])
  }

  function TnxChange(macro: seq<MacroItem>): Option<real> {
    var m := Find(macro, TnxSymbol);
    if m.Some? then Some(m.value.changePercent) else None
  }

  function DxyChange(macro: seq<MacroItem>): Option<real> {
    var m := Find(macro, DxySymbol);
    if m.Some? then Some(m.value.changePercent) else None
  }

  /** The entry of one signal, when it is present. */
  function FgEntry(fearGreed: Option<FearGreedData>): Option<LabelledEntry> {
    if fearGreed.Some? then Some(LabelledEntry(40.0, HistoryStore.FgScore(fearGreed.value.score), "F&G", "fg")) else None
  }

  function VixEntry(vix: Option<VixData>): Option<LabelledEntry> {
    if vix.Some? then Some(LabelledEntry(30.0, HistoryStore.VixScore(vix.value.value) as real, "VIX", "vix")) else None
  }

  function TnxEntry(macro: seq<MacroItem>): Option<LabelledEntry> {
    var tnx := Find(macro, TnxSymbol);
    if tnx.Some? then Some(LabelledEntry(15.0, HistoryStore.TnxScore(tnx.value.changePercent) as real, "TNX", "tnx")) else None
  }

  function DxyEntry(macro: seq<MacroItem>): Option<LabelledEntry> {
    var dxy := Find(macro, DxySymbol);
    if dxy.Some? then Some(LabelledEntry(15.0, HistoryStore.DxyScore(dxy.value.changePercent) as real, "DXY", "dxy")) else None
  }

  function Part(e: Option<LabelledEntry>): seq<LabelledEntry> {
    if e.Some? then [e.value] else []
  }

  /** The `entries` array: the present signals in the order F&G, VIX, TNX, DXY. */
  function LabelledEntries(fearGreed: Option<FearGreedData>, vix: Option<VixData>, macro: seq<MacroItem>): seq<LabelledEntry> {
    Part(FgEntry(fearGreed)) + Part(VixEntry(vix)) + Part(TnxEntry(macro)) + Part(DxyEntry(macro))
  }

  function Weights(es: seq<LabelledEntry>): (r: seq<HistoryStore.Entry>)
    ensures |r| == |es|
    ensures forall k :: 0 <= k < |es| ==> r[k] == HistoryStore.Entry(es[k].weight, es[k].score)
  {
    if es == [] then [] else [HistoryStore.Entry(es[0].weight, es[0].score)] + Weights(es[1..])
  }

  function SubScores(es: seq<LabelledEntry>): (r: seq<SubScore>)
    ensures |r| == |es|
    ensures forall k :: 0 <= k < |es| ==> r[k] == SubScore(es[k].name, es[k].key, es[k].score)
  {
    if es == [] then [] else [SubScore(es[0].name, es[0].key, es[0].score)] + SubScores(es[1..])
  }

  /** The same entries, stripped of their labels, as the history store's scorer builds. */
  lemma SameEntries(fearGreed: Option<FearGreedData>, vix: Option<VixData>, macro: seq<MacroItem>)
    ensures Weights(LabelledEntries(fearGreed, vix, macro)) == HistoryStore.Entries(
      if fearGreed.Some? then Some(fearGreed.value.score) else None,
      if vix.Some? then Some(vix.value.value) else None,
      TnxChange(macro), DxyChange(macro))
  {
    var p1, p2, p3, p4 := Part(FgEntry(fearGreed)), Part(VixEntry(vix)), Part(TnxEntry(macro)), Part(DxyEntry(macro));
    WeightsAppend(p1, p2);
    WeightsAppend(p1 + p2, p3);
    WeightsAppend(p1 + p2 + p3, p4);
    WeightsOfPart(FgEntry(fearGreed));
    WeightsOfPart(VixEntry(vix));
    WeightsOfPart(TnxEntry(macro));
    WeightsOfPart(DxyEntry(macro));
  }

  lemma {:induction false} WeightsAppend(a: seq<LabelledEntry>, b: seq<LabelledEntry>)
    ensures Weights(a + b) == Weights(a) + Weights(b)
  {
    var l, r := Weights(a + b), Weights(a) + Weights(b);
    forall k | 0 <= k < |l| ensures l[k] == r[k] {
      if k >= |a| {
        assert (a + b)[k] == b[k - |a|];
      }
    }
  }

  lemma WeightsOfPart(e: Option<LabelledEntry>)
    ensures Weights(Part(e)) == if e.Some? then [HistoryStore.Entry(e.value.weight, e.value.score)] else []
  {
  }

  /** `computeScore`: `None` where the source returns `null`. */
  function ComputeScore(fearGreed: Option<FearGreedData>, vix: Option<VixData>, macro: seq<MacroItem>): (r: Option<ScoreResult>)
    ensures r.Some? ==> 0 <= r.value.composite <= 100
  {
    var es := LabelledEntries(fearGreed, vix, macro);
    if es == [] then None
    else
      var ws := Weights(es);
      SameEntries(fearGreed, vix, macro);
      HistoryStore.TotalWeightPositive(ws);
      var composite := Round(HistoryStore.WeightedSum(ws, HistoryStore.TotalWeight(ws)));
      Some(ScoreResult(HistoryStore.ClampInt(composite, 0, 100), SubScores(es)))
  }

  /** No result exactly when no signal is present. */
  lemma NullIffNoSignal(fearGreed: Option<FearGreedData>, vix: Option<VixData>, macro: seq<MacroItem>)
    ensures ComputeScore(fearGreed, vix, macro).None? <==>
      fearGreed.None? && vix.None?
      && (forall k :: 0 <= k < |macro| ==> macro[k].symbol != TnxSymbol)
      && (forall k :: 0 <= k < |macro| ==> macro[k].symbol != DxySymbol)
  {
  }

  /** When present, the thermometer's composite is the history store's composite of the
      Fear & Greed score, the VIX level and the TNX and DXY daily changes it found. */
  lemma {:induction false} AgreesWithHistoryStore(fearGreed: Option<FearGreedData>, vix: Option<VixData>, macro: seq<MacroItem>)
    ensures var r := ComputeScore(fearGreed, vix, macro);
      r.Some? ==> r.value.composite == HistoryStore.ComputeComposite(HistoryStore.DailySnapshot(
        if fearGreed.Some? then Some(fearGreed.value.score) else None,
        if vix.Some? then Some(vix.value.value) else None,
        TnxChange(macro), DxyChange(macro)))
  {
    SameEntries(fearGreed, vix, macro);
  }

  /** The breakdown lists the present signals, in the order F&G, VIX, TNX, DXY, one row per weighted entry. */
  lemma {:induction false} SubScoresInOrder(fearGreed: Option<FearGreedData>, vix: Option<VixData>, macro: seq<MacroItem>)
    ensures var r := ComputeScore(fearGreed, vix, macro);
      r.Some? ==>
        && |r.value.sub| == |LabelledEntries(fearGreed, vix, macro)|
        && |r.value.sub| == (if fearGreed.Some? then 1 else 0) + (if vix.Some? then 1 else 0)
             + (if TnxChange(macro).Some? then 1 else 0) + (if DxyChange(macro).Some? then 1 else 0)
        && (forall k :: 0 <= k < |r.value.sub| ==> 0.0 <= r.value.sub[k].score <= 100.0)
        && Text.IsSubsequence(Labels(r.value.sub), ["F&G", "VIX", "TNX", "DXY"])
        && (fearGreed.Some? ==> r.value.sub[0].key == "fg")
  {
    ScoreSub(fearGreed, vix, macro);
    EntriesInOrder(fearGreed, vix, macro);
  }

  /** A result's breakdown is the labelled entries' rows. */
  lemma ScoreSub(fearGreed: Option<FearGreedData>, vix: Option<VixData>, macro: seq<MacroItem>)
    ensures var r := ComputeScore(fearGreed, vix, macro);
      r.Some? ==> r.value.sub == SubScores(LabelledEntries(fearGreed, vix, macro))
  {
  }

  lemma EntriesInOrder(fearGreed: Option<FearGreedData>, vix: Option<VixData>, macro: seq<MacroItem>)
    ensures var es := LabelledEntries(fearGreed, vix, macro);
      var sub := SubScores(es);
      && |sub| == (if fearGreed.Some? then 1 else 0) + (if vix.Some? then 1 else 0)
           + (if TnxChange(macro).Some? then 1 else 0) + (if DxyChange(macro).Some? then 1 else 0)
      && (forall k :: 0 <= k < |sub| ==> 0.0 <= sub[k].score <= 100.0)
      && Text.IsSubsequence(Labels(sub), ["F&G", "VIX", "TNX", "DXY"])
      && (fearGreed.Some? ==> sub[0].key == "fg")
  {
    var es := LabelledEntries(fearGreed, vix, macro);
    SameEntries(fearGreed, vix, macro);
    var sub := SubScores(es);
    var ws := Weights(es);
    assert forall k :: 0 <= k < |sub| ==> sub[k].score == ws[k].score;
    NamesOfSubScores(es);
    EntryNames(fearGreed, vix, macro);
  }

  /** The entries' names are the present signals' labels, in the fixed order. */
  lemma EntryNames(fearGreed: Option<FearGreedData>, vix: Option<VixData>, macro: seq<MacroItem>)
    ensures Text.IsSubsequence(Names(LabelledEntries(fearGreed, vix, macro)), ["F&G", "VIX", "TNX", "DXY"])
  {
    NamesOfParts(FgEntry(fearGreed), VixEntry(vix), TnxEntry(macro), DxyEntry(macro));
  }

  lemma NamesOfParts(e1: Option<LabelledEntry>, e2: Option<LabelledEntry>, e3: Option<LabelledEntry>, e4: Option<LabelledEntry>)
    requires e1.Some? ==> e1.value.name == "F&G"
    requires e2.Some? ==> e2.value.name == "VIX"
    requires e3.Some? ==> e3.value.name == "TNX"
    requires e4.Some? ==> e4.value.name == "DXY"
    ensures Text.IsSubsequence(Names(Part(e1) + Part(e2) + Part(e3) + Part(e4)), ["F&G", "VIX", "TNX", "DXY"])
  {
    var p1, p2, p3, p4 := Part(e1), Part(e2), Part(e3), Part(e4);
    NamesAppend(p1, p2);
    NamesAppend(p1 + p2, p3);
    NamesAppend(p1 + p2 + p3, p4);
    NamesOfPart(e1);
    NamesOfPart(e2);
    NamesOfPart(e3);
    NamesOfPart(e4);
    FourFlags(e1.Some?, e2.Some?, e3.Some?, e4.Some?);
  }

  lemma NamesOfPart(e: Option<LabelledEntry>)
    ensures Names(Part(e)) == if e.Some? then [e.value.name] else []
  {
    if e.Some? {
      assert Part(e)[1..] == [];
    }
  }

  /** The names of labelled entries, in order. */
  function Names(es: seq<LabelledEntry>): seq<string> {
    if es == [] then [] else [es[0].name] + Names(es[1..])
  }

  lemma {:induction false} NamesAppend(a: seq<LabelledEntry>, b: seq<LabelledEntry>)
    ensures Names(a + b) == Names(a) + Names(b)
  {
    if a == [] {
      assert a + b == b;
    } else {
      assert (a + b)[1..] == a[1..] + b;
      NamesAppend(a[1..], b);
    }
  }

  lemma {:induction false} NamesOfSubScores(es: seq<LabelledEntry>)
    ensures Labels(SubScores(es)) == Names(es)
  {
    if es != [] {
      NamesOfSubScores(es[1..]);
      assert SubScores(es)[1..] == SubScores(es[1..]);
    }
  }

  function Labels(sub: seq<SubScore>): (r: seq<string>)
    ensures |r| == |sub| && forall k :: 0 <= k < |sub| ==> r[k] == sub[k].name
  {
    if sub == [] then [] else [sub[0].name] + Labels(sub[1..])
  }

  lemma FourFlags(a: bool, b: bool, c: bool, d: bool)
    ensures Text.IsSubsequence(
      (if a then ["F&G"] else []) + (if b then ["VIX"] else []) + (if c then ["TNX"] else []) + (if d then ["DXY"] else []),
      ["F&G", "VIX", "TNX", "DXY"])
  {
  }

  /** `getLevel`: the thermometer band of a score (an index into its `LEVELS` table). */
  method GetLevel(score: real) returns (band: nat)
    ensures band == Bands.FirstBand(Bands.LevelMaxes, score)
    ensures band < |Bands.LevelMaxes|
    ensures score > 100.0 ==> band == |Bands.LevelMaxes| - 1
    ensures score <= Bands.LevelMaxes[band] as real || score > 100.0
  {
    band := Bands.Scan(Bands.LevelMaxes, score);
  }
}
