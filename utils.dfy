/** The shared helpers: the sentiment and VIX classifiers and the
    average-cost position of a list of trades. */
module Utils {

  // ---------------------------------------------------------------------------
  // Classifiers
  // ---------------------------------------------------------------------------

  datatype SentimentLevel = ExtremeFear | Fear | Neutral | Greed | ExtremeGreed {
    /** Position from the most fearful level. */
    function Rank(): nat {
      match this
      case ExtremeFear => 0
      case Fear => 1
      case Neutral => 2
      case Greed => 3
      case ExtremeGreed => 4
    }
  }

  /** 1 when `x` lies above `bound`, else 0. */
  function Above(bound: real, x: real): nat {
    if bound < x then 1 else 0
  }

  /** 1 when `x` reaches `bound`, else 0. */
  function Reaches(bound: real, x: real): nat {
    if bound <= x then 1 else 0
  }

  /** `getSentimentLevel`: the inclusive upper bounds 20, 40, 60 and 80 cut the scale in five. */
  function GetSentimentLevel(score: real): (r: SentimentLevel)
    ensures r.Rank() == Above(20.0, score) + Above(40.0, score) + Above(60.0, score) + Above(80.0, score)
  {
    if score <= 20.0 then ExtremeFear
    else if score <= 40.0 then Fear
    else if score <= 60.0 then Neutral
    else if score <= 80.0 then Greed
    else ExtremeGreed
  }

  /** A higher score never gives a more fearful level. */
  lemma SentimentMonotone(a: real, b: real)
    requires a <= b
    ensures GetSentimentLevel(a).Rank() <= GetSentimentLevel(b).Rank()
  {
  }

  datatype VixLevel = Low | Normal | Elevated | Extreme {
    function Rank(): nat {
      match this
      case Low => 0
      case Normal => 1
      case Elevated => 2
      case Extreme => 3
    }

    function Label(): string {
      match this
      case Low => "Low"
      case Normal => "Normal"
      case Elevated => "Elevated"
      case Extreme => "Extreme"
    }

    function Color(): string {
      match this
      case Low => "#00ff87"
      case Normal => "#ffaa00"
      case Elevated => "#ff6644"
      case Extreme => "#ff3366"
    }
  }

  /** `getVIXLevel`: the strict bounds 12, 20 and 30; a bound itself falls in the higher level. */
  function GetVixLevel(value: real): (r: VixLevel)
    ensures r.Rank() == Reaches(12.0, value) + Reaches(20.0, value) + Reaches(30.0, value)
  {
    if value < 12.0 then Low
    else if value < 20.0 then Normal
    else if value < 30.0 then Elevated
    else Extreme
  }

  /** A higher VIX never gives a calmer level. */
  lemma VixLevelMonotone(a: real, b: real)
    requires a <= b
    ensures GetVixLevel(a).Rank() <= GetVixLevel(b).Rank()
  {
  }

  // ---------------------------------------------------------------------------
  // String order
  // ---------------------------------------------------------------------------

  /** `a.localeCompare(b) < 0`, taken as code-point order: a proper prefix, or
      a smaller character at the first difference. */
  predicate StrLess(a: string, b: string)
    decreases |a|
  {
    if a == [] then b != []
    else if b == [] then false
    else if a[0] != b[0] then a[0] < b[0]
    else StrLess(a[1..], b[1..])
  }

  lemma {:induction false} StrLessIrreflexive(a: string)
    ensures !StrLess(a, a)
    decreases |a|
  {
    if a != [] {
      StrLessIrreflexive(a[1..]);
    }
  }

  lemma {:induction false} StrLessTransitive(a: string, b: string, c: string)
    requires StrLess(a, b) && StrLess(b, c)
    ensures StrLess(a, c)
    decreases |a|
  {
    if a != [] && b != [] && c != [] && a[0] == b[0] && b[0] == c[0] {
      StrLessTransitive(a[1..], b[1..], c[1..]);
    }
  }

  lemma {:induction false} StrLessTotal(a: string, b: string)
    ensures a == b || StrLess(a, b) || StrLess(b, a)
    decreases |a|
  {
    if a != [] && b != [] && a[0] == b[0] {
      StrLessTotal(a[1..], b[1..]);
      if a[1..] == b[1..] {
        assert a == [a[0]] + a[1..] && b == [b[0]] + b[1..];
      }
    }
  }

  // ---------------------------------------------------------------------------
  // Trades
  // ---------------------------------------------------------------------------

  datatype TradeKind = Buy | Sell

  datatype Trade = Trade(id: string, kind: TradeKind, date: string, price: real, quantity: real)

  /** The sort comparator is negative: `x` is due before `y` by date, then by id. */
  predicate Before(x: Trade, y: Trade) {
    StrLess(x.date, y.date) || (x.date == y.date && StrLess(x.id, y.id))
  }

  lemma BeforeIrreflexive(x: Trade)
    ensures !Before(x, x)
  {
    StrLessIrreflexive(x.date);
    StrLessIrreflexive(x.id);
  }

  lemma BeforeTransitive(x: Trade, y: Trade, z: Trade)
    requires Before(x, y) && Before(y, z)
    ensures Before(x, z)
  {
    if StrLess(x.date, y.date) && StrLess(y.date, z.date) {
      StrLessTransitive(x.date, y.date, z.date);
    } else if x.date == y.date && y.date == z.date {
      StrLessTransitive(x.id, y.id, z.id);
    }
  }

  /** Either one is due first, or both have the same date and id. */
  lemma BeforeTotal(x: Trade, y: Trade)
    ensures Before(x, y) || Before(y, x) || (x.date == y.date && x.id == y.id)
  {
    StrLessTotal(x.date, y.date);
    StrLessTotal(x.id, y.id);
  }

  predicate Sorted(s: seq<Trade>) {
    forall i, j :: 0 <= i < j < |s| ==> !Before(s[j], s[i])
  }

  /** Puts `x` after every trade not due after it: a stable insertion. */
  function Insert(x: Trade, s: seq<Trade>): (r: seq<Trade>)
    ensures multiset(r) == multiset(s) + multiset{x}
    ensures |r| == |s| + 1
  {
    if s == [] then [x]
    else if Before(x, s[|s| - 1]) then
      assert s == s[..|s| - 1] + [s[|s| - 1]];
      Insert(x, s[..|s| - 1]) + [s[|s| - 1]]
    else s + [x]
  }

  lemma {:induction false} InsertSorted(x: Trade, s: seq<Trade>)
    requires Sorted(s)
    ensures Sorted(Insert(x, s))
    decreases |s|
  {
    if s != [] {
      var last := s[|s| - 1];
      var init := s[..|s| - 1];
      if Before(x, last) {
        InsertSorted(x, init);
        var r := Insert(x, init);
        forall i | 0 <= i < |r|
          ensures !Before(last, r[i])
        {
          assert r[i] in multiset(r);
          if r[i] == x {
            if Before(last, x) {
              BeforeTransitive(x, last, x);
              BeforeIrreflexive(x);
            }
          } else {
            assert r[i] in multiset(init);
            var k :| 0 <= k < |init| && init[k] == r[i];
            assert s[k] == r[i];
          }
        }
      } else {
        forall i | 0 <= i < |s|
          ensures !Before(x, s[i])
        {
          if Before(x, s[i]) && i < |s| - 1 {
            BeforeTotal(s[i], last);
            if Before(s[i], last) {
              BeforeTransitive(x, s[i], last);
            }
          }
        }
      }
    }
  }

  /** `[...trades].sort(cmp)`: the trades by ascending date, then id; equal keys keep their order. */
  function SortTrades(trades: seq<Trade>): (r: seq<Trade>)
    ensures multiset(r) == multiset(trades)
    ensures |r| == |trades|
  {
    if trades == [] then []
    else
      assert trades == trades[..|trades| - 1] + [trades[|trades| - 1]];
      Insert(trades[|trades| - 1], SortTrades(trades[..|trades| - 1]))
  }

  lemma {:induction false} SortTradesSorted(trades: seq<Trade>)
    ensures Sorted(SortTrades(trades))
  {
    if trades != [] {
      SortTradesSorted(trades[..|trades| - 1]);
      InsertSorted(trades[|trades| - 1], SortTrades(trades[..|trades| - 1]));
    }
  }

  /** No two distinct trades among `m` share a date and an id. */
  predicate KeysUnique(m: multiset<Trade>) {
    forall x, y :: x in m && y in m && x.date == y.date && x.id == y.id ==> x == y
  }

  /** The first trade of a sorted sequence is due no later than any of its trades. */
  lemma SortedHeadFirst(s: seq<Trade>, y: Trade)
    requires Sorted(s) && y in multiset(s)
    ensures !Before(y, s[0])
  {
    var k :| 0 <= k < |s| && s[k] == y;
    if k == 0 {
      BeforeIrreflexive(y);
    }
  }

  /** Sorted sequences of the same trades start with the same trade when the keys are unique. */
  lemma SameHead(s: seq<Trade>, t: seq<Trade>)
    requires s != [] && t != [] && Sorted(s) && Sorted(t)
    requires multiset(s) == multiset(t) && KeysUnique(multiset(s))
    ensures s[0] == t[0]
  {
    assert t[0] in multiset(t);
    assert s[0] in multiset(s);
    SortedHeadFirst(s, t[0]);
    SortedHeadFirst(t, s[0]);
    BeforeTotal(s[0], t[0]);
  }

  lemma TailKeysUnique(s: seq<Trade>)
    requires s != [] && KeysUnique(multiset(s))
    ensures KeysUnique(multiset(s[1..]))
  {
    assert s == [s[0]] + s[1..];
    assert multiset(s[1..]) <= multiset(s);
  }

  lemma SortedTail(s: seq<Trade>)
    requires s != [] && Sorted(s)
    ensures Sorted(s[1..])
  {
    forall i, j | 0 <= i < j < |s| - 1
      ensures !Before(s[1..][j], s[1..][i])
    {
      assert s[1..][j] == s[j + 1] && s[1..][i] == s[i + 1];
    }
  }

  /** Sorted sequences of the same trades are the same when the keys are unique. */
  lemma {:induction false} SortedUnique(s: seq<Trade>, t: seq<Trade>)
    requires Sorted(s) && Sorted(t) && multiset(s) == multiset(t) && KeysUnique(multiset(s))
    ensures s == t
    decreases |s|
  {
    assert |t| == |multiset(t)| == |multiset(s)| == |s|;
    if s != [] {
      SameHead(s, t);
      SameTails(s, t);
      TailKeysUnique(s);
      SortedTail(s);
      SortedTail(t);
      SortedUnique(s[1..], t[1..]);
      assert s == [s[0]] + s[1..] && t == [t[0]] + t[1..];
    }
  }

  lemma SameTails(s: seq<Trade>, t: seq<Trade>)
    requires s != [] && t != [] && s[0] == t[0] && multiset(s) == multiset(t)
    ensures multiset(s[1..]) == multiset(t[1..])
  {
    assert s == [s[0]] + s[1..];
    assert t == [t[0]] + t[1..];
    assert multiset(s[1..]) == multiset(s) - multiset{s[0]};
    assert multiset(t[1..]) == multiset(t) - multiset{t[0]};
  }

  // ---------------------------------------------------------------------------
  // Average-cost position
  // ---------------------------------------------------------------------------

  /** The running totals of the replay loop. */
  datatype Ledger = Ledger(totalQty: real, totalCost: real, realizedPL: real)

  datatype Position = Position(avgCost: real, totalQty: real, realizedPL: real, investedAmount: real)

  function Min(a: real, b: real): real {
    if a <= b then a else b
  }

  /** `totalQty > 0 ? totalCost / totalQty : 0`. */
  function AvgCost(l: Ledger): real {
    if l.totalQty > 0.0 then l.totalCost / l.totalQty else 0.0
  }

  /** One trade of the replay loop: a buy adds its cost and quantity; a sell
      removes at most the held quantity at the average cost and books the
      difference to its price as realised profit. */
  function Step(l: Ledger, t: Trade): Ledger {
    match t.kind
    case Buy => Ledger(l.totalQty + t.quantity, l.totalCost + Cost(t), l.realizedPL)
    case Sell =>
      var avg := AvgCost(l);
      var sellQty := Min(t.quantity, l.totalQty);
      Ledger(l.totalQty - sellQty, l.totalCost - avg * sellQty, l.realizedPL + (t.price - avg) * sellQty)
  }

  /** What a buy adds to the invested amount. */
  function Cost(t: Trade): real {
    t.price * t.quantity
  }

  /** The totals after the first `n` trades. */
  function Replay(ts: seq<Trade>, n: nat): Ledger
    requires n <= |ts|
  {
    if n == 0 then Ledger(0.0, 0.0, 0.0) else Step(Replay(ts, n - 1), ts[n - 1])
  }

  function Summary(l: Ledger): Position {
    Position(AvgCost(l), l.totalQty, l.realizedPL, l.totalCost)
  }

  function PositionOf(trades: seq<Trade>): Position {
    var sorted := SortTrades(trades);
    Summary(Replay(sorted, |sorted|))
  }

  /** `calcPosition`: replays the trades in date order. */
  method CalcPosition(trades: seq<Trade>) returns (r: Position)
    ensures r == PositionOf(trades)
    ensures r.totalQty > 0.0 ==> r.avgCost == r.investedAmount / r.totalQty
    ensures r.totalQty <= 0.0 ==> r.avgCost == 0.0
  {
    var sorted := SortTrades(trades);
    var totalQty, totalCost, realizedPL := 0.0, 0.0, 0.0;
    for i := 0 to |sorted|
      invariant Ledger(totalQty, totalCost, realizedPL) == Replay(sorted, i)
    {
      // The buy or sell branch of the loop body, as `Step` states it.
      var next := Step(Ledger(totalQty, totalCost, realizedPL), sorted[i]);
      totalQty, totalCost, realizedPL := next.totalQty, next.totalCost, next.realizedPL;
    }
    var avgCost := if totalQty > 0.0 then totalCost / totalQty else 0.0;
    r := Position(avgCost, totalQty, realizedPL, totalCost);
  }

  /** For distinct (date, id) keys the position does not depend on the order of the trades. */
  lemma PositionOrderIndependent(a: seq<Trade>, b: seq<Trade>)
    requires multiset(a) == multiset(b) && KeysUnique(multiset(a))
    ensures PositionOf(a) == PositionOf(b)
  {
    SortTradesSorted(a);
    SortTradesSorted(b);
    SortedUnique(SortTrades(a), SortTrades(b));
  }

  predicate BuysNonNegative(ts: seq<Trade>) {
    forall k :: 0 <= k < |ts| && ts[k].kind == Buy ==> ts[k].quantity >= 0.0
  }

  lemma {:induction false} ReplayQtyNonNegative(ts: seq<Trade>, n: nat)
    requires n <= |ts| && BuysNonNegative(ts)
    ensures Replay(ts, n).totalQty >= 0.0
  {
    if n > 0 {
      ReplayQtyNonNegative(ts, n - 1);
    }
  }

  /** The held quantity never goes negative: a sell removes at most what is held. */
  lemma PositionQtyNonNegative(trades: seq<Trade>)
    requires BuysNonNegative(trades)
    ensures PositionOf(trades).totalQty >= 0.0
  {
    var sorted := SortTrades(trades);
    forall k | 0 <= k < |sorted| && sorted[k].kind == Buy
      ensures sorted[k].quantity >= 0.0
    {
      assert sorted[k] in multiset(trades);
    }
    ReplayQtyNonNegative(sorted, |sorted|);
  }

  /** Selling part of a holding leaves the average cost where it was. */
  lemma SellKeepsAverage(l: Ledger, t: Trade)
    requires t.kind == Sell && 0.0 <= t.quantity < l.totalQty
    ensures AvgCost(Step(l, t)) == AvgCost(l)
  {
    var q, c := l.totalQty, l.totalCost;
    var a := c / q;
    var s := t.quantity;
    assert Step(l, t) == Ledger(q - s, c - a * s, l.realizedPL + (t.price - a) * s);
    assert c == a * q;
    assert c - a * s == a * (q - s);
    MulDiv(a, q - s);
  }

  lemma MulDiv(a: real, d: real)
    requires d != 0.0
    ensures (a * d) / d == a
  {
  }

  /** Selling at least the whole holding clears quantity and cost. */
  lemma SellAllClears(l: Ledger, t: Trade)
    requires t.kind == Sell && l.totalQty > 0.0 && t.quantity >= l.totalQty
    ensures Step(l, t).totalQty == 0.0 && Step(l, t).totalCost == 0.0
    ensures Step(l, t).realizedPL == l.realizedPL + (t.price - AvgCost(l)) * l.totalQty
  {
    assert l.totalCost / l.totalQty * l.totalQty == l.totalCost;
  }

  function SumQty(ts: seq<Trade>): real {
    if ts == [] then 0.0 else SumQty(ts[..|ts| - 1]) + ts[|ts| - 1].quantity
  }

  function SumCost(ts: seq<Trade>): real {
    if ts == [] then 0.0 else SumCost(ts[..|ts| - 1]) + Cost(ts[|ts| - 1])
  }

  predicate AllBuys(ts: seq<Trade>) {
    forall k :: 0 <= k < |ts| ==> ts[k].kind == Buy
  }

  lemma {:induction false} ReplayBuys(ts: seq<Trade>, n: nat)
    requires n <= |ts| && AllBuys(ts)
    ensures Replay(ts, n) == Ledger(SumQty(ts[..n]), SumCost(ts[..n]), 0.0)
  {
    if n > 0 {
      ReplayBuys(ts, n - 1);
      assert ts[..n][..n - 1] == ts[..n - 1];
    }
  }

  lemma {:induction false} SumsInsert(x: Trade, s: seq<Trade>)
    ensures SumQty(Insert(x, s)) == SumQty(s) + x.quantity
    ensures SumCost(Insert(x, s)) == SumCost(s) + Cost(x)
    decreases |s|
  {
    if s != [] && Before(x, s[|s| - 1]) {
      var init := s[..|s| - 1];
      SumsInsert(x, init);
      var r := Insert(x, s);
      assert r[..|r| - 1] == Insert(x, init) && r[|r| - 1] == s[|s| - 1];
    } else if s != [] {
      var r := Insert(x, s);
      assert r[..|r| - 1] == s;
    }
  }

  /** Sorting keeps the summed quantity and cost. */
  lemma {:induction false} SumsSort(ts: seq<Trade>)
    ensures SumQty(SortTrades(ts)) == SumQty(ts) && SumCost(SortTrades(ts)) == SumCost(ts)
  {
    if ts != [] {
      SumsSort(ts[..|ts| - 1]);
      SumsInsert(ts[|ts| - 1], SortTrades(ts[..|ts| - 1]));
    }
  }

  /** With buys only, the position holds the summed quantities and costs and no realised profit. */
  lemma BuysOnlyPosition(trades: seq<Trade>)
    requires AllBuys(trades)
    ensures PositionOf(trades).totalQty == SumQty(trades)
    ensures PositionOf(trades).investedAmount == SumCost(trades)
    ensures PositionOf(trades).realizedPL == 0.0
  {
    var sorted := SortTrades(trades);
    forall k | 0 <= k < |sorted|
      ensures sorted[k].kind == Buy
    {
      assert sorted[k] in multiset(trades);
    }
    ReplayBuys(sorted, |sorted|);
    assert sorted[..|sorted|] == sorted;
    SumsSort(trades);
  }
}
