/** The watchlist table: ordering the ticker rows by the saved order, the
    drag-to-reorder and swipe-to-pin list edits, the per-row swipe gesture and
    the cost-basis editor. */
module TickerTable {
  import opened Wrappers
  import opened Numeric
  import opened Text
  import MarketRoute

  type TickerData = MarketRoute.TickerData

  // ---------------------------------------------------------------------------
  // Ordering the rows
  // ---------------------------------------------------------------------------

  /** Rank of a symbol missing from the saved order. */
  const MissingRank := 999

  /** `tickerOrder.indexOf(symbol)`, or 999 for a symbol missing from the order. */
  function Rank(order: seq<string>, symbol: string): (r: nat)
    ensures symbol !in order ==> r == MissingRank
    ensures symbol in order ==> r < |order| && order[r] == symbol && symbol !in order[..r]
  {
    var i := IndexOf(order, symbol);
    if i == -1 then MissingRank else i
  }

  function RankOf(order: seq<string>, t: TickerData): nat {
    Rank(order, t.quote.symbol)
  }

  predicate SortedByRank(order: seq<string>, s: seq<TickerData>) {
    forall i, j :: 0 <= i < j < |s| ==> RankOf(order, s[i]) <= RankOf(order, s[j])
  }

  /** Puts `x` after every row of rank at most its own, so ties keep their order. */
  function InsertByRank(order: seq<string>, x: TickerData, s: seq<TickerData>): (r: seq<TickerData>)
    ensures multiset(r) == multiset(s) + multiset{x}
    ensures |r| == |s| + 1
  {
    if s == [] then [x]
    else if RankOf(order, x) < RankOf(order, s[|s| - 1]) then
      assert s == s[..|s| - 1] + [s[|s| - 1]];
      InsertByRank(order, x, s[..|s| - 1]) + [s[|s| - 1]]
    else s + [x]
  }

  /** `[...tickers].sort((a, b) => rank(a) - rank(b))`, a stable sort. */
  function SortByRank(order: seq<string>, ts: seq<TickerData>): (r: seq<TickerData>)
    ensures multiset(r) == multiset(ts)
    ensures |r| == |ts|
  {
    if ts == [] then []
    else
      assert ts == ts[..|ts| - 1] + [ts[|ts| - 1]];
      InsertByRank(order, ts[|ts| - 1], SortByRank(order, ts[..|ts| - 1]))
  }

  /** `sortedTickers`: the rows by the saved order when there is one, else as given. */
  function SortedTickers(tickers: seq<TickerData>, tickerOrder: Option<seq<string>>): (r: seq<TickerData>)
    ensures multiset(r) == multiset(tickers)
    ensures tickerOrder.None? ==> r == tickers
  {
    match tickerOrder
    case None => tickers
    case Some(order) => SortByRank(order, tickers)
  }

  /** Every row ranks at most `k`. */
  predicate RanksAtMost(order: seq<string>, s: seq<TickerData>, k: nat) {
    forall i :: 0 <= i < |s| ==> RankOf(order, s[i]) <= k
  }

  lemma {:induction false} InsertRanksAtMost(order: seq<string>, x: TickerData, s: seq<TickerData>, k: nat)
    requires RanksAtMost(order, s, k) && RankOf(order, x) <= k
    ensures RanksAtMost(order, InsertByRank(order, x, s), k)
    decreases |s|
  {
    if s != [] && RankOf(order, x) < RankOf(order, s[|s| - 1]) {
      var init := s[..|s| - 1];
      assert RanksAtMost(order, init, k) by {
        forall i | 0 <= i < |init| ensures RankOf(order, init[i]) <= k {
          assert init[i] == s[i];
        }
      }
      InsertRanksAtMost(order, x, init, k);
    }
  }

  lemma {:induction false} InsertByRankSorted(order: seq<string>, x: TickerData, s: seq<TickerData>)
    requires SortedByRank(order, s)
    ensures SortedByRank(order, InsertByRank(order, x, s))
    decreases |s|
  {
    if s != [] {
      var last := s[|s| - 1];
      var init := s[..|s| - 1];
      var lr := RankOf(order, last);
      if RankOf(order, x) < lr {
        assert SortedByRank(order, init) by {
          forall i, j | 0 <= i < j < |init| ensures RankOf(order, init[i]) <= RankOf(order, init[j]) {
            assert init[i] == s[i] && init[j] == s[j];
          }
        }
        assert RanksAtMost(order, init, lr) by {
          forall i | 0 <= i < |init| ensures RankOf(order, init[i]) <= lr {
            assert init[i] == s[i];
          }
        }
        InsertByRankSorted(order, x, init);
        InsertRanksAtMost(order, x, init, lr);
        var m := InsertByRank(order, x, init);
        var r := m + [last];
        assert InsertByRank(order, x, s) == r;
        forall i, j | 0 <= i < j < |r| ensures RankOf(order, r[i]) <= RankOf(order, r[j]) {
          if j < |m| {
            assert r[i] == m[i] && r[j] == m[j];
          } else {
            assert r[i] == m[i] && r[j] == last;
          }
        }
      } else {
        var r := s + [x];
        assert InsertByRank(order, x, s) == r;
        forall i, j | 0 <= i < j < |r| ensures RankOf(order, r[i]) <= RankOf(order, r[j]) {
          if j < |s| {
            assert r[i] == s[i] && r[j] == s[j];
          } else if i < |s| - 1 {
            assert r[i] == s[i] && r[j] == x;
            assert RankOf(order, s[i]) <= lr;
          } else {
            assert r[i] == last && r[j] == x;
          }
        }
      }
    }
  }

  /** The rows come out in ascending rank. */
  lemma {:induction false} SortByRankSorted(order: seq<string>, ts: seq<TickerData>)
    ensures SortedByRank(order, SortByRank(order, ts))
  {
    if ts != [] {
      SortByRankSorted(order, ts[..|ts| - 1]);
      InsertByRankSorted(order, ts[|ts| - 1], SortByRank(order, ts[..|ts| - 1]));
    }
  }

  /** The rows of rank `k`, in their order in `s`. */
  function OfRank(order: seq<string>, s: seq<TickerData>, k: nat): (r: seq<TickerData>)
    ensures |r| <= |s|
  {
    if s == [] then []
    else OfRank(order, s[..|s| - 1], k) + Keep(order, s[|s| - 1], k)
  }

  /** The one-row part of `OfRank`. */
  function Keep(order: seq<string>, t: TickerData, k: nat): seq<TickerData> {
    if RankOf(order, t) == k then [t] else []
  }

  lemma OfRankSnoc(order: seq<string>, s: seq<TickerData>, t: TickerData, k: nat)
    ensures OfRank(order, s + [t], k) == OfRank(order, s, k) + Keep(order, t, k)
  {
    assert (s + [t])[..|s|] == s;
  }

  /** The step of `InsertOfRank` where `x` goes before the last row `last`, with
      `m` the insertion of `x` into the rows before it. */
  lemma InsertOfRankStep(order: seq<string>, x: TickerData, init: seq<TickerData>, m: seq<TickerData>, last: TickerData, k: nat)
    requires RankOf(order, x) < RankOf(order, last)
    requires OfRank(order, m, k) == OfRank(order, init, k) + Keep(order, x, k)
    ensures OfRank(order, m + [last], k) == OfRank(order, init + [last], k) + Keep(order, x, k)
  {
    var a, kx, kl := OfRank(order, init, k), Keep(order, x, k), Keep(order, last, k);
    OfRankSnoc(order, m, last, k);
    OfRankSnoc(order, init, last, k);
    // At most one of `x` and `last` has rank `k`, so their order does not matter.
    if kx == [] {
      assert a + kx + kl == a + kl + kx;
    } else {
      assert kl == [];
      assert a + kx + kl == a + kl + kx;
    }
  }

  lemma {:induction false} InsertOfRank(order: seq<string>, x: TickerData, s: seq<TickerData>, k: nat)
    ensures OfRank(order, InsertByRank(order, x, s), k) == OfRank(order, s, k) + Keep(order, x, k)
    decreases |s|
  {
    if s == [] {
      OfRankSnoc(order, [], x, k);
    } else {
      var last := s[|s| - 1];
      var init := s[..|s| - 1];
      assert s == init + [last];
      if RankOf(order, x) < RankOf(order, last) {
        InsertOfRank(order, x, init, k);
        InsertOfRankStep(order, x, init, InsertByRank(order, x, init), last, k);
      } else {
        OfRankSnoc(order, s, x, k);
      }
    }
  }

  /** Stability: the rows sharing a rank keep their input order. */
  lemma {:induction false} SortByRankStable(order: seq<string>, ts: seq<TickerData>, k: nat)
    ensures OfRank(order, SortByRank(order, ts), k) == OfRank(order, ts, k)
  {
    if ts != [] {
      SortByRankStable(order, ts[..|ts| - 1], k);
      InsertOfRank(order, ts[|ts| - 1], SortByRank(order, ts[..|ts| - 1]), k);
    }
  }

  // ---------------------------------------------------------------------------
  // Editing the saved order
  // ---------------------------------------------------------------------------

  /** `order.splice(i, 1)`. */
  function RemoveAt<T>(s: seq<T>, i: nat): (r: seq<T>)
    requires i < |s|
    ensures |r| == |s| - 1
  {
    s[..i] + s[i + 1..]
  }

  /** `order.splice(i, 0, x)`; at `|s|` it appends. */
  function InsertAt<T>(s: seq<T>, i: nat, x: T): (r: seq<T>)
    requires i <= |s|
    ensures |r| == |s| + 1
  {
    s[..i] + [x] + s[i..]
  }

  /** Takes the element at `from` out and puts it back in at `to`. */
  function Move<T>(s: seq<T>, from: nat, to: nat): (r: seq<T>)
    requires from < |s| && to < |s|
    ensures |r| == |s|
  {
    InsertAt(RemoveAt(s, from), to, s[from])
  }

  /** A moved element lands at its target, and the others keep their relative order. */
  lemma MoveLands<T>(s: seq<T>, from: nat, to: nat)
    requires from < |s| && to < |s|
    ensures Move(s, from, to)[to] == s[from]
    ensures RemoveAt(Move(s, from, to), to) == RemoveAt(s, from)
    ensures multiset(Move(s, from, to)) == multiset(s)
  {
    var rest := RemoveAt(s, from);
    var r := Move(s, from, to);
    assert r == rest[..to] + [s[from]] + rest[to..];
    assert r[..to] == rest[..to] && r[to + 1..] == rest[to..];
    assert rest[..to] + rest[to..] == rest;
    calc {
      multiset(r);
      multiset(rest[..to]) + multiset{s[from]} + multiset(rest[to..]);
      multiset(rest) + multiset{s[from]};
      { assert s == s[..from] + [s[from]] + s[from + 1..]; }
      multiset(s);
    }
  }

  lemma InsertRemoveAt<T>(s: seq<T>, i: nat)
    requires i < |s|
    ensures InsertAt(RemoveAt(s, i), i, s[i]) == s
  {
    var rest := RemoveAt(s, i);
    assert rest[..i] == s[..i] && rest[i..] == s[i + 1..];
  }

  /** Moving back undoes a move. */
  lemma MoveInverse<T>(s: seq<T>, from: nat, to: nat)
    requires from < |s| && to < |s|
    ensures Move(Move(s, from, to), to, from) == s
  {
    MoveLands(s, from, to);
    InsertRemoveAt(s, from);
  }

  /** Moving an element onto its own place changes nothing. */
  lemma MoveInPlace<T>(s: seq<T>, i: nat)
    requires i < |s|
    ensures Move(s, i, i) == s
  {
    InsertRemoveAt(s, i);
  }

  /** The order `handleDragEnd` hands to `onReorder`: the dragged symbol moved to
      the index the target held, or nothing when either symbol is missing. */
  function DragReorder(order: seq<string>, drag: string, over: string): Option<seq<string>> {
    var fromIdx, toIdx := IndexOf(order, drag), IndexOf(order, over);
    if fromIdx != -1 && toIdx != -1 then Some(Move(order, fromIdx, toIdx)) else None
  }

  /** A drag reorders exactly when both symbols are listed; the result is a
      permutation with the dragged symbol at the target's old index, the other
      symbols in their old relative order. */
  lemma DragReorderMeaning(order: seq<string>, drag: string, over: string)
    ensures DragReorder(order, drag, over).Some? <==> drag in order && over in order
    ensures DragReorder(order, drag, over).Some? ==>
      var r := DragReorder(order, drag, over).value;
      && |r| == |order|
      && multiset(r) == multiset(order)
      && r[IndexOf(order, over)] == drag
      && RemoveAt(r, IndexOf(order, over)) == RemoveAt(order, IndexOf(order, drag))
    ensures drag == over ==> DragReorder(order, drag, over) == (if drag in order then Some(order) else None)
  {
    if drag in order && over in order {
      MoveLands(order, IndexOf(order, drag), IndexOf(order, over));
    }
    if drag == over && drag in order {
      MoveInPlace(order, IndexOf(order, drag));
    }
  }

  /** The two `splice` calls of `handleDragEnd` on a copy of the order. */
  method Reorder(tickerOrder: seq<string>, drag: string, over: string) returns (r: Option<seq<string>>)
    ensures r == DragReorder(tickerOrder, drag, over)
  {
    var order := tickerOrder;
    var fromIdx := IndexOf(order, drag);
    var toIdx := IndexOf(order, over);
    if fromIdx != -1 && toIdx != -1 {
      order := order[..fromIdx] + order[fromIdx + 1..];
      order := order[..toIdx] + [drag] + order[toIdx..];
      r := Some(order);
    } else {
      r := None;
    }
  }

  /** The order a right swipe hands to `onReorder`: the symbol moved to the
      front, or nothing when it is already first or missing. */
  function PinToTop(order: seq<string>, symbol: string): Option<seq<string>> {
    var idx := IndexOf(order, symbol);
    if idx > 0 then Some([symbol] + RemoveAt(order, idx)) else None
  }

  lemma PinToTopMeaning(order: seq<string>, symbol: string)
    ensures PinToTop(order, symbol).Some? <==> symbol in order && order[0] != symbol
    ensures PinToTop(order, symbol).Some? ==>
      var r := PinToTop(order, symbol).value;
      && r[0] == symbol
      && r[1..] == RemoveAt(order, IndexOf(order, symbol))
      && r == Move(order, IndexOf(order, symbol), 0)
      && multiset(r) == multiset(order)
  {
    var idx := IndexOf(order, symbol);
    if idx > 0 {
      MoveLands(order, idx, 0);
      var r := PinToTop(order, symbol).value;
      assert r[1..] == RemoveAt(order, idx);
    }
  }

  /** `order.splice(idx, 1); order.unshift(symbol)` on a copy of the order. */
  method Pin(tickerOrder: seq<string>, symbol: string) returns (r: Option<seq<string>>)
    ensures r == PinToTop(tickerOrder, symbol)
  {
    var order := tickerOrder;
    var idx := IndexOf(order, symbol);
    if idx > 0 {
      order := order[..idx] + order[idx + 1..];
      order := [symbol] + order;
      r := Some(order);
    } else {
      r := None;
    }
  }

  // ---------------------------------------------------------------------------
  // The swipe gesture of one row
  // ---------------------------------------------------------------------------

  /** Horizontal distance that pins (right) or asks to delete (left). */
  const SwipeThreshold := 80.0
  /** Distance after which a gesture commits to one axis. */
  const SwipeLockThreshold := 10.0

  datatype Lock = Unlocked | Horizontal | Vertical

  datatype SwipeState = SwipeState(startX: real, startY: real, deltaX: real, locked: Lock, active: bool)

  /** What one pointer move does to a row's gesture: the new state and the
      offset published to `swipeDeltas`, if any. */
  datatype MoveOutcome = MoveOutcome(state: SwipeState, published: Option<real>)

  function SwipeMove(s: SwipeState, clientX: real, clientY: real): (r: MoveOutcome)
    ensures r.state.startX == s.startX && r.state.startY == s.startY
    ensures s.locked != Unlocked ==> r.state.locked == s.locked
    ensures r.published.Some? ==> r.state.locked == Horizontal && r.state.deltaX == r.published.value
  {
    var dx, dy := clientX - s.startX, clientY - s.startY;
    if !s.active then MoveOutcome(s, None)
    else if s.locked == Unlocked && Abs(dx) > SwipeLockThreshold then
      MoveOutcome(s.(locked := Horizontal, deltaX := dx), Some(dx))
    else if s.locked == Unlocked && Abs(dy) > SwipeLockThreshold then
      MoveOutcome(s.(locked := Vertical, active := false), None)
    else if s.locked != Horizontal then MoveOutcome(s, None)
    else MoveOutcome(s.(deltaX := dx), Some(dx))
  }

  /** The axis lock: an unlocked gesture locks horizontally past 10 px of
      horizontal travel, otherwise vertically (and ends) past 10 px of vertical
      travel, otherwise stays as it is; a horizontal gesture follows the pointer. */
  lemma SwipeLocks(s: SwipeState, clientX: real, clientY: real)
    requires s.active
    ensures var dx, dy, r := clientX - s.startX, clientY - s.startY, SwipeMove(s, clientX, clientY);
      && (s.locked == Unlocked && Abs(dx) > 10.0 ==>
            r.state == s.(locked := Horizontal, deltaX := dx) && r.published == Some(dx))
      && (s.locked == Unlocked && Abs(dx) <= 10.0 && Abs(dy) > 10.0 ==>
            r.state.locked == Vertical && !r.state.active && r.published.None?)
      && (s.locked == Unlocked && Abs(dx) <= 10.0 && Abs(dy) <= 10.0 ==>
            r.state == s && r.published.None?)
      && (s.locked == Horizontal ==> r.state == s.(deltaX := dx) && r.published == Some(dx))
      && (s.locked == Vertical ==> r.state == s && r.published.None?)
  {
  }

  /** An ended gesture ignores the pointer. */
  lemma SwipeInactiveIgnored(s: SwipeState, clientX: real, clientY: real)
    requires !s.active
    ensures SwipeMove(s, clientX, clientY) == MoveOutcome(s, None)
  {
  }

  // ---------------------------------------------------------------------------
  // The table's gesture and editor state
  // ---------------------------------------------------------------------------

  /** A JS string is truthy when it is present and not empty. */
  predicate Truthy(s: Option<string>) {
    s.Some? && s.value != ""
  }

  /** The cost basis after saving the edit `raw` for `symbol`: removed when the
      edit is empty or not a positive number, set otherwise. */
  function SaveCost(basis: map<string, real>, symbol: string, raw: string, num: Option<real>): (r: map<string, real>)
    ensures (raw == "" || num.None? || num.value <= 0.0) ==> symbol !in r
    ensures !(raw == "" || num.None? || num.value <= 0.0) ==> symbol in r && r[symbol] == num.value
    ensures forall k :: k != symbol ==> (k in r <==> k in basis)
    ensures forall k :: k != symbol && k in r ==> r[k] == basis[k]
  {
    if raw == "" || num.None? || num.value <= 0.0 then basis - {symbol} else basis[symbol := num.value]
  }

  /** Every saved cost basis is positive. */
  predicate PositiveBasis(basis: map<string, real>) {
    forall k :: k in basis ==> basis[k] > 0.0
  }

  lemma SaveCostKeepsPositive(basis: map<string, real>, symbol: string, raw: string, num: Option<real>)
    requires PositiveBasis(basis)
    ensures PositiveBasis(SaveCost(basis, symbol, raw, num))
  {
  }

  class Table {
    var dragSymbol: Option<string>
    var overSymbol: Option<string>
    var dragPointerId: Option<int>
    var swipes: map<string, SwipeState>
    var swipeDeltas: map<string, real>
    var swipeDidAction: set<string>
    var confirmDelete: Option<string>
    var costBasis: map<string, real>
    var editingCost: map<string, string>
    var expanded: set<string>

    /** The table as mounted, with the cost basis loaded from storage. */
    constructor(loaded: map<string, real>)
      ensures dragSymbol.None? && overSymbol.None? && dragPointerId.None?
      ensures swipes == map[] && swipeDeltas == map[] && swipeDidAction == {}
      ensures confirmDelete.None? && costBasis == loaded && editingCost == map[] && expanded == {}
    {
      dragSymbol, overSymbol, dragPointerId := None, None, None;
      swipes, swipeDeltas, swipeDidAction := map[], map[], {};
      confirmDelete, costBasis, editingCost := None, loaded, map[];
      expanded := {};
    }

    /** `handleDragStart`: the row's handle captures the pointer. */
    method DragStart(symbol: string, pointerId: int)
      modifies this
      ensures dragSymbol == Some(symbol) && overSymbol == Some(symbol) && dragPointerId == Some(pointerId)
      ensures swipes == old(swipes) && swipeDeltas == old(swipeDeltas) && swipeDidAction == old(swipeDidAction)
      ensures confirmDelete == old(confirmDelete) && costBasis == old(costBasis) && editingCost == old(editingCost)
      ensures expanded == old(expanded)
    {
      dragPointerId := Some(pointerId);
      dragSymbol := Some(symbol);
      overSymbol := Some(symbol);
    }

    /** `handleDragEnd`: the order handed to `onReorder`, if any, then the drag is over. */
    method DragEnd(pointerId: int, tickerOrder: Option<seq<string>>, hasOnReorder: bool) returns (reorder: Option<seq<string>>)
      modifies this
      ensures !Truthy(old(dragSymbol)) || old(dragPointerId) != Some(pointerId) ==>
        reorder.None? && dragSymbol == old(dragSymbol) && overSymbol == old(overSymbol) && dragPointerId == old(dragPointerId)
      ensures Truthy(old(dragSymbol)) && old(dragPointerId) == Some(pointerId) ==>
        && dragSymbol.None? && overSymbol.None? && dragPointerId.None?
        && reorder == (if Truthy(old(overSymbol)) && old(overSymbol) != old(dragSymbol) && hasOnReorder && tickerOrder.Some?
                       then DragReorder(tickerOrder.value, old(dragSymbol).value, old(overSymbol).value)
                       else None)
      ensures swipes == old(swipes) && swipeDeltas == old(swipeDeltas) && swipeDidAction == old(swipeDidAction)
      ensures confirmDelete == old(confirmDelete) && costBasis == old(costBasis) && editingCost == old(editingCost)
      ensures expanded == old(expanded)
    {
      reorder := None;
      if !Truthy(dragSymbol) || dragPointerId != Some(pointerId) {
        return;
      }
      if Truthy(overSymbol) && overSymbol != dragSymbol && hasOnReorder && tickerOrder.Some? {
        reorder := Reorder(tickerOrder.value, dragSymbol.value, overSymbol.value);
      }
      dragSymbol := None;
      overSymbol := None;
      dragPointerId := None;
    }

    /** `handleSwipePointerDown`: a new active gesture, unless a drag is in progress. */
    method SwipePointerDown(symbol: string, clientX: real, clientY: real)
      modifies this
      ensures swipes == if Truthy(dragSymbol) then old(swipes)
                        else old(swipes)[symbol := SwipeState(clientX, clientY, 0.0, Unlocked, true)]
      ensures dragSymbol == old(dragSymbol) && overSymbol == old(overSymbol) && dragPointerId == old(dragPointerId)
      ensures swipeDeltas == old(swipeDeltas) && swipeDidAction == old(swipeDidAction)
      ensures confirmDelete == old(confirmDelete) && costBasis == old(costBasis) && editingCost == old(editingCost)
      ensures expanded == old(expanded)
    {
      if Truthy(dragSymbol) {
        return;
      }
      swipes := swipes[symbol := SwipeState(clientX, clientY, 0.0, Unlocked, true)];
    }

    /** `handleSwipePointerMove`: updates the row's gesture in place and publishes its offset. */
    method SwipePointerMove(symbol: string, clientX: real, clientY: real)
      modifies this
      ensures symbol !in old(swipes) ==> swipes == old(swipes) && swipeDeltas == old(swipeDeltas)
      ensures symbol in old(swipes) ==>
        var r := SwipeMove(old(swipes)[symbol], clientX, clientY);
        && swipes == old(swipes)[symbol := r.state]
        && swipeDeltas == (if r.published.Some? then old(swipeDeltas)[symbol := r.published.value] else old(swipeDeltas))
      ensures dragSymbol == old(dragSymbol) && overSymbol == old(overSymbol) && dragPointerId == old(dragPointerId)
      ensures swipeDidAction == old(swipeDidAction)
      ensures confirmDelete == old(confirmDelete) && costBasis == old(costBasis) && editingCost == old(editingCost)
      ensures expanded == old(expanded)
    {
      if symbol !in swipes || !swipes[symbol].active {
        return;
      }
      var state := swipes[symbol];
      var dx := clientX - state.startX;
      var dy := clientY - state.startY;
      if state.locked == Unlocked {
        if Abs(dx) > SwipeLockThreshold {
          state := state.(locked := Horizontal);
          swipes := swipes[symbol := state];
        } else if Abs(dy) > SwipeLockThreshold {
          state := state.(locked := Vertical, active := false);
          swipes := swipes[symbol := state];
          return;
        } else {
          return;
        }
      }
      if state.locked != Horizontal {
        return;
      }
      state := state.(deltaX := dx);
      swipes := swipes[symbol := state];
      swipeDeltas := swipeDeltas[symbol := dx];
    }

    /** `handleSwipePointerUp`: pins on a long right swipe, asks to delete on a
        long left swipe, and always ends the gesture with its offset back at 0. */
    method SwipePointerUp(symbol: string, tickerOrder: Option<seq<string>>, hasOnReorder: bool) returns (reorder: Option<seq<string>>)
      modifies this
      ensures swipes == old(swipes) - {symbol}
      ensures symbol !in old(swipes) || !old(swipes)[symbol].active ==>
        reorder.None? && swipeDeltas == old(swipeDeltas) && swipeDidAction == old(swipeDidAction) && confirmDelete == old(confirmDelete)
      ensures symbol in old(swipes) && old(swipes)[symbol].active ==>
        var s := old(swipes)[symbol];
        var pin := s.deltaX > SwipeThreshold && hasOnReorder && tickerOrder.Some?;
        && swipeDeltas == old(swipeDeltas)[symbol := 0.0]
        && swipeDidAction == (if s.locked == Horizontal && Abs(s.deltaX) > SwipeLockThreshold
                              then old(swipeDidAction) + {symbol} else old(swipeDidAction))
        && reorder == (if pin then PinToTop(tickerOrder.value, symbol) else None)
        && confirmDelete == (if !pin && s.deltaX < -SwipeThreshold then Some(symbol) else old(confirmDelete))
      ensures dragSymbol == old(dragSymbol) && overSymbol == old(overSymbol) && dragPointerId == old(dragPointerId)
      ensures costBasis == old(costBasis) && editingCost == old(editingCost) && expanded == old(expanded)
    {
      reorder := None;
      if symbol !in swipes || !swipes[symbol].active {
        swipes := swipes - {symbol};
        return;
      }
      var state := swipes[symbol];
      var dx := state.deltaX;
      if state.locked == Horizontal && Abs(dx) > SwipeLockThreshold {
        swipeDidAction := swipeDidAction + {symbol};
      }
      if dx > SwipeThreshold && hasOnReorder && tickerOrder.Some? {
        reorder := Pin(tickerOrder.value, symbol);
      } else if dx < -SwipeThreshold {
        confirmDelete := Some(symbol);
      }
      swipes := swipes - {symbol};
      swipeDeltas := swipeDeltas[symbol := 0.0];
    }

    /** `handleCostSave`: applies the pending edit `raw` of a row, parsed by
        `parse` (`parseFloat`, with NaN as nothing), and drops the edit. */
    method CostSave(symbol: string, parse: string -> Option<real>)
      modifies this
      ensures symbol !in old(editingCost) ==> costBasis == old(costBasis) && editingCost == old(editingCost)
      ensures symbol in old(editingCost) ==>
        var raw := old(editingCost)[symbol];
        && costBasis == SaveCost(old(costBasis), symbol, raw, parse(raw))
        && editingCost == old(editingCost) - {symbol}
      ensures PositiveBasis(old(costBasis)) ==> PositiveBasis(costBasis)
      ensures dragSymbol == old(dragSymbol) && overSymbol == old(overSymbol) && dragPointerId == old(dragPointerId)
      ensures swipes == old(swipes) && swipeDeltas == old(swipeDeltas) && swipeDidAction == old(swipeDidAction)
      ensures confirmDelete == old(confirmDelete) && expanded == old(expanded)
    {
      if symbol !in editingCost {
        return;
      }
      var raw := editingCost[symbol];
      var num := parse(raw);
      var next := costBasis;
      if raw == "" || num.None? || num.value <= 0.0 {
        next := next - {symbol};
      } else {
        next := next[symbol := num.value];
      }
      costBasis := next;
      editingCost := editingCost - {symbol};
    }

    /** `toggle`: a tap expands or collapses a row, except during a drag and
        except for the tap that ends a swipe, which it only consumes. */
    method Toggle(symbol: string)
      modifies this
      ensures Truthy(dragSymbol) ==> expanded == old(expanded) && swipeDidAction == old(swipeDidAction)
      ensures !Truthy(dragSymbol) && symbol in old(swipeDidAction) ==>
        expanded == old(expanded) && swipeDidAction == old(swipeDidAction) - {symbol}
      ensures !Truthy(dragSymbol) && symbol !in old(swipeDidAction) ==>
        && swipeDidAction == old(swipeDidAction)
        && (symbol in expanded <==> symbol !in old(expanded))
        && expanded - {symbol} == old(expanded) - {symbol}
      ensures dragSymbol == old(dragSymbol) && overSymbol == old(overSymbol) && dragPointerId == old(dragPointerId)
      ensures swipes == old(swipes) && swipeDeltas == old(swipeDeltas)
      ensures confirmDelete == old(confirmDelete) && costBasis == old(costBasis) && editingCost == old(editingCost)
    {
      if Truthy(dragSymbol) {
        return;
      }
      if symbol in swipeDidAction {
        swipeDidAction := swipeDidAction - {symbol};
        return;
      }
      if symbol in expanded {
        expanded := expanded - {symbol};
      } else {
        expanded := expanded + {symbol};
      }
    }

    /** `handleConfirmDelete`: closes the prompt and returns the symbol handed to `onDelete`. */
    method ConfirmDelete(symbol: string) returns (deleted: string)
      modifies this
      ensures deleted == symbol && confirmDelete.None?
      ensures dragSymbol == old(dragSymbol) && overSymbol == old(overSymbol) && dragPointerId == old(dragPointerId)
      ensures swipes == old(swipes) && swipeDeltas == old(swipeDeltas) && swipeDidAction == old(swipeDidAction)
      ensures costBasis == old(costBasis) && editingCost == old(editingCost) && expanded == old(expanded)
    {
      confirmDelete := None;
      deleted := symbol;
    }

    /** `handleCancelDelete`: closes the prompt. */
    method CancelDelete()
      modifies this
      ensures confirmDelete.None?
      ensures dragSymbol == old(dragSymbol) && overSymbol == old(overSymbol) && dragPointerId == old(dragPointerId)
      ensures swipes == old(swipes) && swipeDeltas == old(swipeDeltas) && swipeDidAction == old(swipeDidAction)
      ensures costBasis == old(costBasis) && editingCost == old(editingCost) && expanded == old(expanded)
    {
      confirmDelete := None;
    }

    /** `handleCostChange`: records the text being typed for a row. */
    method CostChange(symbol: string, value: string)
      modifies this
      ensures editingCost == old(editingCost)[symbol := value]
      ensures dragSymbol == old(dragSymbol) && overSymbol == old(overSymbol) && dragPointerId == old(dragPointerId)
      ensures swipes == old(swipes) && swipeDeltas == old(swipeDeltas) && swipeDidAction == old(swipeDidAction)
      ensures confirmDelete == old(confirmDelete) && costBasis == old(costBasis) && expanded == old(expanded)
    {
      editingCost := editingCost[symbol := value];
    }
  }
}
