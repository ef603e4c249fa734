/** The nearest-point scan of the market and coin routes: the earliest index
    whose timestamp is closest to a target time. */
module NearestPoint {
  import opened Numeric
  import opened Wrappers

  const SecondsPerDay: int := 86400

  function Distance(ts: seq<int>, target: int, i: nat): nat
    requires i < |ts|
  {
    AbsInt(ts[i] - target)
  }

  /** Among `ts[..n]`, `i` is the earliest index at the smallest distance from `target`. */
  predicate NearestAmong(ts: seq<int>, target: int, n: nat, i: int)
    requires n <= |ts|
  {
    && 0 <= i < n
    && (forall j :: 0 <= j < n ==> Distance(ts, target, i) <= Distance(ts, target, j))
    && (forall j :: 0 <= j < i ==> Distance(ts, target, i) < Distance(ts, target, j))
  }

  predicate IsNearest(ts: seq<int>, target: int, i: int) {
    NearestAmong(ts, target, |ts|, i)
  }

  /** The index the scan holds after looking at `ts[..n]`. */
  function BestOfPrefix(ts: seq<int>, target: int, n: nat): (b: nat)
    requires 0 < n <= |ts|
    ensures b < n
  {
    if n == 1 then 0
    else
      var b := BestOfPrefix(ts, target, n - 1);
      if Distance(ts, target, n - 1) < Distance(ts, target, b) then n - 1 else b
  }

  /** The selected index, or -1 for an empty series. */
  function Nearest(ts: seq<int>, target: int): (i: int)
    ensures -1 <= i < |ts|
  {
    if ts == [] then -1 else BestOfPrefix(ts, target, |ts|)
  }

  lemma {:induction false} BestOfPrefixIsNearest(ts: seq<int>, target: int, n: nat)
    requires 0 < n <= |ts|
    ensures NearestAmong(ts, target, n, BestOfPrefix(ts, target, n))
  {
    if n > 1 {
      BestOfPrefixIsNearest(ts, target, n - 1);
    }
  }

  /** The scan's choice is the earliest closest point: strict `<` keeps the first of a tie. */
  lemma NearestIsEarliestClosest(ts: seq<int>, target: int)
    requires ts != []
    ensures IsNearest(ts, target, Nearest(ts, target))
  {
    BestOfPrefixIsNearest(ts, target, |ts|);
  }

  /** There is only one earliest closest point. */
  lemma NearestUnique(ts: seq<int>, target: int, a: int, b: int)
    requires IsNearest(ts, target, a) && IsNearest(ts, target, b)
    ensures a == b
  {
    // Each is at most as far as the other, and an earlier one would be strictly closer.
    var da, db := Distance(ts, target, a), Distance(ts, target, b);
    assert da <= db && db <= da;
  }

  /** The `for` loop over the timestamps with `bestIdx` and `bestDiff`; `None` is `Infinity`. */
  method NearestIndex(ts: seq<int>, target: int) returns (bestIdx: int)
    ensures bestIdx == Nearest(ts, target)
    ensures ts == [] ==> bestIdx == -1
    ensures ts != [] ==> IsNearest(ts, target, bestIdx)
  {
    bestIdx := -1;
    var bestDiff: Option<nat> := None;
    var i := 0;
    while i < |ts|
      invariant 0 <= i <= |ts|
      invariant i == 0 ==> bestIdx == -1 && bestDiff.None?
      invariant i > 0 ==> bestIdx == BestOfPrefix(ts, target, i) && bestDiff == Some(Distance(ts, target, bestIdx))
    {
      var diff := AbsInt(ts[i] - target);
      if bestDiff.None? || diff < bestDiff.value {
        bestDiff := Some(diff);
        bestIdx := i;
      }
      i := i + 1;
    }
    if ts != [] {
      NearestIsEarliestClosest(ts, target);
    }
  }
}
