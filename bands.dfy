/** The 7-band temperature scale shared by the thermometer and the heatmap: a
    score falls in the first band whose upper bound is at least the score. */
module Bands {

  /** The upper bounds of the bands, in both components' `LEVELS` tables. */
  const LevelMaxes: seq<int> := [15, 30, 45, 55, 70, 85, 100]

  predicate Ascending(maxes: seq<int>) {
    forall i, j :: 0 <= i < j < |maxes| ==> maxes[i] <= maxes[j]
  }

  /** The band the scan from index `from` stops at; the last band when none is high enough. */
  function FirstBandFrom(maxes: seq<int>, score: real, from: nat): (i: nat)
    requires from < |maxes|
    ensures from <= i < |maxes|
    ensures score <= maxes[i] as real || i == |maxes| - 1
    ensures forall j :: from <= j < i ==> score > maxes[j] as real
    decreases |maxes| - from
  {
    if score <= maxes[from] as real || from == |maxes| - 1 then from
    else FirstBandFrom(maxes, score, from + 1)
  }

  function FirstBand(maxes: seq<int>, score: real): (i: nat)
    requires |maxes| > 0
    ensures i < |maxes|
  {
    FirstBandFrom(maxes, score, 0)
  }

  /** The `for ... of LEVELS` scan with its early return. */
  method Scan(maxes: seq<int>, score: real) returns (band: nat)
    requires |maxes| > 0
    ensures band == FirstBand(maxes, score)
    ensures band < |maxes|
    ensures score <= maxes[band] as real || band == |maxes| - 1
    ensures forall j :: 0 <= j < band ==> score > maxes[j] as real
  {
    var i := 0;
    while i < |maxes|
      invariant 0 <= i <= |maxes|
      invariant forall j :: 0 <= j < i ==> score > maxes[j] as real
      invariant i < |maxes| ==> FirstBandFrom(maxes, score, i) == FirstBand(maxes, score)
    {
      if score <= maxes[i] as real {
        return i;
      }
      if i + 1 < |maxes| {
        assert FirstBandFrom(maxes, score, i) == FirstBandFrom(maxes, score, i + 1);
      }
      i := i + 1;
    }
    band := |maxes| - 1;
  }

  lemma {:induction false} FirstBandFromMonotone(maxes: seq<int>, a: real, b: real, from: nat)
    requires from < |maxes| && Ascending(maxes) && a <= b
    ensures FirstBandFrom(maxes, a, from) <= FirstBandFrom(maxes, b, from)
    decreases |maxes| - from
  {
    if !(a <= maxes[from] as real || from == |maxes| - 1) {
      FirstBandFromMonotone(maxes, a, b, from + 1);
    }
  }

  /** A higher score never lands in a lower band. */
  lemma FirstBandMonotone(maxes: seq<int>, a: real, b: real)
    requires |maxes| > 0 && Ascending(maxes) && a <= b
    ensures FirstBand(maxes, a) <= FirstBand(maxes, b)
  {
    FirstBandFromMonotone(maxes, a, b, 0);
  }

  /** The band of a score on the 7-band scale, with its bounds written out. */
  lemma LevelBands(score: real)
    ensures var b := FirstBand(LevelMaxes, score);
      && (score <= 15.0 <==> b == 0)
      && (score > 85.0 <==> b == 6)
      && (15.0 < score <= 30.0 ==> b == 1)
      && (30.0 < score <= 45.0 ==> b == 2)
      && (45.0 < score <= 55.0 ==> b == 3)
      && (55.0 < score <= 70.0 ==> b == 4)
      && (70.0 < score <= 85.0 ==> b == 5)
  {
    var b := FirstBand(LevelMaxes, score);
    assert b < 7;
  }
}
