/** The arithmetic the sources use from JavaScript's `Math`, on reals. */
module Numeric {

  function Abs(x: real): (r: real)
    ensures r >= 0.0 && (r == x || r == -x)
  {
    if x < 0.0 then -x else x
  }

  function AbsInt(x: int): (r: nat)
    ensures r == x || r == -x
  {
    if x < 0 then -x else x
  }

  /** `Math.max(lo, Math.min(hi, v))`. */
  function Clamp(v: real, lo: real, hi: real): (r: real)
    requires lo <= hi
    ensures lo <= r <= hi
    ensures lo <= v <= hi ==> r == v
    ensures v < lo ==> r == lo
    ensures v > hi ==> r == hi
  {
    if hi < v then hi else if v < lo then lo else v
  }

  /** `Math.round(x)`: the nearest integer, halves rounded towards +infinity. */
  function Round(x: real): (r: int)
    ensures x - 0.5 < r as real <= x + 0.5
  {
    (x + 0.5).Floor
  }

  /** `Math.round(x * 10^k) / 10^k` for the scale `10^k` given as `scale`. */
  function RoundTo(x: real, scale: nat): (r: real)
    requires scale > 0
    ensures r * scale as real == Round(x * scale as real) as real
    ensures x - 0.5 / scale as real < r <= x + 0.5 / scale as real
  {
    var n := Round(x * scale as real);
    assert x * scale as real - 0.5 < n as real <= x * scale as real + 0.5;
    DivBounds(x * scale as real, n as real, scale as real);
    n as real / scale as real
  }

  lemma DivBounds(y: real, n: real, s: real)
    requires s > 0.0 && y - 0.5 < n <= y + 0.5
    ensures y / s - 0.5 / s < n / s <= y / s + 0.5 / s
  {
  }

  lemma RoundOfInt(n: int)
    ensures Round(n as real) == n
  {
  }

  lemma RoundMonotone(x: real, y: real)
    requires x <= y
    ensures Round(x) <= Round(y)
  {
  }

  lemma {:induction false} RoundInRange(x: real, lo: int, hi: int)
    requires lo as real <= x <= hi as real
    ensures lo <= Round(x) <= hi
  {
    RoundMonotone(lo as real, x);
    RoundMonotone(x, hi as real);
    RoundOfInt(lo);
    RoundOfInt(hi);
  }

  /** `((c - prev) / prev) * 100`: the move from `prev` to `c` in percent. */
  function PercentChange(prev: real, c: real): real
    requires prev != 0.0
  {
    (c - prev) / prev * 100.0
  }

  /** `prev` grown by that many percent is `c`. */
  lemma PercentChangeMeaning(prev: real, c: real)
    requires prev != 0.0
    ensures prev + prev * PercentChange(prev, c) / 100.0 == c
  {
    var q := (c - prev) / prev;
    assert prev * q == c - prev;
    assert prev * (q * 100.0) / 100.0 == prev * q;
  }
}
