/** Exact decimal money and the currency rounding the collector relies on.

    Amounts are Dafny `real`s in currency units (so 6.67 is 6.67, not a binary
    approximation). The collector rounds with PHP's `round($x, 2)`, which rounds
    to the nearest cent and breaks ties away from zero.
 */
module Money {

  /** `x` is a whole number of cents. */
  predicate IsCents(x: real) {
    (x * 100.0).Floor as real == x * 100.0
  }

  function Abs(x: real): real {
    if x < 0.0 then -x else x
  }

  /** Half a cent: the largest distance between an amount and its rounding. */
  const HalfCent: real := 0.005

  /** PHP `round($x)`: nearest integer, halves rounded away from zero. */
  function RoundHalfAway(x: real): (n: int)
    ensures x - 0.5 <= n as real <= x + 0.5
    ensures n as real == x + 0.5 ==> x > 0.0
    ensures n as real == x - 0.5 ==> x < 0.0
    ensures x >= 0.0 ==> n >= 0
    ensures x <= 0.0 ==> n <= 0
  {
    if x >= 0.0 then (x + 0.5).Floor else -((-x + 0.5).Floor)
  }

  lemma WholeCents(n: int)
    ensures (n as real / 100.0) * 100.0 == n as real
    ensures IsCents(n as real / 100.0)
  {
    var c := n as real / 100.0;
    assert c * 100.0 == n as real;
    assert (n as real).Floor == n;
  }

  /** PHP `round($x, 2)`: the nearest whole cent, halves away from zero. */
  function Round2(x: real): (r: real)
    ensures IsCents(r)
    ensures x - HalfCent <= r <= x + HalfCent
    ensures r == x + HalfCent ==> x > 0.0
    ensures r == x - HalfCent ==> x < 0.0
  {
    var n := RoundHalfAway(x * 100.0);
    WholeCents(n);
    n as real / 100.0
  }

  /** Round2 picks a nearest whole cent: no whole cent is strictly closer. */
  lemma Round2Nearest(x: real, c: real)
    requires IsCents(c)
    ensures Abs(x - Round2(x)) <= Abs(x - c)
  {
    var n := (Round2(x) * 100.0).Floor;
    var m := (c * 100.0).Floor;
    // Were c strictly closer, Round2(x) and c would be less than a cent apart
    // and, both being whole cents, equal.
    assert Abs(x - c) < Abs(x - Round2(x)) ==> n == m;
  }

  /** Rounding a whole number of cents changes nothing. */
  lemma Round2OfCents(c: real)
    requires IsCents(c)
    ensures Round2(c) == c
  {
    Round2Nearest(c, c);
  }

  lemma FloorOfInteger(k: int)
    ensures (k as real).Floor == k
  {
  }

  lemma CentsAdd(a: real, b: real)
    requires IsCents(a) && IsCents(b)
    ensures IsCents(a + b) && IsCents(a - b)
  {
    var p := (a * 100.0).Floor;
    var q := (b * 100.0).Floor;
    assert (a + b) * 100.0 == a * 100.0 + b * 100.0;
    assert (a - b) * 100.0 == a * 100.0 - b * 100.0;
    FloorOfInteger(p + q);
    FloorOfInteger(p - q);
  }

  /** The only whole number of cents within half a cent of zero is zero. */
  lemma SmallCentsIsZero(d: real)
    requires IsCents(d)
    requires -HalfCent <= d <= HalfCent
    ensures d == 0.0
  {
    var k := (d * 100.0).Floor;
    assert -0.5 <= k as real <= 0.5;
    assert k == 0;
  }
}
