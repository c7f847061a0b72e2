/** Rounding of decimal amounts to two places, with ties going to the even
    neighbour (banker's rounding, the runtime's default). */
module Rounding {

  /** Rounds to the nearest integer, ties to the even one. */
  function RoundHalfEven(x: real): (n: int)
    ensures x - 0.5 <= n as real <= x + 0.5
    ensures (n as real == x - 0.5 || n as real == x + 0.5) ==> n % 2 == 0
  {
    var f := x.Floor;
    var frac := x - f as real;
    if frac < 0.5 then f
    else if frac > 0.5 then f + 1
    else if f % 2 == 0 then f
    else f + 1
  }

  /** The two properties of RoundHalfEven determine it: no other integer is
      as close, or equally close and even. */
  lemma RoundHalfEvenIsUnique(x: real, n: int)
    requires x - 0.5 <= n as real <= x + 0.5
    requires (n as real == x - 0.5 || n as real == x + 0.5) ==> n % 2 == 0
    ensures n == RoundHalfEven(x)
  {
  }

  /** Rounds to two decimal places, ties to the even hundredth. */
  function Round2(x: real): (r: real)
    ensures x - 0.005 <= r <= x + 0.005
    ensures (r * 100.0).Floor as real == r * 100.0
    ensures x >= 0.0 ==> r >= 0.0
    ensures (r * 100.0 == x * 100.0 - 0.5 || r * 100.0 == x * 100.0 + 0.5) ==> (r * 100.0).Floor % 2 == 0
  {
    var n := RoundHalfEven(x * 100.0);
    var r := n as real / 100.0;
    assert r * 100.0 == n as real;
    assert (r * 100.0).Floor == n;
    r
  }

  lemma Round2Examples()
    ensures Round2(1.0) == 1.0
    ensures Round2(100.0 / 70.0) == 1.43
    ensures Round2(0.125) == 0.12 && Round2(0.135) == 0.14
  {
    assert RoundHalfEven(100.0) == 100;
    assert RoundHalfEven(100.0 / 70.0 * 100.0) == 143;
    assert RoundHalfEven(12.5) == 12;
    assert RoundHalfEven(13.5) == 14;
  }
}
