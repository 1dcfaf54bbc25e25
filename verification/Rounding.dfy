/** Decimal rounding as the exchange uses it.

    `SimulatedOrderBook._round_price` quantizes with ROUND_HALF_UP, which in
    Python's decimal module sends ties away from zero; a bare `quantize` uses
    the default context and sends ties to the even neighbour. */
module Rounding {

  function Min(a: int, b: int): int {
    if a <= b then a else b
  }

  function Max(a: int, b: int): int {
    if a >= b then a else b
  }

  function Abs(x: real): real {
    if x < 0.0 then -x else x
  }

  /** Nearest integer, ties away from zero. */
  function RoundHalfUp(x: real): (n: int)
    ensures -0.5 <= n as real - x <= 0.5
  {
    if x >= 0.0 then (x + 0.5).Floor else -((-x + 0.5).Floor)
  }

  /** Nearest integer, ties to the even neighbour. */
  function RoundHalfEven(x: real): (n: int)
    ensures -0.5 <= n as real - x <= 0.5
  {
    var below := x.Floor;
    var part := x - below as real;
    if part < 0.5 then below
    else if part > 0.5 then below + 1
    else if below % 2 == 0 then below else below + 1
  }

  /** Python's int(): truncation toward zero. */
  function Truncate(x: real): (n: int)
    ensures x >= 0.0 ==> n as real <= x < n as real + 1.0
    ensures x < 0.0 ==> n as real - 1.0 < x <= n as real
  {
    if x >= 0.0 then x.Floor else -((-x).Floor)
  }

  /** Both roundings are monotone and leave integers alone, so a value between
      two integers stays between them. */
  lemma RoundingMonotone(x: real, y: real)
    requires x <= y
    ensures RoundHalfUp(x) <= RoundHalfUp(y)
    ensures RoundHalfEven(x) <= RoundHalfEven(y)
  {
  }

  /** Rounding half up gives the nearest integer, and of two equally near the one further from zero. */
  lemma RoundHalfUpIff(x: real, n: int)
    ensures n == RoundHalfUp(x) <==>
      Abs(n as real - x) < 0.5 || (Abs(n as real - x) == 0.5 && Abs(n as real) > Abs(x))
  {
  }

  /** Rounding half even gives the nearest integer, and of two equally near the even one. */
  lemma RoundHalfEvenIff(x: real, n: int)
    ensures n == RoundHalfEven(x) <==> Abs(n as real - x) < 0.5 || (Abs(n as real - x) == 0.5 && n % 2 == 0)
  {
  }

  lemma RoundingFixesIntegers(n: int)
    ensures RoundHalfUp(n as real) == n
    ensures RoundHalfEven(n as real) == n
  {
  }

  /** x lies exactly half way between two integers. */
  predicate IsTie(x: real) {
    x - x.Floor as real == 0.5
  }

  lemma FloorIs(x: real, n: int)
    requires n as real <= x < n as real + 1.0
    ensures x.Floor == n
  {
  }

  /** The rounding, read off the integer below x. */
  lemma RoundHalfUpFromFloor(x: real)
    ensures RoundHalfUp(x) ==
            if x - x.Floor as real < 0.5 || (IsTie(x) && x < 0.0) then x.Floor else x.Floor + 1
  {
    var below := x.Floor;
    if x >= 0.0 {
      FloorIs(x + 0.5, if x - below as real < 0.5 then below else below + 1);
    } else {
      FloorIs(-x + 0.5, if x - below as real <= 0.5 then -below else -below - 1);
    }
  }

  /** Shifting by an integer shifts the rounding by that integer, except for a tie
      carried across zero, which moves one further away. */
  lemma RoundHalfUpShift(x: real, n: int)
    ensures RoundHalfUp(x + n as real) == RoundHalfUp(x) + n + CrossedTie(x, n)
  {
    FloorIs(x + n as real, x.Floor + n);
    RoundHalfUpFromFloor(x);
    RoundHalfUpFromFloor(x + n as real);
  }

  /** The extra unit of a tie that the shift carries from one side of zero to the other. */
  function CrossedTie(x: real, n: int): int {
    if IsTie(x) && x < 0.0 <= x + n as real then 1
    else if IsTie(x) && x + n as real < 0.0 <= x then -1
    else 0
  }
}
