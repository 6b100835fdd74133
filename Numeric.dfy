/** Python's built-in round() on a number, which rounds to the nearest
    integer and breaks ties towards the even neighbour. */
module Numeric {

  /** round(x): the nearest integer, ties to even. */
  function RoundHalfEven(x: real): (n: int)
    ensures -0.5 <= n as real - x <= 0.5
    ensures (n as real - x == 0.5 || x - n as real == 0.5) ==> n % 2 == 0
  {
    var f := x.Floor;
    var d := x - f as real;
    if d < 0.5 then f
    else if d > 0.5 then f + 1
    else if f % 2 == 0 then f
    else f + 1
  }

  /** The two properties above pin round() down: any integer within one half
      of x that picks the even side on a tie is RoundHalfEven(x). */
  lemma RoundHalfEvenUnique(x: real, m: int)
    requires -0.5 <= m as real - x <= 0.5
    requires (m as real - x == 0.5 || x - m as real == 0.5) ==> m % 2 == 0
    ensures m == RoundHalfEven(x)
  {
  }

  /** round() never goes down across an integer: it is monotone. */
  lemma RoundHalfEvenMonotone(x: real, y: real)
    requires x <= y
    ensures RoundHalfEven(x) <= RoundHalfEven(y)
  {
  }

  function Clamp(lo: int, hi: int, v: int): (r: int)
    requires lo <= hi
    ensures lo <= r <= hi
    ensures lo <= v <= hi ==> r == v
    ensures v < lo ==> r == lo
    ensures v > hi ==> r == hi
  {
    if v < lo then lo else if v > hi then hi else v
  }
}
