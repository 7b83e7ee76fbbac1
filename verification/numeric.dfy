/** The C# integer conversions the detectors rely on, written out over unbounded numbers. */
module Numeric {

  /** `n` is what C#'s `(int)` cast makes of `r`: the integer next to `r` on the side of zero. */
  predicate TruncatesTo(r: real, n: int) {
    if r >= 0.0 then 0 <= n && n as real <= r < n as real + 1.0
    else n <= 0 && n as real - 1.0 < r <= n as real
  }

  /** Truncation is a function of the real: no two integers truncate the same value. */
  lemma TruncatesToUnique(r: real, a: int, b: int)
    requires TruncatesTo(r, a) && TruncatesTo(r, b)
    ensures a == b
  {
  }

  /** Conversion of a float to int, rounding toward zero (overflow is not modelled): the one integer
      that truncates `r`. */
  function Trunc(r: real): (n: int)
    ensures TruncatesTo(r, n)
    ensures forall m | TruncatesTo(r, m) :: m == n
  {
    var n := if r >= 0.0 then r.Floor else -((-r).Floor);
    assert forall m | TruncatesTo(r, m) :: m == n by {
      forall m | TruncatesTo(r, m)
        ensures m == n
      {
        TruncatesToUnique(r, m, n);
      }
    }
    n
  }

  /** C#'s `a / 2` on int, which truncates toward zero (Dafny's `/` is Euclidean). */
  function Half(a: int): (q: int)
    ensures a >= 0 ==> 0 <= a - 2 * q <= 1
    ensures a < 0 ==> -1 <= a - 2 * q <= 0
  {
    if a >= 0 then a / 2 else -((-a) / 2)
  }

  /** `Math.Min` on two doubles. */
  function Min(a: real, b: real): (m: real)
    ensures m <= a && m <= b
    ensures m == a || m == b
  {
    if a <= b then a else b
  }
}
