/**
 Halving as C# performs it on `int` (`s / 2` and `s % 2`, the only divisions
 the layout code does): the quotient is truncated toward zero and the
 remainder takes the sign of the dividend. Dafny's own `/` and `%` are
 Euclidean, which differs as soon as the dividend is negative.
 */
module CSharpInt {

  function Abs(x: int): nat {
    if x < 0 then -x else x
  }

  /** C#'s `s / 2`: half the magnitude, rounded toward zero, with the sign of `s`. */
  function Div2(s: int): (q: int)
    ensures Abs(q) == Abs(s) / 2
    ensures q > 0 ==> s > 0
    ensures q < 0 ==> s < 0
  {
    if s >= 0 then s / 2 else -((-s) / 2)
  }

  /** C#'s `s % 2`: what `Div2` leaves over, signed like `s`, so -1 for a negative odd `s`. */
  function Rem2(s: int): (r: int)
    ensures s == 2 * Div2(s) + r
    ensures -1 <= r <= 1
    ensures r > 0 ==> s > 0
    ensures r < 0 ==> s < 0
  {
    s - 2 * Div2(s)
  }

  /**
   Where C# and Euclidean halving meet: on a non-negative number they agree; on
   a negative one C# yields no positive quotient and no remainder of one.
   */
  lemma Halve(s: int)
    ensures s >= 0 ==> Div2(s) == s / 2 && Rem2(s) == s % 2
    ensures s < 0 ==> Div2(s) <= 0 && Rem2(s) != 1
  {
  }
}
