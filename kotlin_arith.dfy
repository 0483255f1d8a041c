/**
 * Integer arithmetic as Kotlin's `Long` does it, where that differs from
 * Dafny's: the magnitude of a value, and division that truncates toward zero.
 * Both the duration formatter and the rest carry-over divide with it.
 */
module KotlinArith {
  function Abs(x: int): (r: nat)
    ensures r == x || r == -x
  {
    if x < 0 then -x else x
  }

  /** Kotlin's `/` on integers, which truncates toward zero (Dafny's `/` is Euclidean). */
  function TruncDiv(a: int, b: int): (q: int)
    requires b > 0
    ensures Abs(q) == Abs(a) / b
    ensures q > 0 ==> a > 0
    ensures q < 0 ==> a < 0
  {
    if a >= 0 then a / b else -((-a) / b)
  }
}
