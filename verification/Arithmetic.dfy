/** Minimum, maximum and powers of two. */
module Arithmetic {

  function Max(a: int, b: int): (m: int)
    ensures a <= m && b <= m && (m == a || m == b)
  {
    if a < b then b else a
  }

  function Min(a: int, b: int): (m: int)
    ensures m <= a && m <= b && (m == a || m == b)
  {
    if a < b then a else b
  }

  function Pow2(n: nat): nat {
    if n == 0 then 1 else 2 * Pow2(n - 1)
  }

  lemma {:induction false} Pow2Rises(n: nat)
    ensures 1 <= Pow2(n) <= Pow2(n + 1)
  {
    if n > 0 {
      Pow2Rises(n - 1);
    }
  }
}
