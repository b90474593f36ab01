/** What several parts of the project need to know about numbers. */
module Arithmetic {
  function Pow2(n: nat): nat {
    if n == 0 then 1 else 2 * Pow2(n - 1)
  }

  lemma QuotientBetween(x: real, n: real, lo: real, hi: real)
    requires n > 0.0 && lo * n <= x <= hi * n
    ensures lo <= x / n <= hi
  {
    var q := x / n;
    assert q * n == x;
    assert q < lo ==> (lo - q) * n > 0.0;
    assert q > hi ==> (q - hi) * n > 0.0;
  }

  lemma CancelQuotient(x: real, n: real)
    requires n != 0.0
    ensures x / n * n == x
  {
  }
}
