/** Whole-number helpers shared by the models. */
module Arithmetic {

  function Min(a: int, b: int): int {
    if a <= b then a else b
  }

  function Max(a: int, b: int): int {
    if a >= b then a else b
  }

  /** Math.ceil(ms / 1000). */
  function CeilSeconds(ms: int): int {
    (ms + 999) / 1000
  }

  function Pow2(k: nat): (p: nat)
    ensures p > 0
  {
    if k == 0 then 1 else 2 * Pow2(k - 1)
  }

  lemma {:induction false} Pow2Grows(k: nat, n: nat)
    requires k <= n
    ensures Pow2(k) <= Pow2(n)
    decreases n
  {
    if k < n {
      Pow2Grows(k, n - 1);
    }
  }
}
