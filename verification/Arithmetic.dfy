/** What several modules need to know about products and places. */
module Arithmetic {

  function Abs(x: int): nat {
    if x < 0 then -x else x
  }

  function Pow2(n: nat): (p: nat)
    ensures p > 0
  {
    if n == 0 then 1 else 2 * Pow2(n - 1)
  }

  /** The place after place i, in a ring of n. */
  function After(i: nat, n: nat): nat {
    if i + 1 == n then 0 else i + 1
  }

  lemma NextInRing(i: nat, n: nat)
    requires i < n
    ensures (i + 1) % n == After(i, n)
  {}

  lemma NotNegative(a: int, b: nat)
    ensures a >= 0 ==> a * b >= 0
    ensures a < 0 ==> a * b <= 0
  {}

  lemma NextProduct(k: nat, w: nat)
    ensures (k + 1) * w == k * w + w
  {}

  lemma AtMost(m: nat, n: nat, w: nat)
    requires m <= n
    ensures 0 <= m * w <= n * w
  {}

  /** Stretches of length w do not overlap. */
  lemma Apart(j: nat, k: nat, w: nat)
    ensures j < k ==> j * w + w <= k * w
  {
    if j < k {
      NextProduct(j, w);
      AtMost(j + 1, k, w);
    }
  }
}
