/** Shifting natural numbers. */
module Bits {
  function Pow2(n: nat): (r: nat)
    ensures r > 0
  {
    if n == 0 then 1 else 2 * Pow2(n - 1)
  }

  /** x without its k low bits. */
  function Shr(x: nat, k: nat): nat {
    if k == 0 then x else Shr(x / 2, k - 1)
  }

  lemma {:induction false} ShrNext(x: nat, k: nat)
    ensures Shr(x, k + 1) == Shr(x, k) / 2
    decreases k
  {
    if k > 0 { ShrNext(x / 2, k - 1); }
  }

  lemma {:induction false} ShrSmall(x: nat, w: nat)
    requires x < Pow2(w)
    ensures Shr(x, w) == 0
    decreases w
  {
    if w > 0 { ShrSmall(x / 2, w - 1); }
  }

  function Shl(x: nat, k: nat): nat {
    if k == 0 then x else 2 * Shl(x, k - 1)
  }

  lemma {:induction false} ShrBack(hi: nat, lo: nat, k: nat)
    requires lo < Pow2(k)
    ensures Shr(Shl(hi, k) + lo, k) == hi
    decreases k
  {
    if k > 0 {
      Halve(Shl(hi, k - 1), lo);
      ShrBack(hi, lo / 2, k - 1);
    }
  }

  lemma Halve(x: nat, lo: nat)
    ensures (2 * x + lo) / 2 == x + lo / 2
  {
  }
}
