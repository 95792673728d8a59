/** Powers of two: the lengths of the FFT buffers and stages. */
module Powers {

  /** 2^k. */
  function Pow2(k: nat): (p: nat)
    ensures p >= 1
  {
    if k == 0 then 1 else 2 * Pow2(k - 1)
  }

  lemma {:induction false} Pow2Monotone(a: nat, b: nat)
    requires a < b
    ensures Pow2(a) < Pow2(b)
  {
    if a + 1 < b {
      Pow2Monotone(a, b - 1);
    }
  }

  /** 2^a < 2^b exactly when a < b. */
  lemma Pow2Less(a: nat, b: nat)
    ensures (Pow2(a) < Pow2(b)) == (a < b)
  {
    if a < b {
      Pow2Monotone(a, b);
    } else if b < a {
      Pow2Monotone(b, a);
    }
  }
}
