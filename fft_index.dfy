/**
 * Index machinery of the in-place radix-2 decimation-in-time FFT `fft_compute`
 * (three identical copies: the Tesla-coil firmware, its copy_of_fft revision and
 * fft_processing.c).
 *
 * Element values are abstract: the bit-reversal permutation only moves elements,
 * and one butterfly is a function `bf(u, v, len, j)` of the two elements of its
 * pair, the stage length and the offset of the pair in its block.  In the source
 * the twiddle factor used at offset j is w_len^j, computed incrementally, so it
 * depends on (len, j) only; the float arithmetic itself is not modelled.
 */
module FftIndex {

  import opened Powers

  /**
   * The k-bit reversal of x < 2^k: bit t of x (t < k) becomes bit k-1-t.  The top
   * bit of x becomes the bottom bit of the result.
   */
  function Rev(x: nat, k: nat): (r: nat)
    requires x < Pow2(k)
    ensures r < Pow2(k)
  {
    if k == 0 then 0
    else if x < Pow2(k - 1) then 2 * Rev(x, k - 1)
    else 2 * Rev(x - Pow2(k - 1), k - 1) + 1
  }

  lemma {:induction false} RevZero(k: nat)
    ensures Rev(0, k) == 0
  {
    if k > 0 {
      RevZero(k - 1);
    }
  }

  /** The bottom bit b of x = 2h + b becomes the top bit of the reversal. */
  lemma {:induction false} RevBit(h: nat, b: nat, k: nat, x: nat)
    requires k >= 1 && b <= 1 && x == 2 * h + b && x < Pow2(k)
    ensures h < Pow2(k - 1)
    ensures Rev(x, k) == Rev(h, k - 1) + (if b == 1 then Pow2(k - 1) else 0)
  {
    var k1 := k - 1;
    if k1 == 0 {
      RevOne(x);
    } else {
      var p, q := Pow2(k1), Pow2(k1 - 1);
      assert p == 2 * q;
      if x < p {
        assert h < q by { }
        assert Rev(x, k1) == Rev(h, k1 - 1) + (if b == 1 then q else 0) by {
          RevBit(h, b, k1, x);
        }
      } else {
        assert q <= h && x - p == 2 * (h - q) + b by { }
        assert Rev(x - p, k1) == Rev(h - q, k1 - 1) + (if b == 1 then q else 0) by {
          RevBit(h - q, b, k1, x - p);
        }
      }
    }
  }

  /** One-bit reversal is the identity. */
  lemma RevOne(x: nat)
    requires x < 2
    ensures Pow2(1) == 2 && Rev(x, 1) == x
  {
    assert Pow2(0) == 1 && Pow2(1) == 2;
  }

  /** Bit reversal is an involution on [0, 2^k). */
  lemma {:induction false} RevInvolution(x: nat, k: nat)
    requires x < Pow2(k)
    ensures Rev(Rev(x, k), k) == x
  {
    if k > 0 {
      var h, b := x / 2, x % 2;
      RevBit(h, b, k, x);
      RevInvolution(h, k - 1);
    }
  }

  /**
   * The inner loop of the bit-reversal step: starting at the top bit 2^m, clear
   * the leading one bits of j and then set the first zero bit.
   */
  function RevIncrement(j: nat, m: nat): nat
    requires j + 1 < 2 * Pow2(m)
  {
    if j < Pow2(m) then j + Pow2(m) else RevIncrement(j - Pow2(m), m - 1)
  }

  /** With the top bit 2^m set, the increment clears it and moves on to bit 2^(m-1). */
  lemma IncrementTop(r: nat, m: nat)
    requires m >= 1 && r + 1 < Pow2(m)
    ensures r + 1 < 2 * Pow2(m - 1)
    ensures RevIncrement(r + Pow2(m), m) == RevIncrement(r, m - 1)
  {
  }

  /** The decrementing-bit trick turns rev(x) into rev(x + 1). */
  lemma {:induction false} RevStep(x: nat, k: nat)
    requires x + 1 < Pow2(k)
    ensures k >= 1 && Rev(x, k) + 1 < Pow2(k)
    ensures RevIncrement(Rev(x, k), k - 1) == Rev(x + 1, k)
  {
    assert k >= 1;
    var k1 := k - 1;
    var h, p := x / 2, Pow2(k1);
    assert Pow2(k) == 2 * p;
    var r := Rev(h, k1);
    if x % 2 == 0 {
      RevBit(h, 0, k, x);
      RevBit(h, 1, k, x + 1);
      assert Rev(x, k) == r < p && Rev(x + 1, k) == r + p;
      assert RevIncrement(r, k1) == r + p;
    } else {
      assert k1 >= 1 by {
        assert Pow2(1) == 2;
      }
      RevBit(h, 1, k, x);
      RevBit(h + 1, 0, k, x + 1);
      assert Rev(x, k) == r + p && Rev(x + 1, k) == Rev(h + 1, k1);
      RevStep(h, k1);
      IncrementTop(r, k1);
    }
  }

  /** The array a bit-reversal permutation produces: position x holds the element at rev(x). */
  function BitReversed<T>(s: seq<T>, k: nat): (r: seq<T>)
    requires |s| == Pow2(k)
    ensures |r| == |s|
  {
    seq(|s|, x requires 0 <= x < |s| => s[Rev(x, k)])
  }

  /** The array after steps 1..i-1 of the bit-reversal loop: the pairs {x, rev(x)} with min(x, rev(x)) < i are exchanged. */
  ghost function PartlyReversed<T>(s0: seq<T>, i: nat, k: nat): (a: seq<T>)
    requires |s0| == Pow2(k)
    ensures |a| == |s0|
  {
    seq(|s0|, x requires 0 <= x < |s0| => if x < i || Rev(x, k) < i then s0[Rev(x, k)] else s0[x])
  }

  /** One step of the bit-reversal loop with i < j = rev(i): exchanging entries i and j extends the exchanged part. */
  lemma SwapStepExchange<T>(s0: seq<T>, i: nat, k: nat)
    requires |s0| == Pow2(k) && i < |s0| && i < Rev(i, k)
    ensures var a, j := PartlyReversed(s0, i, k), Rev(i, k);
      PartlyReversed(s0, i + 1, k) == a[i := a[j]][j := a[i]]
  {
    var a, j := PartlyReversed(s0, i, k), Rev(i, k);
    var a' := a[i := a[j]][j := a[i]];
    RevInvolution(i, k);
    forall x | 0 <= x < |a|
      ensures a'[x] == PartlyReversed(s0, i + 1, k)[x]
    {
      RevInvolution(x, k);
    }
  }

  /** One step of the bit-reversal loop with rev(i) <= i: the pair was exchanged already, nothing changes. */
  lemma SwapStepKeep<T>(s0: seq<T>, i: nat, k: nat)
    requires |s0| == Pow2(k) && i < |s0| && Rev(i, k) <= i
    ensures PartlyReversed(s0, i + 1, k) == PartlyReversed(s0, i, k)
  {
    var a := PartlyReversed(s0, i, k);
    RevInvolution(i, k);
    forall x | 0 <= x < |a|
      ensures a[x] == PartlyReversed(s0, i + 1, k)[x]
    {
      RevInvolution(x, k);
    }
  }

  /** One step of the bit-reversal loop: the pair (i, rev(i)) is exchanged when i < rev(i). */
  lemma SwapStep<T>(s0: seq<T>, i: nat, k: nat)
    requires |s0| == Pow2(k) && i < |s0|
    ensures var a, j := PartlyReversed(s0, i, k), Rev(i, k);
      PartlyReversed(s0, i + 1, k) == if i < j then a[i := a[j]][j := a[i]] else a
  {
    if i < Rev(i, k) {
      SwapStepExchange(s0, i, k);
    } else {
      SwapStepKeep(s0, i, k);
    }
  }

  /** Before the loop nothing is exchanged (rev(0) = 0, so index 0 counts as done). */
  lemma ReversalStart<T>(s0: seq<T>, k: nat)
    requires |s0| == Pow2(k)
    ensures PartlyReversed(s0, 1, k) == s0
  {
    RevZero(k);
    forall x | 0 <= x < |s0|
      ensures PartlyReversed(s0, 1, k)[x] == s0[x]
    {
      RevInvolution(x, k);
    }
  }

  /** After the loop every pair is exchanged: the result is the bit-reversed permutation. */
  lemma ReversalEnd<T>(s0: seq<T>, k: nat)
    requires |s0| == Pow2(k)
    ensures PartlyReversed(s0, |s0|, k) == BitReversed(s0, k)
  {
  }

  /** Exchanging two entries keeps the same elements. */
  lemma SwapPermutes<T>(a: seq<T>, i: nat, j: nat)
    requires i < |a| && j < |a|
    ensures multiset(a[i := a[j]][j := a[i]]) == multiset(a)
  {
  }

  /** Each prefix of the bit-reversal loop only exchanges entries. */
  lemma {:induction false} PartlyReversedPermutes<T>(s0: seq<T>, i: nat, k: nat)
    requires |s0| == Pow2(k) && 1 <= i <= |s0|
    ensures multiset(PartlyReversed(s0, i, k)) == multiset(s0)
  {
    if i == 1 {
      ReversalStart(s0, k);
    } else {
      PartlyReversedPermutes(s0, i - 1, k);
      if i - 1 < Rev(i - 1, k) {
        SwapStepExchange(s0, i - 1, k);
        SwapPermutes(PartlyReversed(s0, i - 1, k), i - 1, Rev(i - 1, k));
      } else {
        SwapStepKeep(s0, i - 1, k);
      }
    }
  }

  /** The bit-reversed order is a permutation of the input. */
  lemma BitReversedPermutes<T>(s: seq<T>, k: nat)
    requires |s| == Pow2(k)
    ensures multiset(BitReversed(s, k)) == multiset(s)
  {
    Pow2Less(0, k);
    ReversalEnd(s, k);
    PartlyReversedPermutes(s, |s|, k);
  }

  /** The inner `for (; j >= bit; bit >>= 1)` loop of the bit-reversal step, with `bit` starting at n/2 = 2^m. */
  method NextReversed(j0: int, n2: int, ghost m: nat) returns (j: int)
    requires 0 <= j0 && n2 == Pow2(m) && j0 + 1 < 2 * n2
    ensures j == RevIncrement(j0, m)
  {
    j := j0;
    var bit := n2;
    ghost var e := m;
    while j >= bit
      invariant 0 <= j && bit == Pow2(e) && j + 1 < 2 * bit
      invariant RevIncrement(j, e) == RevIncrement(j0, m)
      decreases bit
    {
      assert e >= 1 && bit / 2 == Pow2(e - 1);
      j := j - bit;
      bit := bit / 2;
      e := e - 1;
    }
    j := j + bit;
  }

  /** `if (i < j)` swap data[i] and data[j]. */
  method ExchangeIfBelow<T>(data: array<T>, i: int, j: int)
    requires 0 <= i < data.Length && 0 <= j < data.Length
    modifies data
    ensures data[..] == if i < j then old(data[..])[i := old(data[j])][j := old(data[i])] else old(data[..])
  {
    if i < j {
      data[i], data[j] := data[j], data[i];
    }
  }

  /**
   * One iteration of the bit-reversal loop: advance j from rev(i-1) to rev(i)
   * with the decrementing-bit loop, then swap data[i] and data[j] when i < j.
   */
  method BitReverseStep<T>(data: array<T>, n: int, i: int, j0: int, ghost s0: seq<T>, ghost k: nat) returns (j: int)
    requires data.Length == n == |s0| == Pow2(k) && 1 <= i < n
    requires j0 == Rev(i - 1, k) && data[..] == PartlyReversed(s0, i, k)
    modifies data
    ensures j == Rev(i, k) && data[..] == PartlyReversed(s0, i + 1, k)
  {
    RevStep(i - 1, k);
    j := NextReversed(j0, n / 2, k - 1);
    SwapStep(s0, i, k);
    ExchangeIfBelow(data, i, j);
  }

  /**
   * Step 1 of `fft_compute`: for i = 1..n-1 advance j to rev(i) with the
   * decrementing-bit loop and swap data[i] with data[j] when i < j.
   */
  method BitReversePermute<T>(data: array<T>, n: int, ghost k: nat)
    requires data.Length == n == Pow2(k)
    modifies data
    ensures data[..] == BitReversed(old(data[..]), k)
    ensures multiset(data[..]) == multiset(old(data[..]))
  {
    ghost var s0 := data[..];
    ReversalStart(s0, k);
    RevZero(k);
    var i, j := 1, 0;
    while i < n
      invariant 1 <= i <= n
      invariant j == Rev(i - 1, k)
      invariant data[..] == PartlyReversed(s0, i, k)
    {
      j := BitReverseStep(data, n, i, j, s0, k);
      i := i + 1;
    }
    ReversalEnd(s0, k);
    BitReversedPermutes(s0, k);
  }

  /** One butterfly: the new values of the pair (data[i+j], data[i+j+len/2]). */
  type Butterfly<!T> = (T, T, nat, nat) -> (T, T)

  /** len divides n, stated without multiplication. */
  predicate Divides(len: nat, n: nat)
    decreases n
  {
    n == 0 || (len >= 1 && n >= len && Divides(len, n - len))
  }

  lemma {:induction false} DividesAdvance(len: nat, i: nat, n: nat)
    requires len >= 1 && Divides(len, i) && Divides(len, n) && i < n
    ensures i + len <= n
    decreases i
  {
    if i > 0 {
      DividesAdvance(len, i - len, n - len);
    }
  }

  lemma {:induction false} DividesSum(len: nat, a: nat, b: nat)
    requires Divides(len, a) && Divides(len, b)
    ensures Divides(len, a + b)
    decreases a
  {
    if a > 0 {
      DividesSum(len, a - len, b);
    }
  }

  /** 2^m divides 2^k for m <= k. */
  lemma {:induction false} Pow2Divides(m: nat, k: nat)
    requires m <= k
    ensures Divides(Pow2(m), Pow2(k))
    decreases k
  {
    if m == k {
      assert Divides(Pow2(m), Pow2(k) - Pow2(m));
    } else {
      Pow2Divides(m, k - 1);
      DividesSum(Pow2(m), Pow2(k - 1), Pow2(k - 1));
    }
  }

  /** The start of the block of length len that holds position p. */
  function BlockStart(len: nat, p: nat): (i: nat)
    requires len >= 1
    ensures i <= p < i + len
    decreases p
  {
    if p < len then 0 else len + BlockStart(len, p - len)
  }

  /** A block start is a multiple of len. */
  lemma {:induction false} BlockStartDivides(len: nat, p: nat)
    requires len >= 1
    ensures Divides(len, BlockStart(len, p))
    decreases p
  {
    if p >= len {
      BlockStartDivides(len, p - len);
      assert Divides(len, BlockStart(len, p) - len);
    }
  }

  /** Block starts are unique: a multiple of len within len below p is p's block start. */
  lemma {:induction false} BlockStartUnique(len: nat, p: nat, i: nat)
    requires len >= 1 && Divides(len, i) && i <= p < i + len
    ensures BlockStart(len, p) == i
    decreases p
  {
    if i > 0 {
      BlockStartUnique(len, p - len, i - len);
    }
  }

  /**
   * Position p after the stage of length len: with block start i and offset
   * t = p - i, the low half (t < len/2) takes the first result of the butterfly
   * on (s[p], s[p + len/2]) and the high half the second result of the
   * butterfly on (s[p - len/2], s[p]).
   */
  function StageAt<T>(s: seq<T>, len: nat, bf: Butterfly<T>, p: nat): T
    requires len >= 2 && len % 2 == 0 && Divides(len, |s|) && p < |s|
  {
    var i := BlockStart(len, p);
    BlockStartDivides(len, p);
    DividesAdvance(len, i, |s|);
    var h := len / 2;
    if p - i < h then bf(s[p], s[p + h], len, p - i).0 else bf(s[p - h], s[p], len, p - i - h).1
  }

  /** The whole array after the stage of length len. */
  function Stage<T>(s: seq<T>, len: nat, bf: Butterfly<T>): (r: seq<T>)
    requires len >= 2 && len % 2 == 0 && Divides(len, |s|)
    ensures |r| == |s|
  {
    seq(|s|, p requires 0 <= p < |s| => StageAt(s, len, bf, p))
  }

  /**
   * Each stage pairs index i+t with i+t+len/2 inside block i: both are in range,
   * distinct, and both output positions come from the one butterfly on that pair
   * of the stage's input.
   */
  lemma StagePair<T>(s: seq<T>, len: nat, bf: Butterfly<T>, i: nat, t: nat)
    requires len >= 2 && len % 2 == 0 && Divides(len, |s|)
    requires Divides(len, i) && i < |s| && t < len / 2
    ensures i + t < i + t + len / 2 < |s|
    ensures StageAt(s, len, bf, i + t) == bf(s[i + t], s[i + t + len / 2], len, t).0
    ensures StageAt(s, len, bf, i + t + len / 2) == bf(s[i + t], s[i + t + len / 2], len, t).1
  {
    PairBlockStart(len, |s|, i, t);
    assert (i + t + len / 2) - len / 2 == i + t;
  }

  /** Position p of a stage's output. */
  lemma StageIndex<T>(s: seq<T>, len: nat, bf: Butterfly<T>, p: nat)
    requires len >= 2 && len % 2 == 0 && Divides(len, |s|) && p < |s|
    ensures Stage(s, len, bf)[p] == StageAt(s, len, bf, p)
  {
  }

  /** Both positions of the pair (i + t, i + t + len/2) lie in block i, inside the array. */
  lemma PairBlockStart(len: nat, n: nat, i: nat, t: nat)
    requires len >= 2 && len % 2 == 0 && Divides(len, n)
    requires Divides(len, i) && i < n && t < len / 2
    ensures i + len <= n
    ensures BlockStart(len, i + t) == i && BlockStart(len, i + t + len / 2) == i
  {
    DividesAdvance(len, i, n);
    BlockStartUnique(len, i + t, i);
    BlockStartUnique(len, i + t + len / 2, i);
  }

  /** The array after stages len = 2, 4, ..., 2^m. */
  function Stages<T>(s: seq<T>, k: nat, m: nat, bf: Butterfly<T>): (r: seq<T>)
    requires |s| == Pow2(k) && m <= k
    ensures |r| == |s|
  {
    if m == 0 then s
    else
      Pow2Divides(m, k);
      Stage(Stages(s, k, m - 1, bf), Pow2(m), bf)
  }

  /**
   * The array inside the loops of one stage with output out: blocks before i
   * are done, and in block i the pairs with offset below j are done.
   */
  ghost function PartStage<T>(s0: seq<T>, out: seq<T>, len: nat, i: nat, j: nat): (a: seq<T>)
    requires |out| == |s0|
    ensures |a| == |s0|
  {
    seq(|s0|, p requires 0 <= p < |s0| =>
      if p < i || i <= p < i + j || i + len / 2 <= p < i + len / 2 + j then out[p] else s0[p])
  }

  /** Finishing the pair (i + j, i + j + h) of block i writes the output at those two positions. */
  lemma PartStageUpdate<T>(s0: seq<T>, out: seq<T>, len: nat, i: nat, j: nat)
    requires |out| == |s0| && j < len / 2 && i + j + len / 2 < |s0|
    ensures var a, h := PartStage(s0, out, len, i, j), len / 2;
      a[i + j] == s0[i + j] && a[i + j + h] == s0[i + j + h] &&
      PartStage(s0, out, len, i, j + 1) == a[i + j := out[i + j]][i + j + h := out[i + j + h]]
  {
    var a, h := PartStage(s0, out, len, i, j), len / 2;
    var b := a[i + j := out[i + j]][i + j + h := out[i + j + h]];
    forall p | 0 <= p < |s0|
      ensures PartStage(s0, out, len, i, j + 1)[p] == b[p]
    {
    }
  }

  /** One butterfly of the inner loop extends the done part of block i by one pair. */
  lemma PartStageStep<T>(s0: seq<T>, len: nat, bf: Butterfly<T>, i: nat, j: nat)
    requires len >= 2 && len % 2 == 0 && Divides(len, |s0|)
    requires Divides(len, i) && i < |s0| && j < len / 2
    ensures i + j + len / 2 < |s0|
    ensures var out, h := Stage(s0, len, bf), len / 2;
      var a := PartStage(s0, out, len, i, j);
      a[i + j] == s0[i + j] && a[i + j + h] == s0[i + j + h] &&
      PartStage(s0, out, len, i, j + 1) ==
        a[i + j := bf(a[i + j], a[i + j + h], len, j).0][i + j + h := bf(a[i + j], a[i + j + h], len, j).1]
  {
    var h, out := len / 2, Stage(s0, len, bf);
    StagePair(s0, len, bf, i, j);
    StageIndex(s0, len, bf, i + j);
    StageIndex(s0, len, bf, i + j + h);
    PartStageUpdate(s0, out, len, i, j);
  }

  /** When all pairs of block i are done, the next block starts. */
  lemma PartStageNext<T>(s0: seq<T>, out: seq<T>, len: nat, i: nat)
    requires |out| == |s0| && len >= 2 && len % 2 == 0 && Divides(len, |s0|) && Divides(len, i) && i < |s0|
    ensures Divides(len, i + len) && i + len <= |s0|
    ensures PartStage(s0, out, len, i, len / 2) == PartStage(s0, out, len, i + len, 0)
  {
    DividesAdvance(len, i, |s0|);
    assert Divides(len, i + len - len);
  }

  /** The inner `j` loop of one stage: all butterflies of the block starting at i. */
  method BlockButterflies<T>(data: array<T>, len: int, i: int, bf: Butterfly<T>, ghost s0: seq<T>)
    requires data.Length == |s0| && len >= 2 && len % 2 == 0 && Divides(len, |s0|)
    requires 0 <= i < |s0| && Divides(len, i)
    requires data[..] == PartStage(s0, Stage(s0, len, bf), len, i, 0)
    modifies data
    ensures Divides(len, i + len) && i + len <= |s0|
    ensures data[..] == PartStage(s0, Stage(s0, len, bf), len, i + len, 0)
  {
    ghost var out := Stage(s0, len, bf);
    var half := len / 2;
    var j := 0;
    while j < half
      invariant 0 <= j <= half
      invariant data[..] == PartStage(s0, out, len, i, j)
    {
      PartStageStep(s0, len, bf, i, j);
      var pair := bf(data[i + j], data[i + j + half], len, j);
      data[i + j] := pair.0;
      data[i + j + half] := pair.1;
      j := j + 1;
    }
    PartStageNext(s0, out, len, i);
  }

  /** One stage of the butterfly loop of `fft_compute`, for one block length len. */
  method ButterflyStage<T>(data: array<T>, n: int, len: int, bf: Butterfly<T>)
    requires data.Length == n && len >= 2 && len % 2 == 0 && Divides(len, n)
    modifies data
    ensures data[..] == Stage(old(data[..]), len, bf)
  {
    ghost var s0 := data[..];
    ghost var out := Stage(s0, len, bf);
    var i := 0;
    assert PartStage(s0, out, len, 0, 0) == s0;
    while i < n
      invariant 0 <= i <= n && Divides(len, i)
      invariant data[..] == PartStage(s0, out, len, i, 0)
    {
      BlockButterflies(data, len, i, bf, s0);
      i := i + len;
    }
    assert PartStage(s0, out, len, n, 0) == out;
  }

  /** Step 2 of `fft_compute`: the stages len = 2, 4, ..., n. */
  method Butterflies<T>(data: array<T>, n: int, ghost k: nat, bf: Butterfly<T>)
    requires data.Length == n == Pow2(k)
    modifies data
    ensures data[..] == Stages(old(data[..]), k, k, bf)
  {
    ghost var s0 := data[..];
    var len := 2;
    ghost var m := 1;
    while len <= n
      invariant 1 <= m <= k + 1 && len == Pow2(m)
      invariant Pow2(m - 1) <= n
      invariant data[..] == Stages(s0, k, m - 1, bf)
    {
      Pow2Less(k, m);
      Pow2Divides(m, k);
      ButterflyStage(data, n, len, bf);
      len := len * 2;
      m := m + 1;
    }
    Pow2Less(k, m);
    Pow2Less(k, m - 1);
  }

  /** `fft_compute(data, n)`: the bit-reversal permutation followed by all butterfly stages. */
  method FftCompute<T>(data: array<T>, n: int, ghost k: nat, bf: Butterfly<T>)
    requires data.Length == n == Pow2(k)
    modifies data
    ensures data[..] == Stages(BitReversed(old(data[..]), k), k, k, bf)
  {
    BitReversePermute(data, n, k);
    Butterflies(data, n, k, bf);
  }

  /** The example in the source's comment: for n = 8 the identity becomes [0,4,2,6,1,5,3,7]. */
  lemma BitReversalOfEight()
    ensures BitReversed([0, 1, 2, 3, 4, 5, 6, 7], 3) == [0, 4, 2, 6, 1, 5, 3, 7]
  {
    var s := [0, 1, 2, 3, 4, 5, 6, 7];
    assert Pow2(3) == 8;
    assert Rev(1, 3) == 4 && Rev(2, 3) == 2 && Rev(3, 3) == 6;
    assert Rev(4, 3) == 1 && Rev(5, 3) == 5 && Rev(6, 3) == 3 && Rev(7, 3) == 7;
    RevZero(3);
  }
}
