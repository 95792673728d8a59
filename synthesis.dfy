/** Frequency synthesis of the Tesla-coil firmware, shared by both copies of its `main.c`:
    the bank of phase-accumulator oscillators that the 100 kHz timer interrupt advances,
    and the greedy selection of spectral peaks that the main loop uses to configure it.
    The `float` arithmetic is taken as exact real arithmetic. */
module Synthesis {

  const SYNTHESIS_RATE: real := 100000.0
  const MAX_OSCILLATORS: nat := 5
  const N_FREQ: nat := 5
  const FFT_SIZE: nat := 256
  /** Number of magnitude bins, `FFT_SIZE / 2`. */
  const BINS: nat := 128
  const SAMPLE_RATE: real := 8000.0
  const FREQ_THRESHOLD: real := 100.0
  const MAX_FREQ_THRESHOLD: real := 2000.0
  const MAG_THRESHOLD: real := 10.0
  const RELATIVE_MAG_THRESHOLD: real := 0.5

  /** The `FrequencyOscillator` struct. */
  datatype Oscillator = Oscillator(frequency: real, phase: real, isActive: bool)

  /** The state the initialisation loop of `main` gives every slot. */
  const Idle := Oscillator(0.0, 0.0, false)

  // ---------------------------------------------------------------------------
  // The timer interrupt

  /** Phase step of one interrupt: `frequency / SYNTHESIS_RATE`. */
  function Increment(o: Oscillator): real {
    o.frequency / SYNTHESIS_RATE
  }

  /** A slot whose phase is in [0, 1) and whose frequency is below the synthesis rate. */
  predicate InRange(o: Oscillator) {
    0.0 <= o.phase < 1.0 && 0.0 <= o.frequency < SYNTHESIS_RATE
  }

  /** What the interrupt does to one slot: an active slot advances its phase and wraps
      it once; an inactive slot is untouched. */
  function Advance(o: Oscillator): (r: Oscillator)
    ensures r.frequency == o.frequency && r.isActive == o.isActive
    ensures !o.isActive ==> r == o
    ensures o.isActive ==> r.phase == o.phase + Increment(o) || r.phase == o.phase + Increment(o) - 1.0
    ensures o.isActive ==> (r.phase < o.phase + Increment(o) <==> o.phase + Increment(o) >= 1.0)
  {
    if !o.isActive then o
    else
      var p := o.phase + Increment(o);
      o.(phase := if p >= 1.0 then p - 1.0 else p)
  }

  /** With a frequency below the synthesis rate, the phase stays in [0, 1). */
  lemma AdvanceInRange(o: Oscillator)
    requires InRange(o)
    ensures InRange(Advance(o))
  {
    assert 0.0 <= Increment(o) < 1.0;
  }

  /** The slot after n interrupts. */
  function AdvanceTimes(o: Oscillator, n: nat): (r: Oscillator)
    ensures r.frequency == o.frequency && r.isActive == o.isActive
    ensures !o.isActive ==> r == o
  {
    if n == 0 then o else Advance(AdvanceTimes(o, n - 1))
  }

  /** The fractional part of x. */
  function Frac(x: real): (f: real)
    ensures 0.0 <= f < 1.0
  {
    x - x.Floor as real
  }

  /** The accumulator is the fractional part of the exact phase: after n interrupts
      an active slot's phase is frac(phase0 + n * frequency / SYNTHESIS_RATE). */
  lemma {:induction false} PhaseAfterTicks(o: Oscillator, n: nat)
    requires o.isActive && InRange(o)
    ensures AdvanceTimes(o, n).phase == Frac(o.phase + n as real * Increment(o))
  {
    if n == 0 {
      assert (o.phase).Floor == 0;
    } else {
      var n1: nat := n - 1;
      PhaseAfterTicks(o, n1);
      var x := o.phase + n1 as real * Increment(o);
      var q := AdvanceTimes(o, n1);
      assert q.phase == Frac(x);
      assert 0.0 <= Increment(o) < 1.0;
      var y := x + Increment(o);
      assert y == o.phase + n as real * Increment(o);
      if q.phase + Increment(o) >= 1.0 {
        assert y.Floor == x.Floor + 1;
      } else {
        assert y.Floor == x.Floor;
      }
    }
  }

  /** The whole bank after one interrupt. */
  function AdvanceAll(s: seq<Oscillator>): (r: seq<Oscillator>)
    ensures |r| == |s| && forall i :: 0 <= i < |s| ==> r[i] == Advance(s[i])
  {
    seq(|s|, i requires 0 <= i < |s| => Advance(s[i]))
  }

  /** A slot that drives the pin: active and in the first half of its period. */
  predicate High(o: Oscillator) {
    o.isActive && o.phase < 0.5
  }

  /** The OR of the slots' outputs. */
  function AnyHigh(s: seq<Oscillator>): (b: bool)
    ensures b <==> exists i :: 0 <= i < |s| && High(s[i])
  {
    if s == [] then false
    else
      var t := s[..|s| - 1];
      assert forall i :: 0 <= i < |t| ==> t[i] == s[i];
      AnyHigh(t) || High(s[|s| - 1])
  }

  /** A bank with no active slot drives the pin low. */
  lemma IdleBankIsLow(s: seq<Oscillator>)
    requires forall i :: 0 <= i < |s| ==> !s[i].isActive
    ensures !AnyHigh(AdvanceAll(s))
  {
  }

  /** The interrupt keeps every slot of a well-formed bank well-formed. */
  lemma AdvanceAllInRange(s: seq<Oscillator>)
    requires forall i :: 0 <= i < |s| ==> InRange(s[i])
    ensures forall i :: 0 <= i < |s| ==> InRange(AdvanceAll(s)[i])
  {
    forall i | 0 <= i < |s| ensures InRange(AdvanceAll(s)[i]) {
      AdvanceInRange(s[i]);
    }
  }

  /** The loop of the timer interrupt: advance every active slot and OR their outputs. */
  method AdvanceBank(osc: array<Oscillator>) returns (outputState: bool)
    requires osc.Length == MAX_OSCILLATORS
    modifies osc
    ensures osc[..] == AdvanceAll(old(osc[..]))
    ensures outputState == AnyHigh(osc[..])
  {
    ghost var s0 := osc[..];
    outputState := false;
    var i := 0;
    while i < MAX_OSCILLATORS
      invariant 0 <= i <= MAX_OSCILLATORS
      invariant forall k :: 0 <= k < i ==> osc[k] == Advance(s0[k])
      invariant forall k :: i <= k < MAX_OSCILLATORS ==> osc[k] == s0[k]
      invariant outputState == AnyHigh(osc[..i])
    {
      assert osc[..i + 1] == osc[..i] + [osc[i]];
      if osc[i].isActive {
        var phase := osc[i].phase + osc[i].frequency / SYNTHESIS_RATE;
        if phase >= 1.0 {
          phase := phase - 1.0;
        }
        osc[i] := osc[i].(phase := phase);
        if phase < 0.5 {
          outputState := true;
        }
      }
      assert osc[..i + 1] == osc[..i] + [osc[i]];
      i := i + 1;
    }
    assert osc[..] == osc[..MAX_OSCILLATORS];
  }

  /** The initialisation loop of `main`: every slot idle. */
  method InitBank(osc: array<Oscillator>)
    requires osc.Length == MAX_OSCILLATORS
    modifies osc
    ensures forall i :: 0 <= i < osc.Length ==> osc[i] == Idle
  {
    var i := 0;
    while i < MAX_OSCILLATORS
      invariant 0 <= i <= MAX_OSCILLATORS
      invariant forall k :: 0 <= k < i ==> osc[k] == Idle
    {
      osc[i] := Oscillator(0.0, 0.0, false);
      i := i + 1;
    }
  }

  /** An idle slot is in range and silent. */
  lemma IdleInRange()
    ensures InRange(Idle) && !High(Idle) && Advance(Idle) == Idle
  {
  }

  // ---------------------------------------------------------------------------
  // Peak selection

  /** `(float)max_bin * SAMPLE_RATE / FFT_SIZE`: the centre frequency of a bin. */
  function BinFrequency(bin: nat): real {
    bin as real * SAMPLE_RATE / FFT_SIZE as real
  }

  /** The strict frequency window (100 Hz, 2000 Hz) admits exactly the bins 4 to 63. */
  lemma BinFrequencyWindow(bin: nat)
    ensures (FREQ_THRESHOLD < BinFrequency(bin) < MAX_FREQ_THRESHOLD) == (4 <= bin <= 63)
  {
    assert BinFrequency(bin) == bin as real * 31.25;
    if bin <= 3 {
      assert bin as real * 31.25 <= 93.75;
    } else if bin >= 64 {
      assert bin as real * 31.25 >= 2000.0;
    }
  }

  /** Distinct bins have distinct frequencies. */
  lemma BinFrequencyInjective(b: nat, c: nat)
    ensures (BinFrequency(b) == BinFrequency(c)) == (b == c)
  {
    assert BinFrequency(b) == b as real * 31.25 && BinFrequency(c) == c as real * 31.25;
  }

  /** The arg-max loop over bins 1 to hi - 1, strict `>` and starting from (bin 0,
      magnitude 0). */
  function ScanMax(m: seq<real>, hi: nat): (r: (nat, real))
    requires 1 <= hi <= |m|
    ensures r.0 < hi
    ensures r.0 == 0 ==> r.1 == 0.0
    ensures r.0 != 0 ==> m[r.0] == r.1 > 0.0
  {
    if hi == 1 then (0, 0.0)
    else
      var r := ScanMax(m, hi - 1);
      if m[hi - 1] > r.1 then (hi - 1, m[hi - 1]) else r
  }

  /** The arg-max is the first bin holding the largest positive magnitude, or bin 0
      with magnitude 0 when no magnitude is positive. */
  lemma {:induction false} ScanMaxIsFirstMax(m: seq<real>, hi: nat)
    requires 1 <= hi <= |m|
    ensures forall j :: 1 <= j < hi ==> m[j] <= ScanMax(m, hi).1
    ensures forall j :: 1 <= j < ScanMax(m, hi).0 ==> m[j] < ScanMax(m, hi).1
  {
    if hi > 1 {
      ScanMaxIsFirstMax(m, hi - 1);
    }
  }

  /** The arg-max never looks at bin 0. */
  lemma {:induction false} ScanMaxIgnoresBinZero(m: seq<real>, x: real, hi: nat)
    requires 1 <= hi <= |m|
    ensures ScanMax(m[0 := x], hi) == ScanMax(m, hi)
  {
    if hi > 1 {
      ScanMaxIgnoresBinZero(m, x, hi - 1);
    }
  }

  /** A pointwise larger spectrum has a larger maximum. */
  lemma ScanMaxMonotone(m: seq<real>, n: seq<real>, hi: nat)
    requires 1 <= hi <= |m| == |n|
    requires forall j :: 1 <= j < hi ==> m[j] <= n[j]
    ensures ScanMax(m, hi).1 <= ScanMax(n, hi).1
  {
    var r := ScanMax(m, hi);
    ScanMaxIsFirstMax(n, hi);
    if r.0 != 0 {
      assert m[r.0] <= n[r.0];
    }
  }

  /** Reads every bin of the spectrum; used for the arg-max of one slot. */
  method FindMaxBin(mags: array<real>) returns (maxBin: nat, maxMag: real)
    requires mags.Length == BINS
    ensures (maxBin, maxMag) == ScanMax(mags[..], BINS)
  {
    maxMag := 0.0;
    maxBin := 0;
    var i := 1;
    while i < BINS
      invariant 1 <= i <= BINS
      invariant (maxBin, maxMag) == ScanMax(mags[..], i)
    {
      if mags[i] > maxMag {
        maxMag := mags[i];
        maxBin := i;
      }
      i := i + 1;
    }
  }

  /** The loop computing `global_max_mag`. */
  method GlobalMaxMagnitude(mags: array<real>) returns (globalMax: real)
    requires mags.Length == BINS
    ensures globalMax == ScanMax(mags[..], BINS).1
  {
    globalMax := 0.0;
    ghost var bin: nat := 0;
    var i := 1;
    while i < BINS
      invariant 1 <= i <= BINS
      invariant (bin, globalMax) == ScanMax(mags[..], i)
    {
      if mags[i] > globalMax {
        globalMax := mags[i];
        bin := i;
      }
      i := i + 1;
    }
  }

  /** The outcome of one slot of the selection loop. */
  datatype Decision = Accept(bin: nat, mag: real) | Reject

  /** One slot: take the arg-max and accept it when its frequency lies strictly between
      the thresholds and its magnitude is above both the absolute and the relative cutoff. */
  function Decide(m: seq<real>, cutoff: real): (d: Decision)
    requires |m| == BINS
    ensures d.Accept? ==> 4 <= d.bin <= 63 && d.mag == m[d.bin]
    ensures d.Accept? ==> d.mag > MAG_THRESHOLD && d.mag > cutoff
  {
    var (bin, mag) := ScanMax(m, BINS);
    BinFrequencyWindow(bin);
    if FREQ_THRESHOLD < BinFrequency(bin) < MAX_FREQ_THRESHOLD && mag > MAG_THRESHOLD && mag > cutoff
    then Accept(bin, mag)
    else Reject
  }

  /** A slot accepts exactly the first bin of largest magnitude, and does so exactly
      when that bin lies in 4 .. 63 and its magnitude is above both cutoffs; a spectrum
      with no magnitude above the absolute threshold is rejected. */
  lemma DecideIsFirstMax(m: seq<real>, cutoff: real)
    requires |m| == BINS
    ensures var d := Decide(m, cutoff);
      (d.Accept? ==> (forall j :: 1 <= j < BINS ==> m[j] <= d.mag) && (forall j :: 1 <= j < d.bin ==> m[j] < d.mag)) &&
      ((forall j :: 1 <= j < BINS ==> m[j] <= MAG_THRESHOLD) ==> d == Reject)
    ensures var (b, mg) := ScanMax(m, BINS);
      (4 <= b <= 63 && mg > MAG_THRESHOLD && mg > cutoff) <==> Decide(m, cutoff) == Accept(b, mg)
  {
    ScanMaxIsFirstMax(m, BINS);
    var (b, mg) := ScanMax(m, BINS);
    BinFrequencyWindow(b);
  }

  /** The spectrum after a slot: an accepted bin is zeroed so it is not picked again. */
  function Consume(m: seq<real>, d: Decision): seq<real>
    requires d.Accept? ==> d.bin < |m|
  {
    if d.Accept? then m[d.bin := 0.0] else m
  }

  /** The spectrum after the first n slots. */
  function MagsAfter(m: seq<real>, cutoff: real, n: nat): (r: seq<real>)
    requires |m| == BINS
    ensures |r| == BINS
  {
    if n == 0 then m
    else
      var p := MagsAfter(m, cutoff, n - 1);
      Consume(p, Decide(p, cutoff))
  }

  /** The decisions of the first n slots. */
  function Decisions(m: seq<real>, cutoff: real, n: nat): (ds: seq<Decision>)
    requires |m| == BINS
    ensures |ds| == n
  {
    if n == 0 then [] else Decisions(m, cutoff, n - 1) + [Decide(MagsAfter(m, cutoff, n - 1), cutoff)]
  }

  /** Slot k's decision is made on the spectrum left by the slots before it. */
  lemma {:induction false} DecisionAt(m: seq<real>, cutoff: real, n: nat, k: nat)
    requires |m| == BINS && k < n
    ensures Decisions(m, cutoff, n)[k] == Decide(MagsAfter(m, cutoff, k), cutoff)
  {
    if k < n - 1 {
      DecisionAt(m, cutoff, n - 1, k);
    }
  }

  /** What a decision does to its slot: accept configures it afresh, reject only
      deactivates it. */
  function Apply(o: Oscillator, d: Decision): (r: Oscillator)
    ensures d.Reject? ==> r.frequency == o.frequency && r.phase == o.phase && !r.isActive
    ensures d.Accept? ==> r.isActive && r.phase == 0.0 && r.frequency == BinFrequency(d.bin)
  {
    match d
    case Accept(bin, _) => Oscillator(BinFrequency(bin), 0.0, true)
    case Reject => o.(isActive := false)
  }

  /** The bank after the slots with decisions ds. */
  function Configure(s: seq<Oscillator>, ds: seq<Decision>): (r: seq<Oscillator>)
    requires |ds| <= |s|
    ensures |r| == |s|
  {
    seq(|s|, i requires 0 <= i < |s| => if i < |ds| then Apply(s[i], ds[i]) else s[i])
  }

  /** The selection loop of `main`, steps 4 and 5: the relative cutoff from the global
      maximum, then exactly N_FREQ slots, slot n decided in pass n. */
  method SelectPeaks(osc: array<Oscillator>, mags: array<real>)
    requires osc.Length == MAX_OSCILLATORS && mags.Length == BINS
    modifies osc, mags
    ensures var cutoff := ScanMax(old(mags[..]), BINS).1 * RELATIVE_MAG_THRESHOLD;
      osc[..] == Configure(old(osc[..]), Decisions(old(mags[..]), cutoff, N_FREQ)) &&
      mags[..] == MagsAfter(old(mags[..]), cutoff, N_FREQ)
  {
    ghost var o0, m0 := osc[..], mags[..];
    var globalMax := GlobalMaxMagnitude(mags);
    var cutoff := globalMax * RELATIVE_MAG_THRESHOLD;
    var n := 0;
    assert Configure(o0, []) == o0;
    while n < N_FREQ
      invariant 0 <= n <= N_FREQ
      invariant mags[..] == MagsAfter(m0, cutoff, n)
      invariant osc[..] == Configure(o0, Decisions(m0, cutoff, n))
    {
      SelectSlot(osc, mags, n, cutoff, o0, m0);
      n := n + 1;
    }
  }

  /** Pass n of the selection loop. */
  method SelectSlot(osc: array<Oscillator>, mags: array<real>, n: nat, cutoff: real,
                    ghost o0: seq<Oscillator>, ghost m0: seq<real>)
    requires osc.Length == MAX_OSCILLATORS == |o0| && mags.Length == BINS == |m0| && n < N_FREQ
    requires mags[..] == MagsAfter(m0, cutoff, n)
    requires osc[..] == Configure(o0, Decisions(m0, cutoff, n))
    modifies osc, mags
    ensures mags[..] == MagsAfter(m0, cutoff, n + 1)
    ensures osc[..] == Configure(o0, Decisions(m0, cutoff, n + 1))
  {
    ghost var d := Decide(mags[..], cutoff);
    var maxBin, maxMag := FindMaxBin(mags);
    var freq := maxBin as real * SAMPLE_RATE / FFT_SIZE as real;
    if freq > FREQ_THRESHOLD && freq < MAX_FREQ_THRESHOLD && maxMag > MAG_THRESHOLD && maxMag > cutoff {
      assert d == Accept(maxBin, maxMag);
      osc[n] := Oscillator(freq, 0.0, true);
      mags[maxBin] := 0.0;
    } else {
      assert d == Reject;
      osc[n] := osc[n].(isActive := false);
    }
    assert osc[..] == Configure(o0, Decisions(m0, cutoff, n + 1));
  }

  /** After a rejection the spectrum no longer changes. */
  lemma {:induction false} MagsStable(m: seq<real>, cutoff: real, i: nat, j: nat)
    requires |m| == BINS && i <= j
    requires Decide(MagsAfter(m, cutoff, i), cutoff) == Reject
    ensures MagsAfter(m, cutoff, j) == MagsAfter(m, cutoff, i)
  {
    if j > i {
      MagsStable(m, cutoff, i, j - 1);
    }
  }

  /** A rejected slot leaves the spectrum unchanged, so every later slot is rejected too. */
  lemma RejectIsFinal(m: seq<real>, cutoff: real, n: nat, i: nat, j: nat)
    requires |m| == BINS && i <= j < n
    requires Decisions(m, cutoff, n)[i] == Reject
    ensures Decisions(m, cutoff, n)[j] == Reject
  {
    DecisionAt(m, cutoff, n, i);
    DecisionAt(m, cutoff, n, j);
    MagsStable(m, cutoff, i, j);
  }

  /** The active slots after the selection loop form a prefix of the bank. */
  lemma ActiveSlotsFormPrefix(s: seq<Oscillator>, m: seq<real>, cutoff: real, i: nat, j: nat)
    requires |s| == MAX_OSCILLATORS && |m| == BINS && i <= j < N_FREQ
    ensures var r := Configure(s, Decisions(m, cutoff, N_FREQ));
      r[j].isActive ==> r[i].isActive
  {
    var ds := Decisions(m, cutoff, N_FREQ);
    if ds[i] == Reject {
      RejectIsFinal(m, cutoff, N_FREQ, i, j);
    }
  }

  /** Later slots see a spectrum that is pointwise no larger: a slot only ever zeroes a
      bin whose magnitude is above the threshold. */
  lemma {:induction false} MagsDecrease(m: seq<real>, cutoff: real, i: nat, j: nat)
    requires |m| == BINS && i <= j
    ensures forall b :: 1 <= b < BINS ==> MagsAfter(m, cutoff, j)[b] <= MagsAfter(m, cutoff, i)[b]
  {
    if j > i {
      MagsDecrease(m, cutoff, i, j - 1);
    }
  }

  /** Accepted bins are distinct and their magnitudes do not increase from slot to slot. */
  lemma AcceptedBinsDistinct(m: seq<real>, cutoff: real, n: nat, i: nat, j: nat)
    requires |m| == BINS && i < j < n
    requires Decisions(m, cutoff, n)[i].Accept? && Decisions(m, cutoff, n)[j].Accept?
    ensures Decisions(m, cutoff, n)[i].bin != Decisions(m, cutoff, n)[j].bin
    ensures Decisions(m, cutoff, n)[j].mag <= Decisions(m, cutoff, n)[i].mag
  {
    var ds := Decisions(m, cutoff, n);
    DecisionAt(m, cutoff, n, i);
    DecisionAt(m, cutoff, n, j);
    MagsDecrease(m, cutoff, i, j);
    MagsDecrease(m, cutoff, i + 1, j);
    DecideIsFirstMax(MagsAfter(m, cutoff, i), cutoff);
    assert MagsAfter(m, cutoff, i + 1)[ds[i].bin] == 0.0;
  }

  /** Every active slot after the selection loop holds a frequency strictly inside the
      window, phase 0, and came from a bin whose magnitude passed both cutoffs. */
  lemma AcceptedSlot(s: seq<Oscillator>, m: seq<real>, cutoff: real, k: nat)
    requires |s| == MAX_OSCILLATORS && |m| == BINS && k < N_FREQ
    ensures var r, d := Configure(s, Decisions(m, cutoff, N_FREQ))[k], Decisions(m, cutoff, N_FREQ)[k];
      (r.isActive <==> d.Accept?) &&
      (d.Accept? ==> FREQ_THRESHOLD < r.frequency < MAX_FREQ_THRESHOLD && r.phase == 0.0 &&
                     d.mag > MAG_THRESHOLD && d.mag > cutoff) &&
      (d.Reject? ==> r.frequency == s[k].frequency && r.phase == s[k].phase)
  {
    var d := Decisions(m, cutoff, N_FREQ)[k];
    DecisionAt(m, cutoff, N_FREQ, k);
    if d.Accept? {
      BinFrequencyWindow(d.bin);
    }
  }

  /** A spectrum with no magnitude above the absolute threshold leaves every slot inactive. */
  lemma SilentSpectrum(s: seq<Oscillator>, m: seq<real>, cutoff: real, k: nat)
    requires |s| == MAX_OSCILLATORS && |m| == BINS && k < N_FREQ
    requires forall j :: 1 <= j < BINS ==> m[j] <= MAG_THRESHOLD
    ensures !Configure(s, Decisions(m, cutoff, N_FREQ))[k].isActive
  {
    DecisionAt(m, cutoff, N_FREQ, 0);
    assert MagsAfter(m, cutoff, 0) == m;
    DecideIsFirstMax(m, cutoff);
    RejectIsFinal(m, cutoff, N_FREQ, 0, k);
  }

  /** `magnitudes[0]` is never written by the magnitude loop; the selection does not
      depend on it and leaves it as it was. */
  lemma {:induction false} SelectionIgnoresBinZero(m: seq<real>, x: real, cutoff: real, n: nat)
    requires |m| == BINS
    ensures MagsAfter(m[0 := x], cutoff, n) == MagsAfter(m, cutoff, n)[0 := x]
    ensures Decisions(m[0 := x], cutoff, n) == Decisions(m, cutoff, n)
  {
    if n > 0 {
      SelectionIgnoresBinZero(m, x, cutoff, n - 1);
      var p := MagsAfter(m, cutoff, n - 1);
      DecideIgnoresBinZero(p, x, cutoff);
      var d := Decide(p, cutoff);
      assert Consume(p[0 := x], d) == Consume(p, d)[0 := x];
    }
  }

  /** One slot's decision does not depend on bin 0. */
  lemma DecideIgnoresBinZero(m: seq<real>, x: real, cutoff: real)
    requires |m| == BINS
    ensures Decide(m[0 := x], cutoff) == Decide(m, cutoff)
  {
    ScanMaxIgnoresBinZero(m, x, BINS);
  }
}
