/**
 * The stand-alone FFT library (project/stm/lib/fft_processing.c): `processFFT`
 * normalises a 512-word ADC buffer, transforms it, takes the magnitudes of the
 * first 256 bins and keeps the five strongest bins in `findTopFrequencies`.
 *
 * The top-N selection is specified on `Slot`s, which carry the bin a peak came
 * from; the `FrequencyPeak` array the source fills is the image of the slots
 * under `PeakOf`, and `BinFrequency` is injective, so the bin is recoverable.
 */
module TopFrequencies {
  import opened Powers
  import opened Samples
  import opened FftIndex

  const FFT_SIZE: nat := 512
  const NUM_FREQUENCIES: nat := 5
  const SAMPLE_RATE: real := 20000.0
  /** `FFT_SIZE / 2`: the bins whose magnitudes are kept. */
  const BINS: nat := 256

  /** The `FrequencyPeak` struct: frequency in Hz and magnitude; `float` taken as exact reals. */
  datatype FrequencyPeak = FrequencyPeak(frequency: real, magnitude: real)

  /** `(float)bin * SAMPLE_RATE / (float)FFT_SIZE`. */
  function BinFrequency(bin: nat): (f: real)
    ensures f * 512.0 == bin as real * 20000.0
    ensures f >= 0.0
  {
    bin as real * SAMPLE_RATE / FFT_SIZE as real
  }

  /** Distinct bins are reported with distinct frequencies. */
  lemma BinFrequencyInjective(a: nat, b: nat)
    ensures (BinFrequency(a) == BinFrequency(b)) == (a == b)
  {
    assert BinFrequency(a) * 512.0 == a as real * 20000.0;
    assert BinFrequency(b) * 512.0 == b as real * 20000.0;
  }

  // ---------------------------------------------------------------------------
  // The top-N table, specified with the bin of each entry
  // ---------------------------------------------------------------------------

  /** A table entry together with the bin it was taken from. */
  datatype Slot = Slot(bin: nat, magnitude: real)

  /** What the reset loop writes: frequency 0 and magnitude 0, i.e. bin 0 with magnitude 0. */
  const EMPTY: Slot := Slot(0, 0.0)

  function PeakOf(s: Slot): FrequencyPeak
  {
    FrequencyPeak(BinFrequency(s.bin), s.magnitude)
  }

  /** The `FrequencyPeak` array a table of slots is stored as. */
  function Peaks(slots: seq<Slot>): (ps: seq<FrequencyPeak>)
    ensures |ps| == |slots|
    ensures forall i :: 0 <= i < |slots| ==> ps[i] == PeakOf(slots[i])
  {
    seq(|slots|, i requires 0 <= i < |slots| => PeakOf(slots[i]))
  }

  /** The reset table: NUM_FREQUENCIES empty entries. */
  function Reset(): (slots: seq<Slot>)
    ensures |slots| == NUM_FREQUENCIES
    ensures forall i :: 0 <= i < |slots| ==> slots[i] == EMPTY
  {
    seq(NUM_FREQUENCIES, _ => EMPTY)
  }

  /** The reset table is stored as all-zero peaks. */
  lemma ResetPeaks()
    ensures forall i :: 0 <= i < NUM_FREQUENCIES ==> Peaks(Reset())[i] == FrequencyPeak(0.0, 0.0)
  {
  }

  /** The `j` search: the first entry whose magnitude the new one strictly exceeds,
      or |slots| when there is none. */
  function FirstBelow(slots: seq<Slot>, mag: real): (j: nat)
    ensures j <= |slots|
    ensures forall i :: 0 <= i < j ==> mag <= slots[i].magnitude
    ensures j < |slots| ==> mag > slots[j].magnitude
  {
    if slots == [] then 0
    else if mag > slots[0].magnitude then 0
    else 1 + FirstBelow(slots[1..], mag)
  }

  /** One pass of the `j` loop for bin `bin` with magnitude `mag`. */
  function Insert(slots: seq<Slot>, bin: nat, mag: real): (r: seq<Slot>)
    requires |slots| > 0
    ensures |r| == |slots|
    ensures FirstBelow(slots, mag) == |slots| ==> r == slots
  {
    var j := FirstBelow(slots, mag);
    if j == |slots| then slots
    else seq(|slots|, i requires 0 <= i < |slots| =>
           if i < j then slots[i] else if i == j then Slot(bin, mag) else slots[i - 1])
  }

  /** At the first entry the new magnitude exceeds, the entries from there on move
      down one place, the last one falls off, and the new entry takes that place. */
  lemma InsertShape(slots: seq<Slot>, bin: nat, mag: real)
    requires |slots| > 0 && FirstBelow(slots, mag) < |slots|
    ensures var r := Insert(slots, bin, mag); var j := FirstBelow(slots, mag);
      && (forall i {:trigger r[i]} :: 0 <= i < j ==> r[i] == slots[i])
      && r[j] == Slot(bin, mag)
      && (forall i {:trigger r[i]} :: j < i < |slots| ==> r[i] == slots[i - 1])
  {
    var r := Insert(slots, bin, mag);
    var j := FirstBelow(slots, mag);
    forall i | 0 <= i < |slots|
      ensures r[i] == if i < j then slots[i] else if i == j then Slot(bin, mag) else slots[i - 1]
    {
    }
  }

  /** The table after bins 1 .. hi-1 of the magnitude spectrum `m` (bin 0, the DC bin,
      is skipped). */
  function TopSlots(m: seq<real>, hi: nat): (r: seq<Slot>)
    requires hi <= |m|
    ensures |r| == NUM_FREQUENCIES
    decreases hi
  {
    if hi <= 1 then Reset()
    else Insert(TopSlots(m, hi - 1), hi - 1, m[hi - 1])
  }

  // ---------------------------------------------------------------------------
  // What the table means: the N strongest positive bins, ties to the lower bin
  // ---------------------------------------------------------------------------

  /** The bins present in a table. */
  function Bins(slots: seq<Slot>): set<nat>
  {
    set i | 0 <= i < |slots| :: slots[i].bin
  }

  /** Magnitudes never increase down the table. */
  predicate Sorted(slots: seq<Slot>)
  {
    forall i, j :: 0 <= i < j < |slots| ==> slots[i].magnitude >= slots[j].magnitude
  }

  /** Every entry is empty or holds a scanned bin with its (positive) magnitude. */
  predicate Genuine(m: seq<real>, hi: nat, slots: seq<Slot>)
    requires hi <= |m|
  {
    forall i :: 0 <= i < |slots| ==>
      slots[i] == EMPTY || (1 <= slots[i].bin < hi && slots[i].magnitude == m[slots[i].bin] > 0.0)
  }

  /** No bin is held twice; among equal magnitudes the lower bin comes first. */
  predicate BinOrder(slots: seq<Slot>)
  {
    forall i, j :: 0 <= i < j < |slots| && slots[i] != EMPTY ==>
      slots[i].bin != slots[j].bin &&
      (slots[i].magnitude == slots[j].magnitude ==> slots[i].bin < slots[j].bin)
  }

  /** Bin `b` (magnitude `m[b]`) yields to the table: the table is full, `m[b]` is no
      stronger than its weakest entry, and every entry of equal magnitude is a lower bin. */
  predicate Yields(m: seq<real>, b: nat, slots: seq<Slot>)
    requires b < |m|
    requires |slots| > 0
  {
    && slots[|slots| - 1] != EMPTY
    && m[b] <= slots[|slots| - 1].magnitude
    && (forall i :: 0 <= i < |slots| ==> slots[i].magnitude == m[b] ==> slots[i].bin < b)
  }

  /** Every scanned positive bin that is not held yields to the table. */
  predicate Dominates(m: seq<real>, hi: nat, slots: seq<Slot>)
    requires hi <= |m|
    requires |slots| > 0
  {
    forall b :: 1 <= b < hi && b !in Bins(slots) && m[b] > 0.0 ==> Yields(m, b, slots)
  }

  predicate Good(m: seq<real>, hi: nat, slots: seq<Slot>)
    requires hi <= |m|
  {
    |slots| == NUM_FREQUENCIES && Sorted(slots) && Genuine(m, hi, slots) &&
    BinOrder(slots) && Dominates(m, hi, slots)
  }

  lemma ResetGood(m: seq<real>)
    requires 1 <= |m|
    ensures Good(m, 1, Reset())
  {
  }

  lemma InsertSorted(s: seq<Slot>, bin: nat, mag: real)
    requires |s| > 0 && Sorted(s)
    ensures Sorted(Insert(s, bin, mag))
  {
    var r := Insert(s, bin, mag);
    var j := FirstBelow(s, mag);
    if j < |s| {
      InsertShape(s, bin, mag);
      forall a, b | 0 <= a < b < |r|
        ensures r[a].magnitude >= r[b].magnitude
      {
        if b < j {
        } else if b == j {
          assert r[a] == s[a];
        } else if a < j {
          assert r[b] == s[b - 1];
        } else if a == j {
          assert r[b] == s[b - 1];
          assert s[j].magnitude >= s[b - 1].magnitude;
        } else {
          assert r[a] == s[a - 1] && r[b] == s[b - 1];
        }
      }
    }
  }

  lemma InsertGenuine(m: seq<real>, hi: nat, s: seq<Slot>)
    requires 1 <= hi < |m| && |s| > 0 && Sorted(s) && Genuine(m, hi, s)
    requires forall i :: 0 <= i < |s| ==> s[i].magnitude >= 0.0
    ensures Genuine(m, hi + 1, Insert(s, hi, m[hi]))
  {
    var r := Insert(s, hi, m[hi]);
    var j := FirstBelow(s, m[hi]);
    if j < |s| {
      InsertShape(s, hi, m[hi]);
      forall i | 0 <= i < |r|
        ensures r[i] == EMPTY || (1 <= r[i].bin < hi + 1 && r[i].magnitude == m[r[i].bin] > 0.0)
      {
        if i < j {
          assert r[i] == s[i];
        } else if i == j {
          assert r[i] == Slot(hi, m[hi]) && m[hi] > s[j].magnitude >= 0.0;
        } else {
          assert r[i] == s[i - 1];
        }
      }
    }
  }

  /** Every entry of a genuine table has a non-negative magnitude. */
  lemma GenuineNonNegative(m: seq<real>, hi: nat, s: seq<Slot>)
    requires hi <= |m| && Genuine(m, hi, s)
    ensures forall i :: 0 <= i < |s| ==> s[i].magnitude >= 0.0
  {
    forall i | 0 <= i < |s|
      ensures s[i].magnitude >= 0.0
    {
    }
  }

  lemma InsertBinOrder(m: seq<real>, hi: nat, s: seq<Slot>)
    requires 1 <= hi < |m| && |s| > 0 && Sorted(s) && Genuine(m, hi, s) && BinOrder(s)
    ensures BinOrder(Insert(s, hi, m[hi]))
  {
    var r := Insert(s, hi, m[hi]);
    var j := FirstBelow(s, m[hi]);
    if j < |s| {
      InsertShape(s, hi, m[hi]);
      forall a, b | 0 <= a < b < |r| && r[a] != EMPTY
        ensures r[a].bin != r[b].bin
        ensures r[a].magnitude == r[b].magnitude ==> r[a].bin < r[b].bin
      {
        if b < j {
          assert r[a] == s[a] && r[b] == s[b];
        } else if b == j {
          assert r[a] == s[a] && r[b] == Slot(hi, m[hi]);
        } else if a < j {
          assert r[a] == s[a] && r[b] == s[b - 1];
        } else if a == j {
          assert r[a] == Slot(hi, m[hi]) && r[b] == s[b - 1];
          assert m[hi] > s[j].magnitude >= s[b - 1].magnitude;
        } else {
          assert r[a] == s[a - 1] && r[b] == s[b - 1];
        }
      }
    }
  }

  /** Where the entries of the old table end up after an insertion that places the
      new bin: the new bin is held, and so is every old bin but the last. */
  lemma InsertKeepsBins(s: seq<Slot>, bin: nat, mag: real)
    requires |s| > 0 && FirstBelow(s, mag) < |s|
    ensures bin in Bins(Insert(s, bin, mag))
    ensures forall i :: 0 <= i < |s| - 1 ==> s[i].bin in Bins(Insert(s, bin, mag))
  {
    var r := Insert(s, bin, mag);
    var j := FirstBelow(s, mag);
    InsertShape(s, bin, mag);
    assert r[j].bin == bin;
    forall i | 0 <= i < |s| - 1
      ensures s[i].bin in Bins(r)
    {
      if i < j {
        assert r[i] == s[i];
      } else {
        assert r[i + 1] == s[i];
      }
    }
  }

  lemma InsertDominates(m: seq<real>, hi: nat, s: seq<Slot>)
    requires 1 <= hi < |m| && |s| > 0 && Sorted(s) && Genuine(m, hi, s) && BinOrder(s)
    requires Dominates(m, hi, s)
    ensures Dominates(m, hi + 1, Insert(s, hi, m[hi]))
  {
    var r := Insert(s, hi, m[hi]);
    forall b | 1 <= b < hi + 1 && b !in Bins(r) && m[b] > 0.0
      ensures Yields(m, b, r)
    {
      DominatedAfter(m, hi, s, b);
    }
  }

  /** One bin left out of the table after an insertion yields to it. */
  lemma DominatedAfter(m: seq<real>, hi: nat, s: seq<Slot>, b: nat)
    requires 1 <= hi < |m| && |s| > 0 && Sorted(s) && Genuine(m, hi, s) && BinOrder(s)
    requires Dominates(m, hi, s)
    requires 1 <= b <= hi && b !in Bins(Insert(s, hi, m[hi])) && m[b] > 0.0
    ensures Yields(m, b, Insert(s, hi, m[hi]))
  {
    if FirstBelow(s, m[hi]) == |s| {
      UnplacedDominates(m, hi, s, b);
    } else {
      PlacedDominates(m, hi, s, b);
    }
  }

  /** The new bin is placed: a bin left out was either the dropped last entry or
      already left out. */
  lemma PlacedDominates(m: seq<real>, hi: nat, s: seq<Slot>, b: nat)
    requires 1 <= hi < |m| && |s| > 0 && Sorted(s) && Genuine(m, hi, s) && BinOrder(s)
    requires Dominates(m, hi, s)
    requires FirstBelow(s, m[hi]) < |s|
    requires 1 <= b <= hi && b !in Bins(Insert(s, hi, m[hi])) && m[b] > 0.0
    ensures Yields(m, b, Insert(s, hi, m[hi]))
  {
    if b in Bins(s) {
      var i :| 0 <= i < |s| && s[i].bin == b;
      assert i == |s| - 1 by {
        InsertKeepsBins(s, hi, m[hi]);
      }
      assert s[i] != EMPTY;
      DroppedDominates(m, hi, s);
    } else {
      assert b != hi by {
        InsertKeepsBins(s, hi, m[hi]);
      }
      assert Yields(m, b, s);
      ShiftedDominates(m, hi, s, b);
    }
  }

  /** The new bin exceeds no entry: the table is unchanged and the bin yields to it. */
  lemma UnplacedDominates(m: seq<real>, hi: nat, s: seq<Slot>, b: nat)
    requires 1 <= hi < |m| && |s| > 0 && Sorted(s) && Genuine(m, hi, s) && BinOrder(s)
    requires Dominates(m, hi, s)
    requires FirstBelow(s, m[hi]) == |s|
    requires 1 <= b <= hi && b !in Bins(s) && m[b] > 0.0
    ensures Yields(m, b, s) && Insert(s, hi, m[hi]) == s
  {
    var last := |s| - 1;
    if b == hi {
      assert m[hi] <= s[last].magnitude;
      forall i | 0 <= i < |s|
        ensures s[i].magnitude == m[b] ==> s[i].bin < b
      {
        if s[i] == EMPTY {
          assert s[i].magnitude < m[b];
        }
      }
    }
  }

  /** The entry that falls off the end yields to the new table. */
  lemma DroppedDominates(m: seq<real>, hi: nat, s: seq<Slot>)
    requires 1 <= hi < |m| && |s| > 0 && Sorted(s) && BinOrder(s)
    requires FirstBelow(s, m[hi]) < |s|
    requires s[|s| - 1].bin < |m| && s[|s| - 1].magnitude == m[s[|s| - 1].bin] > 0.0
    ensures Yields(m, s[|s| - 1].bin, Insert(s, hi, m[hi]))
  {
    var r := Insert(s, hi, m[hi]);
    var j := FirstBelow(s, m[hi]);
    var last := |s| - 1;
    var d := s[last];
    InsertShape(s, hi, m[hi]);
    assert r[last].magnitude >= d.magnitude by {
      if j < last {
        assert r[last] == s[last - 1];
      }
    }
    forall i | 0 <= i < |r|
      ensures r[i].magnitude == d.magnitude ==> r[i].bin < d.bin
    {
      if i < j {
        assert r[i] == s[i];
        EqualBeforeLast(s, i);
      } else if i == j {
        assert r[i].magnitude > d.magnitude;
      } else {
        assert r[i] == s[i - 1];
        EqualBeforeLast(s, i - 1);
      }
    }
  }

  /** An entry as strong as the (non-empty) last one is a lower bin. */
  lemma EqualBeforeLast(s: seq<Slot>, k: nat)
    requires BinOrder(s) && k < |s| - 1 && s[|s| - 1].magnitude > 0.0
    ensures s[k].magnitude == s[|s| - 1].magnitude ==> s[k].bin < s[|s| - 1].bin
  {
  }

  /** A bin that yielded to the table before an insertion yields to it after. */
  lemma ShiftedDominates(m: seq<real>, hi: nat, s: seq<Slot>, b: nat)
    requires 1 <= hi < |m| && |s| > 0 && Sorted(s)
    requires FirstBelow(s, m[hi]) < |s|
    requires b < hi && m[b] > 0.0 && Yields(m, b, s)
    ensures Yields(m, b, Insert(s, hi, m[hi]))
  {
    var r := Insert(s, hi, m[hi]);
    var j := FirstBelow(s, m[hi]);
    var last := |s| - 1;
    assert r[last].magnitude >= s[last].magnitude >= m[b] > 0.0 by {
      InsertShape(s, hi, m[hi]);
      if j < last {
        assert r[last] == s[last - 1];
      }
    }
    forall i | 0 <= i < |r|
      ensures r[i].magnitude == m[b] ==> r[i].bin < b
    {
      InsertShape(s, hi, m[hi]);
      if i < j {
        assert r[i] == s[i];
      } else if i == j {
        assert r[i].magnitude > s[last].magnitude;
      } else {
        assert r[i] == s[i - 1];
      }
    }
  }

  /** One step of the bin loop keeps the table meaningful. */
  lemma InsertGood(m: seq<real>, hi: nat, s: seq<Slot>)
    requires 1 <= hi < |m| && Good(m, hi, s)
    ensures Good(m, hi + 1, Insert(s, hi, m[hi]))
  {
    GenuineNonNegative(m, hi, s);
    InsertSorted(s, hi, m[hi]);
    InsertGenuine(m, hi, s);
    InsertBinOrder(m, hi, s);
    InsertDominates(m, hi, s);
  }

  /** The table after scanning bins 1 .. hi-1 holds the strongest positive bins in
      decreasing order, no bin twice, equal magnitudes in bin order, and every positive
      bin left out is no stronger than the last entry (the table then being full). */
  lemma {:induction false} TopSlotsGood(m: seq<real>, hi: nat)
    requires 1 <= hi <= |m|
    ensures Good(m, hi, TopSlots(m, hi))
    decreases hi
  {
    if hi == 1 {
      ResetGood(m);
    } else {
      TopSlotsGood(m, hi - 1);
      InsertGood(m, hi - 1, TopSlots(m, hi - 1));
    }
  }

  /** The DC bin never reaches the table: the result does not depend on m[0]. */
  lemma {:induction false} TopSlotsIgnoreDc(m: seq<real>, hi: nat, x: real)
    requires 1 <= hi <= |m|
    ensures TopSlots(m[0 := x], hi) == TopSlots(m, hi)
    decreases hi
  {
    if hi > 1 {
      TopSlotsIgnoreDc(m, hi - 1, x);
    }
  }

  /** A spectrum with no positive magnitude leaves the table empty. */
  lemma {:induction false} SilentTable(m: seq<real>, hi: nat)
    requires 1 <= hi <= |m|
    requires forall b :: 1 <= b < hi ==> m[b] <= 0.0
    ensures TopSlots(m, hi) == Reset()
    decreases hi
  {
    if hi > 1 {
      SilentTable(m, hi - 1);
      var s := TopSlots(m, hi - 1);
      assert forall i :: 0 <= i < |s| ==> s[i].magnitude == 0.0 >= m[hi - 1];
    }
  }

  // ---------------------------------------------------------------------------
  // The source's loops
  // ---------------------------------------------------------------------------

  /** The shift loop: entries j .. N-2 move one place down, the last one is lost. */
  method ShiftDown(peaks: array<FrequencyPeak>, j: nat)
    requires j < peaks.Length
    modifies peaks
    ensures forall i :: 0 <= i <= j ==> peaks[i] == old(peaks[i])
    ensures forall i :: j < i < peaks.Length ==> peaks[i] == old(peaks[i - 1])
  {
    var k := peaks.Length - 1;
    while k > j
      invariant j <= k <= peaks.Length - 1
      invariant forall i :: 0 <= i <= k ==> peaks[i] == old(peaks[i])
      invariant forall i :: k < i < peaks.Length ==> peaks[i] == old(peaks[i - 1])
    {
      peaks[k] := peaks[k - 1];
      k := k - 1;
    }
  }

  /** The `j` loop for one bin: find the first weaker entry, shift, insert, break. */
  method InsertPeak(peaks: array<FrequencyPeak>, bin: nat, mag: real, ghost slots: seq<Slot>)
    requires |slots| == peaks.Length > 0 && peaks[..] == Peaks(slots)
    modifies peaks
    ensures peaks[..] == Peaks(Insert(slots, bin, mag))
  {
    var j := 0;
    while j < peaks.Length
      invariant 0 <= j <= peaks.Length
      invariant peaks[..] == Peaks(slots)
      invariant forall i :: 0 <= i < j ==> mag <= slots[i].magnitude
    {
      if mag > peaks[j].magnitude {
        assert FirstBelow(slots, mag) == j;
        InsertShape(slots, bin, mag);
        ShiftDown(peaks, j);
        peaks[j] := FrequencyPeak(bin as real * SAMPLE_RATE / FFT_SIZE as real, mag);
        break;
      }
      j := j + 1;
    }
    assert j == peaks.Length ==> FirstBelow(slots, mag) == j;
  }

  /** `findTopFrequencies`, given the magnitude spectrum it reads. */
  method FindTopFrequencies(magnitudes: array<real>, peaks: array<FrequencyPeak>)
    requires magnitudes.Length == BINS && peaks.Length == NUM_FREQUENCIES
    modifies peaks
    ensures peaks[..] == Peaks(TopSlots(magnitudes[..], BINS))
  {
    var i := 0;
    while i < NUM_FREQUENCIES
      invariant 0 <= i <= NUM_FREQUENCIES
      invariant forall k :: 0 <= k < i ==> peaks[k] == FrequencyPeak(0.0, 0.0)
    {
      peaks[i] := FrequencyPeak(0.0, 0.0);
      i := i + 1;
    }
    assert peaks[..] == Peaks(Reset());
    var bin := 1;
    while bin < BINS
      invariant 1 <= bin <= BINS
      invariant peaks[..] == Peaks(TopSlots(magnitudes[..], bin))
    {
      InsertPeak(peaks, bin, magnitudes[bin], TopSlots(magnitudes[..], bin));
      bin := bin + 1;
    }
  }

  /** The static buffers of the library. */
  class FftProcessor {
    var fftBuffer: array<Complex>
    var magnitudes: array<real>

    predicate Valid()
      reads this
    {
      fftBuffer.Length == FFT_SIZE && magnitudes.Length == BINS
    }

    constructor ()
      ensures Valid() && fresh(fftBuffer) && fresh(magnitudes)
    {
      fftBuffer := new Complex[FFT_SIZE](_ => Complex(0.0, 0.0));
      magnitudes := new real[BINS](_ => 0.0);
    }

    /** `processFFT`: normalise, transform, take magnitudes of bins 0 .. 255, select.
        The butterfly arithmetic and `sqrtf(re*re + im*im)` are parameters. */
    method ProcessFFT(adc: array<U16>, peaks: array<FrequencyPeak>,
                      bf: Butterfly<Complex>, magnitudeOf: Complex -> real)
      requires Valid() && adc.Length == FFT_SIZE && peaks.Length == NUM_FREQUENCIES
      modifies fftBuffer, magnitudes, peaks
      ensures Valid()
      ensures var spectrum := Stages(BitReversed(Loaded(adc[..]), 9), 9, 9, bf);
        && fftBuffer[..] == spectrum
        && (forall i :: 0 <= i < BINS ==> magnitudes[i] == magnitudeOf(spectrum[i]))
        && peaks[..] == Peaks(TopSlots(magnitudes[..], BINS))
    {
      ghost var spectrum := Stages(BitReversed(Loaded(adc[..]), 9), 9, 9, bf);
      LoadSamples(adc, fftBuffer);
      assert Pow2(9) == 512;
      FftCompute(fftBuffer, FFT_SIZE, 9, bf);
      assert fftBuffer[..] == spectrum;
      Magnitudes(fftBuffer, magnitudes, magnitudeOf);
      assert forall i :: 0 <= i < BINS ==> magnitudes[i] == magnitudeOf(spectrum[i]);
      FindTopFrequencies(magnitudes, peaks);
    }
  }

  /** The magnitude loop of `processFFT`: bins 0 .. 255 of the transformed buffer. */
  method Magnitudes(buf: array<Complex>, magnitudes: array<real>, magnitudeOf: Complex -> real)
    requires magnitudes.Length <= buf.Length
    modifies magnitudes
    ensures forall k :: 0 <= k < magnitudes.Length ==> magnitudes[k] == magnitudeOf(buf[k])
  {
    var i := 0;
    while i < magnitudes.Length
      invariant 0 <= i <= magnitudes.Length
      invariant forall k :: 0 <= k < i ==> magnitudes[k] == magnitudeOf(buf[k])
    {
      magnitudes[i] := magnitudeOf(buf[i]);
      i := i + 1;
    }
  }
}
