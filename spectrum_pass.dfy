/**
 * One pass of the Tesla-coil main loop once a buffer of 256 ADC samples is ready,
 * shared by both copies of the firmware's `main.c`: normalise the samples, transform
 * them, take the magnitudes of bins 1 .. 127 and configure the oscillator bank from
 * the strongest peaks.  The butterfly arithmetic and `sqrtf(re*re + im*im)` are
 * parameters; entry 0 of the local `magnitudes` array is never written, so its
 * indeterminate content is a parameter too.
 */
module SpectrumPass {
  import opened Powers
  import opened Samples
  import opened FftIndex
  import opened Synthesis

  /** The magnitude array after the magnitude loop: entry 0 as it was (`dc`), entry k
      the magnitude of bin k of the transformed buffer. */
  function Spectrum(buf: seq<Complex>, magnitudeOf: Complex -> real, dc: real): (m: seq<real>)
    requires |buf| >= BINS
    ensures |m| == BINS && m[0] == dc
    ensures forall k :: 1 <= k < BINS ==> m[k] == magnitudeOf(buf[k])
  {
    seq(BINS, k requires 0 <= k < BINS => if k == 0 then dc else magnitudeOf(buf[k]))
  }

  /** `relative_cutoff`: half the largest magnitude of bins 1 .. 127. */
  function Cutoff(m: seq<real>): real
    requires |m| == BINS
  {
    ScanMax(m, BINS).1 * RELATIVE_MAG_THRESHOLD
  }

  /** The decisions of the N_FREQ passes of the peak loop. */
  function Selection(m: seq<real>): (ds: seq<Decision>)
    requires |m| == BINS
    ensures |ds| == N_FREQ
  {
    Decisions(m, Cutoff(m), N_FREQ)
  }

  /** The uninitialised entry 0 does not influence the oscillators: any content gives
      the same cutoff and the same decisions. */
  lemma SelectionIgnoresDc(buf: seq<Complex>, magnitudeOf: Complex -> real, dc: real, dc2: real)
    requires |buf| >= BINS
    ensures Cutoff(Spectrum(buf, magnitudeOf, dc)) == Cutoff(Spectrum(buf, magnitudeOf, dc2))
    ensures Selection(Spectrum(buf, magnitudeOf, dc)) == Selection(Spectrum(buf, magnitudeOf, dc2))
  {
    var m := Spectrum(buf, magnitudeOf, dc);
    assert Spectrum(buf, magnitudeOf, dc2) == m[0 := dc2];
    ScanMaxIgnoresBinZero(m, dc2, BINS);
    SelectionIgnoresBinZero(m, dc2, Cutoff(m), N_FREQ);
  }

  /** The magnitude loop, which starts at bin 1. */
  method MagnitudeBins(buf: array<Complex>, mags: array<real>, magnitudeOf: Complex -> real)
    requires buf.Length >= BINS == mags.Length
    modifies mags
    ensures mags[..] == Spectrum(buf[..], magnitudeOf, old(mags[0]))
  {
    ghost var dc := mags[0];
    var i := 1;
    while i < BINS
      invariant 1 <= i <= BINS
      invariant mags[0] == dc
      invariant forall k :: 1 <= k < i ==> mags[k] == magnitudeOf(buf[k])
    {
      mags[i] := magnitudeOf(buf[i]);
      i := i + 1;
    }
    assert mags[..] == Spectrum(buf[..], magnitudeOf, dc);
  }

  /** The global maximum and the peak loop, over a finished magnitude array. */
  method PeaksFromSpectrum(osc: array<Oscillator>, mags: array<real>)
    requires osc.Length == MAX_OSCILLATORS && mags.Length == BINS
    modifies osc, mags
    ensures osc[..] == Configure(old(osc[..]), Selection(old(mags[..])))
  {
    SelectPeaks(osc, mags);
  }

  /** The body of `if (buffer_ready)`: normalise, transform (n = 256 = 2^8), magnitudes,
      global maximum and peak selection. */
  method ProcessBuffer(adc: array<U16>, buf: array<Complex>, osc: array<Oscillator>,
                       bf: Butterfly<Complex>, magnitudeOf: Complex -> real, dc: real)
    requires adc.Length == FFT_SIZE == buf.Length && osc.Length == MAX_OSCILLATORS
    modifies buf, osc
    ensures buf[..] == Stages(BitReversed(Loaded(adc[..]), 8), 8, 8, bf)
    ensures osc[..] == Configure(old(osc[..]), Selection(Spectrum(buf[..], magnitudeOf, dc)))
  {
    LoadSamples(adc, buf);
    assert Pow2(8) == 256;
    FftCompute(buf, FFT_SIZE, 8, bf);
    var magnitudes := new real[BINS](_ => dc);
    MagnitudeBins(buf, magnitudes, magnitudeOf);
    PeaksFromSpectrum(osc, magnitudes);
  }
}
