/** The sample buffers shared by the two Tesla-coil firmwares and the FFT library:
    raw ADC words and the complex FFT buffer they are normalised into. */
module Samples {

  /** A `uint16_t` word of the ADC buffer. */
  type U16 = x: int | 0 <= x < 0x1_0000

  /** The ADC converts to 12 bits, so a conversion result is at most 4095. */
  const ADC_MAX: int := 4095

  /** The `Complex` struct of the firmware; `float` components are taken as exact reals. */
  datatype Complex = Complex(re: real, im: real)

  /** `((float)v - 2048.0f) / 2048.0f`: the offset-binary ADC value moved to [-1, 1). */
  function Normalize(v: U16): (r: real)
    ensures 2048.0 + 2048.0 * r == v as real
    ensures v <= ADC_MAX ==> -1.0 <= r < 1.0
  {
    (v as real - 2048.0) / 2048.0
  }

  /** Normalisation loses nothing: distinct ADC words give distinct samples. */
  lemma NormalizeInjective(v: U16, w: U16)
    ensures (Normalize(v) == Normalize(w)) == (v == w)
  {
    assert 2048.0 + 2048.0 * Normalize(v) == v as real;
    assert 2048.0 + 2048.0 * Normalize(w) == w as real;
  }

  /** The FFT buffer after the normalising loop. */
  function Loaded(adc: seq<U16>): (buf: seq<Complex>)
    ensures |buf| == |adc|
    ensures forall i :: 0 <= i < |adc| ==> buf[i] == Complex(Normalize(adc[i]), 0.0)
  {
    seq(|adc|, i requires 0 <= i < |adc| => Complex(Normalize(adc[i]), 0.0))
  }

  /** The loop that copies the ADC buffer into the FFT buffer: real part normalised,
      imaginary part zero. */
  method LoadSamples(adc: array<U16>, buf: array<Complex>)
    requires adc.Length == buf.Length
    modifies buf
    ensures buf[..] == Loaded(adc[..])
  {
    var i := 0;
    while i < buf.Length
      invariant 0 <= i <= buf.Length
      invariant forall k :: 0 <= k < i ==> buf[k] == Complex(Normalize(adc[k]), 0.0)
    {
      buf[i] := Complex(Normalize(adc[i]), 0.0);
      i := i + 1;
    }
    assert buf[..] == Loaded(adc[..]);
  }
}
