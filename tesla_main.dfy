/**
 * The Tesla-coil firmware of project/stm/src/main.c: its globals, the TIM15 update
 * interrupt that runs the oscillator bank and writes the bank's OR onto PA9, the
 * start-up of the oscillators and of the bit-banged DFPlayer, and one round of the
 * main loop.  The ADC/DMA interrupt that fills `adc_buffer` and raises
 * `buffer_ready` runs concurrently with the main loop and is not modelled; the flag
 * is a field that a round of the loop reads and clears.
 */
module TeslaMain {
  import opened Samples
  import opened FftIndex
  import opened Synthesis
  import opened SpectrumPass
  import opened DFPlayerProtocol
  import opened DFPlayerSoftUart

  /** The update-interrupt flag UIF, bit 0 of TIM15->SR. */
  const UIF: bv32 := 1

  /** Volume passed to `DF_Init` at start-up. */
  const STARTUP_VOLUME: Byte := 15

  class Firmware {
    /** TIM15->SR. */
    var tim15Sr: bv32
    /** Every level written with `digitalWrite(LED_PIN, ·)` on PA9, oldest first. */
    var ledLevels: seq<bool>
    /** `buffer_ready`, raised by the DMA interrupt. */
    var bufferReady: bool
    const oscillators: array<Oscillator>
    const adcBuffer: array<U16>
    const fftBuffer: array<Complex>
    /** The copy of the DFPlayer driver inside this file. */
    const player: Player

    predicate Valid()
      reads this
    {
      oscillators.Length == MAX_OSCILLATORS &&
      adcBuffer.Length == FFT_SIZE && fftBuffer.Length == FFT_SIZE
    }

    /** The zero-initialised globals and the driver's static flags. */
    constructor ()
      ensures Valid() && fresh(oscillators) && fresh(adcBuffer) && fresh(fftBuffer) && fresh(player)
      ensures tim15Sr == 0 && ledLevels == [] && !bufferReady
      ensures forall i :: 0 <= i < MAX_OSCILLATORS ==> oscillators[i] == Idle
      ensures player.State() == PLAYING && player.wire == []
    {
      tim15Sr := 0;
      ledLevels := [];
      bufferReady := false;
      oscillators := new Oscillator[MAX_OSCILLATORS](_ => Idle);
      adcBuffer := new U16[FFT_SIZE](_ => 0);
      fftBuffer := new Complex[FFT_SIZE](_ => Complex(0.0, 0.0));
      player := new Player();
    }

    /** `TIM1_BRK_TIM15_IRQHandler`: without UIF nothing happens; with it, UIF is
        cleared (the other bits of SR kept), every active oscillator advances once and
        the pin is driven to the OR of their outputs. */
    method Tim15Handler()
      requires Valid()
      modifies this`tim15Sr, this`ledLevels, oscillators
      ensures old(tim15Sr) & UIF == 0 ==>
        tim15Sr == old(tim15Sr) && ledLevels == old(ledLevels) && oscillators[..] == old(oscillators[..])
      ensures old(tim15Sr) & UIF != 0 ==>
        && tim15Sr & UIF == 0 && tim15Sr & !UIF == old(tim15Sr) & !UIF
        && oscillators[..] == AdvanceAll(old(oscillators[..]))
        && ledLevels == old(ledLevels) + [AnyHigh(oscillators[..])]
    {
      if tim15Sr & UIF != 0 {
        tim15Sr := tim15Sr & !UIF;
        var outputState := AdvanceBank(oscillators);
        ledLevels := ledLevels + [outputState];
      }
    }

    /** The start-up of `main` after the peripherals: every oscillator idle, then
        `DF_Init(15)` and `DF_PlayFromStart()`. */
    method Setup()
      requires Valid()
      modifies oscillators, player
      ensures forall i :: 0 <= i < MAX_OSCILLATORS ==> oscillators[i] == Idle
      ensures player.State() == PLAYING
      ensures player.wire ==
        old(player.wire) + Wire(Frames([SELECT_SOURCE, SetVolumeCmd(STARTUP_VOLUME), PLAY_FIRST]))
    {
      InitBank(oscillators);
      player.Init(STARTUP_VOLUME);
      player.PlayFromStart();
      WireFramesSnoc([SELECT_SOURCE, SetVolumeCmd(STARTUP_VOLUME)], PLAY_FIRST);
      assert (old(player.wire) + Wire(Frames([SELECT_SOURCE, SetVolumeCmd(STARTUP_VOLUME)]))) + Wire(Frames([PLAY_FIRST])) ==
             old(player.wire) + (Wire(Frames([SELECT_SOURCE, SetVolumeCmd(STARTUP_VOLUME)])) + Wire(Frames([PLAY_FIRST])));
      assert [SELECT_SOURCE, SetVolumeCmd(STARTUP_VOLUME)] + [PLAY_FIRST] ==
             [SELECT_SOURCE, SetVolumeCmd(STARTUP_VOLUME), PLAY_FIRST];
    }

    /** One round of `while(1)`: `Check_Key()` with the given button levels, then, if
        a buffer is ready, clear the flag and run the spectrum pass over it. */
    method LoopRound(b: Buttons, bf: Butterfly<Complex>, magnitudeOf: Complex -> real, dc: real)
      requires Valid()
      modifies player, this`bufferReady, fftBuffer, oscillators
      ensures var (s, cs) := CheckKeyEffect(old(player.State()), b);
        player.State() == s && player.wire == old(player.wire) + Wire(Frames(cs))
      ensures !bufferReady
      ensures old(bufferReady) ==>
        && fftBuffer[..] == Stages(BitReversed(Loaded(adcBuffer[..]), 8), 8, 8, bf)
        && oscillators[..] ==
             Configure(old(oscillators[..]), Selection(Spectrum(fftBuffer[..], magnitudeOf, dc)))
      ensures !old(bufferReady) ==>
        fftBuffer[..] == old(fftBuffer[..]) && oscillators[..] == old(oscillators[..])
    {
      player.CheckKey(b);
      if bufferReady {
        bufferReady := false;
        ProcessBuffer(adcBuffer, fftBuffer, oscillators, bf, magnitudeOf, dc);
      }
    }
  }
}
