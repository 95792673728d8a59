/**
 * The integrated copy of the Tesla-coil firmware (project/stm/copy_of_fft/fft/src/main.c):
 * the same oscillator bank and spectrum pass, but the interrupt drives PB0 by a
 * read-modify-write of GPIOB->ODR, and the DFPlayer is driven through USART1.  The
 * ADC/DMA interrupt that raises `buffer_ready` runs concurrently and is not modelled.
 */
module TeslaCopy {
  import opened Samples
  import opened FftIndex
  import opened Synthesis
  import opened SpectrumPass
  import opened DFPlayerProtocol
  import opened DFPlayerUsart

  /** The update-interrupt flag UIF, bit 0 of TIM15->SR. */
  const UIF: bv32 := 1
  /** `1 << LED_PIN` with LED_PIN = 0: PB0 in GPIOB->ODR. */
  const LED_MASK: bv32 := 1
  /** Volume passed to `DF_Init` by `initDFPlayer`. */
  const STARTUP_VOLUME: Byte := 25

  class CopyFirmware {
    /** TIM15->SR. */
    var tim15Sr: bv32
    /** GPIOB->ODR. */
    var gpiobOdr: bv32
    /** `buffer_ready`, raised by the DMA interrupt. */
    var bufferReady: bool
    const oscillators: array<Oscillator>
    const adcBuffer: array<U16>
    const fftBuffer: array<Complex>
    /** The driver state behind `dfplayer_usart`. */
    const player: UsartPlayer

    predicate Valid()
      reads this
    {
      oscillators.Length == MAX_OSCILLATORS &&
      adcBuffer.Length == FFT_SIZE && fftBuffer.Length == FFT_SIZE
    }

    /** The PB0 level: bit LED_PIN of the output data register. */
    function Output(): bool
      reads this
    {
      gpiobOdr & LED_MASK != 0
    }

    /** The zero-initialised globals, an arbitrary initial ODR, and the driver's flags. */
    constructor (odr: bv32)
      ensures Valid() && fresh(oscillators) && fresh(adcBuffer) && fresh(fftBuffer) && fresh(player)
      ensures tim15Sr == 0 && gpiobOdr == odr && !bufferReady
      ensures forall i :: 0 <= i < MAX_OSCILLATORS ==> oscillators[i] == Idle
      ensures player.State() == PLAYING && player.sent == []
    {
      tim15Sr := 0;
      gpiobOdr := odr;
      bufferReady := false;
      oscillators := new Oscillator[MAX_OSCILLATORS](_ => Idle);
      adcBuffer := new U16[FFT_SIZE](_ => 0);
      fftBuffer := new Complex[FFT_SIZE](_ => Complex(0.0, 0.0));
      player := new UsartPlayer();
    }

    /** `TIM1_BRK_TIM15_IRQHandler`: without UIF nothing happens; with it, UIF is
        cleared, every active oscillator advances once, and bit 0 of ODR is set to
        the OR of their outputs while every other bit of ODR keeps its value. */
    method Tim15Handler()
      requires Valid()
      modifies this`tim15Sr, this`gpiobOdr, oscillators
      ensures old(tim15Sr) & UIF == 0 ==>
        tim15Sr == old(tim15Sr) && gpiobOdr == old(gpiobOdr) && oscillators[..] == old(oscillators[..])
      ensures old(tim15Sr) & UIF != 0 ==>
        && tim15Sr & UIF == 0 && tim15Sr & !UIF == old(tim15Sr) & !UIF
        && oscillators[..] == AdvanceAll(old(oscillators[..]))
        && Output() == AnyHigh(oscillators[..])
        && gpiobOdr & !LED_MASK == old(gpiobOdr) & !LED_MASK
    {
      if tim15Sr & UIF != 0 {
        tim15Sr := tim15Sr & !UIF;
        var outputState := AdvanceBank(oscillators);
        if outputState {
          gpiobOdr := gpiobOdr | LED_MASK;
        } else {
          gpiobOdr := gpiobOdr & !LED_MASK;
        }
      }
    }

    /** `initDFPlayer` without the USART and timer bring-up: `DF_Init(25)`, then
        `DF_PlayFromStart()`. */
    method InitDFPlayer()
      modifies player
      ensures player.State() == PLAYING
      ensures player.sent ==
        old(player.sent) + Frames([SELECT_SOURCE, SetVolumeCmd(STARTUP_VOLUME), PLAY_FIRST])
    {
      player.Init(STARTUP_VOLUME);
      player.PlayFromStart();
      FramesAppend([SELECT_SOURCE, SetVolumeCmd(STARTUP_VOLUME)], [PLAY_FIRST]);
      assert (old(player.sent) + Frames([SELECT_SOURCE, SetVolumeCmd(STARTUP_VOLUME)])) + Frames([PLAY_FIRST]) ==
             old(player.sent) + (Frames([SELECT_SOURCE, SetVolumeCmd(STARTUP_VOLUME)]) + Frames([PLAY_FIRST]));
      assert [SELECT_SOURCE, SetVolumeCmd(STARTUP_VOLUME)] + [PLAY_FIRST] ==
             [SELECT_SOURCE, SetVolumeCmd(STARTUP_VOLUME), PLAY_FIRST];
    }

    /** The oscillator initialisation of `main`. */
    method InitOscillators()
      requires Valid()
      modifies oscillators
      ensures forall i :: 0 <= i < MAX_OSCILLATORS ==> oscillators[i] == Idle
    {
      InitBank(oscillators);
    }

    /** One round of `while(1)`: `Check_Key(dfplayer_usart)` with the given button
        levels, then, if a buffer is ready, clear the flag and run the spectrum pass. */
    method LoopRound(b: Buttons, bf: Butterfly<Complex>, magnitudeOf: Complex -> real, dc: real)
      requires Valid()
      modifies player, this`bufferReady, fftBuffer, oscillators
      ensures var (s, cs) := CheckKeyEffect(old(player.State()), b);
        player.State() == s && player.sent == old(player.sent) + Frames(cs)
      ensures !bufferReady
      ensures old(bufferReady) ==>
        && fftBuffer[..] == Stages(BitReversed(Loaded(adcBuffer[..]), 8), 8, 8, bf)
        && oscillators[..] ==
             Configure(old(oscillators[..]), Selection(Spectrum(fftBuffer[..], magnitudeOf, dc)))
      ensures !old(bufferReady) ==>
        fftBuffer[..] == old(fftBuffer[..]) && oscillators[..] == old(oscillators[..])
    {
      player.CheckKey(b);
      if bufferReady {
        bufferReady := false;
        ProcessBuffer(adcBuffer, fftBuffer, oscillators, bf, magnitudeOf, dc);
      }
    }
  }
}
