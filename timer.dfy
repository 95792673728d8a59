/**
 * The general-purpose timer helpers of lab 5 (STM32L432KC_TIM.c): prescaler and
 * interrupt set-up, the conversion of a delay in milliseconds into an auto-reload
 * value at a 10 kHz tick, and the update-event / flag / counter resets.  A timer is
 * its block of 32-bit registers; every helper is a read-modify-write of some of them.
 * Registers the helpers only ever assign whole (PSC, ARR, CNT) hold 32-bit numbers;
 * registers whose bits they set and clear (CR1, DIER, EGR, SR) are bit-vectors.
 */
module Timer {

  /** The value of a 32-bit register used as a number. */
  type U32 = x: int | 0 <= x < 0x1_0000_0000

  /** `TIMFreq`: the counter clock after the prescaler, in Hz. */
  const TIM_FREQ: nat := 10000
  /** `psc_div - 1`: 8000 divides the 80 MHz clock down to 10 kHz. */
  const PRESCALER: U32 := 7999
  /** UG, bit 0 of EGR; UIF, bit 0 of SR; CEN, bit 0 of CR1; UIE, bit 0 of DIER. */
  const BIT0: bv32 := 1
  /** UDIS, bit 1 of CR1. */
  const UDIS: bv32 := 2
  /** ARPE, bit 7 of CR1. */
  const ARPE: bv32 := 0x80
  /** TIE, bit 6 of DIER. */
  const TIE: bv32 := 0x40
  /** The largest `uint16_t`. */
  const U16_MAX: int := 0xFFFF

  /** The registers of one timer the helpers touch. */
  class TimerRegs {
    var psc: U32
    var cr1: bv32
    var dier: bv32
    var arr: U32
    var egr: bv32
    var sr: bv32
    var cnt: U32

    constructor (psc: U32, cr1: bv32, dier: bv32, arr: U32, egr: bv32, sr: bv32, cnt: U32)
      ensures this.psc == psc && this.cr1 == cr1 && this.dier == dier && this.arr == arr
      ensures this.egr == egr && this.sr == sr && this.cnt == cnt
    {
      this.psc, this.cr1, this.dier, this.arr := psc, cr1, dier, arr;
      this.egr, this.sr, this.cnt := egr, sr, cnt;
    }
  }

  /** `ceil(TIMFreq * ms / 1000) - 1` for the `uint32_t ms` of `setTIMxCount`: the
      product is computed modulo 2^32 and divided as an unsigned integer, so `ceil`
      has nothing left to round. */
  function MaxCount(ms: nat): int
    requires ms < 0x1_0000_0000
  {
    ((TIM_FREQ * ms) % 0x1_0000_0000) / 1000 - 1
  }

  /** The `int ms` of `setTIM15Count` gives the same value; on 1 .. 6553 neither
      product overflows. */
  function MaxCount15(ms: int): int
    requires 1 <= ms <= 6553
  {
    (TIM_FREQ * ms) / 1000 - 1
  }

  /** For a delay of 1 .. 6553 ms the reload value is 10*ms - 1, it fits in the
      `uint16_t` it is stored through, and ARR + 1 ticks of the 10 kHz clock last
      exactly `ms` milliseconds. */
  lemma MaxCountForDelay(ms: nat)
    requires 1 <= ms <= 6553
    ensures MaxCount(ms) == MaxCount15(ms) == 10 * ms - 1
    ensures 0 <= MaxCount(ms) <= U16_MAX
    ensures (MaxCount(ms) + 1) * 1000 == TIM_FREQ * ms
  {
  }

  /** 6553 ms is the longest delay: one more millisecond needs a reload value past
      the `uint16_t` range. */
  lemma LongestDelay()
    ensures MaxCount(6554) > U16_MAX
    ensures MaxCount(0) < 0
  {
  }

  /** `initTIM`: prescaler 7999, an update event, the counter enabled and the trigger
      and update interrupts enabled; every other bit keeps its value. */
  method InitTim(t: TimerRegs)
    modifies t
    ensures t.psc == PRESCALER
    ensures t.egr & BIT0 == BIT0 && t.egr & !BIT0 == old(t.egr) & !BIT0
    ensures t.cr1 & BIT0 == BIT0 && t.cr1 & !BIT0 == old(t.cr1) & !BIT0
    ensures t.dier & (TIE | BIT0) == TIE | BIT0 && t.dier & !(TIE | BIT0) == old(t.dier) & !(TIE | BIT0)
    ensures t.arr == old(t.arr) && t.sr == old(t.sr) && t.cnt == old(t.cnt)
  {
    t.psc := PRESCALER;
    t.egr := t.egr | BIT0;
    t.cr1 := t.cr1 | BIT0;
    t.dier := t.dier | TIE;
    t.dier := t.dier | BIT0;
  }

  /** `setTIMxCount`: the reload value for `ms` milliseconds, an update event, UIF
      cleared and the counter restarted.  The `uint16_t` conversion is defined only
      for reload values in 0 .. 65535. */
  method SetTimxCount(t: TimerRegs, ms: nat)
    requires ms < 0x1_0000_0000 && 0 <= MaxCount(ms) <= U16_MAX
    modifies t
    ensures t.arr == MaxCount(ms)
    ensures t.egr & BIT0 == BIT0 && t.egr & !BIT0 == old(t.egr) & !BIT0
    ensures t.sr & BIT0 == 0 && t.sr & !BIT0 == old(t.sr) & !BIT0
    ensures t.cnt == 0
    ensures t.psc == old(t.psc) && t.cr1 == old(t.cr1) && t.dier == old(t.dier)
  {
    var maxcnt := MaxCount(ms);
    t.arr := maxcnt;
    t.egr := t.egr | BIT0;
    t.sr := t.sr & !BIT0;
    t.cnt := 0;
  }

  /** `clearTIMx`: an update event, UIF cleared and the counter restarted; the reload
      value and everything else unchanged. */
  method ClearTimx(t: TimerRegs)
    modifies t
    ensures t.egr & BIT0 == BIT0 && t.egr & !BIT0 == old(t.egr) & !BIT0
    ensures t.sr & BIT0 == 0 && t.sr & !BIT0 == old(t.sr) & !BIT0
    ensures t.cnt == 0
    ensures t.psc == old(t.psc) && t.cr1 == old(t.cr1) && t.dier == old(t.dier) && t.arr == old(t.arr)
  {
    t.egr := t.egr | BIT0;
    t.sr := t.sr & !BIT0;
    t.cnt := 0;
  }

  /** `initializeTIM15Counter`: prescaler 7999, UDIS cleared, ARPE set, UG cleared and
      the counter enabled. */
  method InitializeTim15Counter(tim15: TimerRegs)
    modifies tim15
    ensures tim15.psc == PRESCALER
    ensures tim15.cr1 & (ARPE | BIT0) == ARPE | BIT0 && tim15.cr1 & UDIS == 0
    ensures tim15.cr1 & !(ARPE | UDIS | BIT0) == old(tim15.cr1) & !(ARPE | UDIS | BIT0)
    ensures tim15.egr & BIT0 == 0 && tim15.egr & !BIT0 == old(tim15.egr) & !BIT0
    ensures tim15.dier == old(tim15.dier) && tim15.arr == old(tim15.arr)
    ensures tim15.sr == old(tim15.sr) && tim15.cnt == old(tim15.cnt)
  {
    tim15.psc := PRESCALER;
    tim15.cr1 := tim15.cr1 & !UDIS;
    tim15.cr1 := tim15.cr1 | ARPE;
    tim15.egr := tim15.egr & !BIT0;
    tim15.cr1 := tim15.cr1 | BIT0;
  }

  /** `setTIM15Count`: the same reload value and update event as `setTIMxCount`, but
      the counter keeps running from where it was. */
  method SetTim15Count(tim15: TimerRegs, ms: int)
    requires 1 <= ms <= 6553
    modifies tim15
    ensures tim15.arr == 10 * ms - 1
    ensures tim15.egr & BIT0 == BIT0 && tim15.egr & !BIT0 == old(tim15.egr) & !BIT0
    ensures tim15.sr & BIT0 == 0 && tim15.sr & !BIT0 == old(tim15.sr) & !BIT0
    ensures tim15.cnt == old(tim15.cnt)
    ensures tim15.psc == old(tim15.psc) && tim15.cr1 == old(tim15.cr1) && tim15.dier == old(tim15.dier)
  {
    MaxCountForDelay(ms);
    var maxcnt := MaxCount15(ms);
    tim15.arr := maxcnt;
    tim15.egr := tim15.egr | BIT0;
    tim15.sr := tim15.sr & !BIT0;
  }
}
