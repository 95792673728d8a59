# E155 firmware cores in Dafny

This project models the algorithmic cores of the E155 (microprocessor systems) repository.

**The musical Tesla coil firmware** (`project/stm/src/main.c`, and its integrated copy `project/stm/copy_of_fft/fft/src/main.c`):
- a 256-point radix-2 FFT: the bit-reversal permutation, then the butterfly stages;
- normalisation of the ADC samples;
- the magnitude, global-maximum and greedy peak-selection loops;
- the bank of five phase-accumulator oscillators that the 100 kHz TIM15 interrupt advances and ORs onto one pin;
- start-up and one round of the main loop.

**The stand-alone FFT library** (`project/stm/lib/fft_processing.c`): the same FFT at 512 points and the sorted top-5 peak table of `findTopFrequencies`.

**The DFPlayer Mini driver**, in its two variants:
- bit-banged 8N1 software UART (`project/stm/src/DFPLAYER_MINI.c`);
- hardware USART (`project/stm/dfplayermini/DFPLAYER_MINI.c`).

Both cover the 10-byte command frame and its 16-bit checksum, the command set, and the pause/play state machine of `Check_Key`.

**The lab 6 ESP8266 web server** (`lab6/.../src/main.c`):
- `strstr`-based tag search;
- reading the request line into a fixed buffer;
- the LED update and the page it sends back.

**The lab 5 timer helpers** (`lab5/STM32L432KC_TIM.c`): prescaler and interrupt set-up, the millisecond-to-reload conversion, and the flag and counter resets.

## Modelling conventions

Modules follow the source files:
- `FftIndex` and `Powers`: FFT index pattern;
- `Samples`: ADC words and the complex buffer;
- `Synthesis`: oscillator bank and peak selection shared by both `main.c` copies;
- `SpectrumPass`: one buffer's pass through the main loop;
- `TeslaMain` and `TeslaCopy`: the two firmwares' globals, interrupt and loop;
- `TopFrequencies`: the FFT library;
- `DFPlayerProtocol`: frames, checksum, UART levels and the key state machine;
- `DFPlayerSoftUart` and `DFPlayerUsart`: the two drivers as classes;
- `WebServer`;
- `Timer`.

The following are parameters of the model:
- **Hardware inputs:** button levels, the characters received from the ESP8266, and the indeterminate entry 0 of the `magnitudes` array.
- **Outputs:** written to traces, all oldest first:
  - pin levels written with `digitalWrite`;
  - bytes handed to the USART;
  - strings handed to `sendString`;
  - line levels of the software UART.

Registers are modelled as follows:
- registers whose bits are set and cleared (`SR`, `ODR`, `CR1`, `DIER`, `EGR`) are `bv32` fields, specified through constant masks;
- registers assigned whole (`PSC`, `ARR`, `CNT`) are 32-bit numbers.

`float` arithmetic is exact `real` arithmetic. The butterfly's twiddle-factor arithmetic and `sqrtf(re*re + im*im)` are function parameters, so the FFT is proved about its data movement: which elements each butterfly combines, in which stage, after which permutation.

When a peak is accepted, `main` resets the oscillator's phase to 0 (`project/stm/src/main.c:910`); the model does the same.

The read loop of the web server has no bound check, so `WebServer.ReadRequest` requires the following:
- the newline arrives before the 32nd character, so the buffer keeps a terminating NUL for `strstr`;
- no NUL precedes the newline, since a NUL would hide the newline from `strstr` and the loop would run past the buffer.

## Model

| member | source | states |
|---|---|---|
| Powers.Pow2Monotone | project/stm/lib/fft_processing.c:54 | the stage length doubles strictly: 2^a < 2^b when a < b |
| FftIndex.RevInvolution | project/stm/lib/fft_processing.c:40-51 | k-bit reversal is its own inverse, so the swap loop pairs indices |
| FftIndex.RevStep | project/stm/lib/fft_processing.c:41-47 | the carry loop on `j` (clear top ones, set the next bit) turns rev(i) into rev(i+1) |
| FftIndex.NextReversed | project/stm/src/main.c:190-200 | the inner `bit` loop returns the reversed-increment of `j` |
| FftIndex.BitReversedPermutes | project/stm/src/main.c:190-206 | the bit-reversal reordering is a permutation (multiset preserved) |
| FftIndex.BitReversePermute | project/stm/src/main.c:190-206 | after the loop `data[k] == old(data)[rev(k)]` for every k, and the multiset is kept |
| FftIndex.BitReversalOfEight | project/stm/lib/fft_processing.c:40-51 | for n = 8 the identity becomes [0,4,2,6,1,5,3,7] |
| FftIndex.BlockStartUnique | project/stm/lib/fft_processing.c:58 | blocks of one stage tile the array: each index lies in exactly one block |
| FftIndex.StagePair | project/stm/lib/fft_processing.c:60-75 | in a stage of length len, elements i+t and i+t+len/2 of each block are combined by butterfly t and nothing else |
| FftIndex.BlockButterflies | project/stm/src/main.c:216-240 | the `j` loop performs exactly the butterflies of one block |
| FftIndex.ButterflyStage | project/stm/src/main.c:210-242 | the `i` loop turns the buffer into the stage of length len of its old contents |
| FftIndex.Butterflies | project/stm/src/main.c:210-242 | the `len` loop applies the stages 2, 4, ..., n in order |
| FftIndex.FftCompute | project/stm/src/main.c:185-244 | `fft_compute` leaves the stages applied to the bit-reversed input |
| Samples.Normalize | project/stm/src/main.c:855-858 | the normalised sample inverts to the ADC word, and a 12-bit word lands in [-1, 1) |
| Samples.NormalizeInjective | project/stm/lib/fft_processing.c:118-121 | distinct ADC words give distinct samples |
| Samples.LoadSamples | project/stm/lib/fft_processing.c:118-121 | the buffer holds every normalised sample with imaginary part 0 |
| Synthesis.Advance | project/stm/src/main.c:607-614 | an active oscillator's phase grows by frequency/100000 and wraps by exactly 1 iff it reached 1; an inactive one is unchanged |
| Synthesis.AdvanceInRange | project/stm/src/main.c:609-614 | a phase in [0,1) with increment below 1 stays in [0,1) |
| Synthesis.PhaseAfterTicks | project/stm/src/main.c:609-614 | after n ticks the phase is the fractional part of phase + n*f/100000 |
| Synthesis.AnyHigh | project/stm/src/main.c:603-619 | the output is high iff some active oscillator has phase < 0.5 |
| Synthesis.IdleBankIsLow | project/stm/src/main.c:603-624 | with no active oscillator the pin is written low |
| Synthesis.AdvanceAllInRange | project/stm/src/main.c:606-621 | one tick keeps every phase in [0,1) |
| Synthesis.AdvanceBank | project/stm/src/main.c:603-621 | the loop advances every slot once and returns the OR of the outputs |
| Synthesis.InitBank | project/stm/src/main.c:821-825 | every slot is inactive with frequency and phase 0 |
| Synthesis.IdleInRange | project/stm/src/main.c:821-825 | the initial slot is in range, low, and a tick leaves it unchanged |
| Synthesis.BinFrequencyWindow | project/stm/src/main.c:897-904 | 100 < bin*8000/256 < 2000 holds exactly for bins 4 .. 63 |
| Synthesis.BinFrequencyInjective | project/stm/src/main.c:897 | distinct bins have distinct frequencies |
| Synthesis.ScanMax | project/stm/src/main.c:886-894 | the scan over bins 1 .. 127 returns bin 0 with magnitude 0 or a bin holding its positive magnitude |
| Synthesis.ScanMaxIsFirstMax | project/stm/src/main.c:889-894 | the scanned magnitude bounds all bins, and the first bin reaching it wins the strict `>` comparison |
| Synthesis.ScanMaxIgnoresBinZero | project/stm/src/main.c:873 | bin 0 never influences the scan |
| Synthesis.ScanMaxMonotone | project/stm/src/main.c:872-877 | a pointwise larger spectrum has a larger maximum |
| Synthesis.FindMaxBin | project/stm/src/main.c:886-894 | the inner loop computes the scan |
| Synthesis.GlobalMaxMagnitude | project/stm/src/main.c:872-877 | the global-maximum loop computes the scan's magnitude |
| Synthesis.Decide | project/stm/src/main.c:897-906 | an accepted bin is one of 4 .. 63 and its magnitude beats both the absolute and the relative threshold |
| Synthesis.DecideIsFirstMax | project/stm/src/main.c:889-906 | an accepted bin is the first bin of largest magnitude, and a pass accepts that bin if and only if it lies in 4 .. 63 and its magnitude is above 10 and above the cutoff; a spectrum with nothing above 10 is rejected |
| Synthesis.DecisionAt | project/stm/src/main.c:884-923 | pass k decides on the magnitudes left by passes 0 .. k-1 |
| Synthesis.Apply | project/stm/src/main.c:909-921 | accept: active, frequency of the bin, phase 0; reject: inactive, frequency and phase kept |
| Synthesis.SelectPeaks | project/stm/src/main.c:872-923 | the bank becomes the configuration of the N_FREQ decisions taken with cutoff max*0.5, and the magnitudes have the accepted bins zeroed |
| Synthesis.SelectSlot | project/stm/src/main.c:885-922 | pass n decides slot n only and zeroes the accepted bin |
| Synthesis.MagsStable | project/stm/src/main.c:918-921 | a rejecting pass changes no magnitude, so later passes see the same spectrum |
| Synthesis.RejectIsFinal | project/stm/src/main.c:884-923 | once a pass rejects, every later pass rejects |
| Synthesis.ActiveSlotsFormPrefix | project/stm/src/main.c:884-923 | the active slots after selection form a prefix of the bank |
| Synthesis.MagsDecrease | project/stm/src/main.c:917 | passes only lower magnitudes |
| Synthesis.AcceptedBinsDistinct | project/stm/src/main.c:909-917 | no bin is accepted twice, and accepted magnitudes do not increase from slot to slot |
| Synthesis.AcceptedSlot | project/stm/src/main.c:909-921 | slot k is active iff pass k accepted, and then sounds that bin's frequency |
| Synthesis.SilentSpectrum | project/stm/src/main.c:905 | a spectrum with no magnitude above 10 leaves every slot inactive |
| Synthesis.SelectionIgnoresBinZero | project/stm/src/main.c:864-889 | the never-written bin 0 influences no decision |
| SpectrumPass.Spectrum | project/stm/src/main.c:864-869 | entry k of the magnitude array is the magnitude of bin k for 1 <= k < 128; entry 0 is whatever it held |
| SpectrumPass.SelectionIgnoresDc | project/stm/src/main.c:864-880 | the indeterminate entry 0 changes neither the cutoff nor any decision |
| SpectrumPass.MagnitudeBins | project/stm/src/main.c:864-869 | the magnitude loop fills bins 1 .. 127 and leaves entry 0 |
| SpectrumPass.ProcessBuffer | project/stm/src/main.c:853-923 | normalise, transform, take magnitudes and configure the bank; the result is stated through the specification functions |
| TeslaMain.Firmware.Tim15Handler | project/stm/src/main.c:599-626 | without UIF nothing changes; with it, only UIF is cleared, the bank advances once, and the OR of the outputs is written to the pin |
| TeslaMain.Firmware.Setup | project/stm/src/main.c:821-840 | the bank is idle and the wire carries the select-source, volume-15 and play-first frames in order |
| TeslaMain.Firmware.LoopRound | project/stm/src/main.c:847-933 | `Check_Key`'s effect, then, if a buffer was ready, the flag is cleared and the spectrum pass applied; otherwise buffers and bank are untouched |
| TeslaCopy.CopyFirmware.Tim15Handler | project/stm/copy_of_fft/fft/src/main.c:185-212 | like the main firmware, but PB0 of ODR becomes the OR and every other ODR bit is kept |
| TeslaCopy.CopyFirmware.InitDFPlayer | project/stm/copy_of_fft/fft/src/main.c:281-297 | the USART receives the select-source, volume-25 and play-first frames, and the player is playing |
| TeslaCopy.CopyFirmware.InitOscillators | project/stm/copy_of_fft/fft/src/main.c:330-334 | every slot is idle |
| TeslaCopy.CopyFirmware.LoopRound | project/stm/copy_of_fft/fft/src/main.c:342-412 | `Check_Key(dfplayer_usart)`, then the spectrum pass when a buffer was ready |
| TopFrequencies.BinFrequency | project/stm/lib/fft_processing.c:101 | a bin's frequency times 512 equals bin*20000 |
| TopFrequencies.BinFrequencyInjective | project/stm/lib/fft_processing.c:101 | distinct bins give distinct frequencies |
| TopFrequencies.ResetPeaks | project/stm/lib/fft_processing.c:82-85 | the reset table holds five zero peaks |
| TopFrequencies.FirstBelow | project/stm/lib/fft_processing.c:92-93 | the insertion point is the first slot with a strictly smaller magnitude |
| TopFrequencies.InsertShape | project/stm/lib/fft_processing.c:92-103 | slots before the insertion point are kept, the new peak sits at it, later slots move down one and the last drops out |
| TopFrequencies.InsertSorted | project/stm/lib/fft_processing.c:92-103 | insertion keeps the table sorted by non-increasing magnitude |
| TopFrequencies.InsertGood | project/stm/lib/fft_processing.c:88-105 | one bin step keeps the table's invariant: sorted, genuine bins, distinct bins with ties in bin order, and every left-out bin dominated |
| TopFrequencies.TopSlotsGood | project/stm/lib/fft_processing.c:80-106 | the final table is sorted, holds only bins 1 .. 255 with positive magnitudes, distinct, and no left-out bin beats an entry |
| TopFrequencies.TopSlotsIgnoreDc | project/stm/lib/fft_processing.c:88 | bin 0 never enters the table |
| TopFrequencies.SilentTable | project/stm/lib/fft_processing.c:88-105 | with no positive magnitude the table stays at its reset value |
| TopFrequencies.ShiftDown | project/stm/lib/fft_processing.c:95-97 | entries after j move down one place; entries up to j are kept |
| TopFrequencies.InsertPeak | project/stm/lib/fft_processing.c:92-103 | the `j` loop with `break` performs the table insertion |
| TopFrequencies.FindTopFrequencies | project/stm/lib/fft_processing.c:80-106 | the peaks array ends as the top table of bins 1 .. 255 |
| TopFrequencies.FftProcessor.ProcessFFT | project/stm/lib/fft_processing.c:116-135 | normalise, 512-point transform, magnitudes of bins 0 .. 255, then the top table |
| TopFrequencies.Magnitudes | project/stm/lib/fft_processing.c:127-131 | every magnitude entry is the magnitude of its bin |
| DFPlayerProtocol.Checksum | project/stm/src/DFPLAYER_MINI.c:87-88 | the 16-bit checksum cancels the covered bytes modulo 2^16 |
| DFPlayerProtocol.ParseCmdSequence | project/stm/src/DFPLAYER_MINI.c:86-101 | every frame `Send_cmd` builds is accepted by a receiver and carries its command |
| DFPlayerProtocol.CmdSequenceOfParse | project/stm/src/DFPLAYER_MINI.c:90-101 | every accepted frame is the one built for its command |
| DFPlayerProtocol.FromToBits | project/stm/src/DFPLAYER_MINI.c:37-44 | reading the 8 data bits back gives the byte |
| DFPlayerProtocol.UartLevels | project/stm/src/DFPLAYER_MINI.c:31-49 | a character is a low start bit, bit i of the byte as level i+1, and a high stop bit |
| DFPlayerProtocol.DecodeUartLevels | project/stm/src/DFPLAYER_MINI.c:31-49 | a receiver decodes each sent character to its byte |
| DFPlayerProtocol.UartLevelsOfDecode | project/stm/src/DFPLAYER_MINI.c:31-49 | every well-framed character is the one sent for its byte |
| DFPlayerProtocol.DecodeWireOfWire | project/stm/src/DFPLAYER_MINI.c:104-106 | the receiver recovers every byte sent, in order |
| DFPlayerProtocol.WireAppend | project/stm/src/DFPLAYER_MINI.c:104-106 | sending two runs one after the other puts their levels one after the other |
| DFPlayerProtocol.FramesAppend | project/stm/src/DFPLAYER_MINI.c:113-122 | the frames of consecutive commands concatenate |
| DFPlayerProtocol.ParseFramesOfFrames | project/stm/src/DFPLAYER_MINI.c:86-107 | the receiver splits a run of frames back into the commands sent |
| DFPlayerProtocol.CheckKeyToggles | project/stm/src/DFPLAYER_MINI.c:161-194 | exactly one of playing/paused stays set, a pause press toggles it and sends Pause or Playback, and one command is sent per pressed button |
| DFPlayerProtocol.CheckKeyIdle | project/stm/src/DFPLAYER_MINI.c:161-194 | with no button pressed nothing is sent and the state is unchanged |
| DFPlayerProtocol.PausePresses | project/stm/src/DFPLAYER_MINI.c:164-178 | from the initial state, pause presses alternate Pause and Playback |
| DFPlayerProtocol.PausePressesState | project/stm/src/DFPLAYER_MINI.c:169-177 | after n pause presses the player is playing iff n is even |
| DFPlayerSoftUart.Player.constructor | project/stm/src/DFPLAYER_MINI.c:80-81 | playing, not paused, nothing sent |
| DFPlayerSoftUart.Player.SendChar | project/stm/src/DFPLAYER_MINI.c:31-49 | the wire gains the 10 levels of the byte's character |
| DFPlayerSoftUart.Player.SendCmd | project/stm/src/DFPLAYER_MINI.c:86-107 | the wire gains the characters of the command's frame |
| DFPlayerSoftUart.Player.SendBytes | project/stm/src/DFPLAYER_MINI.c:104-106 | the wire gains the characters of the bytes in order |
| DFPlayerSoftUart.BuildFrame | project/stm/src/DFPLAYER_MINI.c:87-101 | the checksum computation and array initialiser give the frame |
| DFPlayerSoftUart.Player.Init | project/stm/src/DFPLAYER_MINI.c:113-122 | the select-source and set-volume frames, in order |
| DFPlayerSoftUart.Player.PlayFromStart | project/stm/src/DFPLAYER_MINI.c:124-129 | the play-first frame, and the player is playing |
| DFPlayerSoftUart.Player.Next | project/stm/src/DFPLAYER_MINI.c:131-134 | the next-track frame |
| DFPlayerSoftUart.Player.Previous | project/stm/src/DFPLAYER_MINI.c:136-139 | the previous-track frame |
| DFPlayerSoftUart.Player.Pause | project/stm/src/DFPLAYER_MINI.c:141-144 | the pause frame |
| DFPlayerSoftUart.Player.Playback | project/stm/src/DFPLAYER_MINI.c:146-149 | the playback frame |
| DFPlayerSoftUart.Player.SetVolume | project/stm/src/DFPLAYER_MINI.c:151-154 | the set-volume frame for the volume |
| DFPlayerSoftUart.Player.PlayTrack | project/stm/src/DFPLAYER_MINI.c:156-159 | the play-track frame for the track |
| DFPlayerSoftUart.Player.PausePressed | project/stm/src/DFPLAYER_MINI.c:164-178 | the pause-button block follows the key state machine |
| DFPlayerSoftUart.Player.CheckKey | project/stm/src/DFPLAYER_MINI.c:161-194 | state and wire follow the key state machine for the pressed buttons |
| DFPlayerUsart.UsartPlayer.constructor | project/stm/dfplayermini/DFPLAYER_MINI.c:23-24 | playing, not paused, nothing sent |
| DFPlayerUsart.UsartPlayer.SendCmd | project/stm/dfplayermini/DFPLAYER_MINI.c:27-48 | the USART receives the command's 10-byte frame |
| DFPlayerUsart.UsartPlayer.Init | project/stm/dfplayermini/DFPLAYER_MINI.c:50-64 | the select-source and set-volume frames, in order |
| DFPlayerUsart.UsartPlayer.PlayFromStart | project/stm/dfplayermini/DFPLAYER_MINI.c:66-71 | the play-first frame, and the player is playing |
| DFPlayerUsart.UsartPlayer.Next | project/stm/dfplayermini/DFPLAYER_MINI.c:73-76 | the next-track frame |
| DFPlayerUsart.UsartPlayer.Previous | project/stm/dfplayermini/DFPLAYER_MINI.c:78-81 | the previous-track frame |
| DFPlayerUsart.UsartPlayer.Pause | project/stm/dfplayermini/DFPLAYER_MINI.c:83-86 | the pause frame |
| DFPlayerUsart.UsartPlayer.Playback | project/stm/dfplayermini/DFPLAYER_MINI.c:88-91 | the playback frame |
| DFPlayerUsart.UsartPlayer.SetVolume | project/stm/dfplayermini/DFPLAYER_MINI.c:93-96 | the set-volume frame |
| DFPlayerUsart.UsartPlayer.PlayTrack | project/stm/dfplayermini/DFPLAYER_MINI.c:98-101 | the play-track frame |
| DFPlayerUsart.UsartPlayer.PausePressed | project/stm/dfplayermini/DFPLAYER_MINI.c:103-118 | the pause-button block follows the key state machine |
| DFPlayerUsart.UsartPlayer.CheckKey | project/stm/dfplayermini/DFPLAYER_MINI.c:103-134 | state and sent bytes follow the key state machine for the pressed buttons |
| WebServer.CString | lab6/tutorial-esp8266-click-webserver-main/src/main.c:38 | the string `strstr` searches is the longest NUL-free prefix of the buffer |
| WebServer.StrstrFindsFirst | lab6/tutorial-esp8266-click-webserver-main/src/main.c:38 | the search finds a needle exactly when it occurs, and then at its first occurrence |
| WebServer.InStringMeans | lab6/tutorial-esp8266-click-webserver-main/src/main.c:37-41 | `inString` is 1 iff the tag is a substring and -1 iff it is not, never anything else |
| WebServer.GuardStopsAtNewline | lab6/tutorial-esp8266-click-webserver-main/src/main.c:97 | the loop guard holds until the newline has been stored and fails right after |
| WebServer.ReceivedText | lab6/tutorial-esp8266-click-webserver-main/src/main.c:93-101 | the searched text is the characters received followed by the initial blanks not yet overwritten |
| WebServer.ReadRequest | lab6/tutorial-esp8266-click-webserver-main/src/main.c:93-101 | the loop consumes exactly the line up to and including the first newline, stored from index 0 |
| WebServer.StatusTextDistinguishes | lab6/tutorial-esp8266-click-webserver-main/src/main.c:110-114 | the status reads "LED is on!" iff the status is 1 and "LED is off!" iff it is 0 |
| WebServer.FormRequests | lab6/tutorial-esp8266-click-webserver-main/src/main.c:33-34 | the requests of the page's two buttons ask for on and off respectively |
| WebServer.Board.constructor | lab6/tutorial-esp8266-click-webserver-main/src/main.c:79-80 | the LED pin starts driven low; nothing has been sent |
| WebServer.Board.UpdateLedStatus | lab6/tutorial-esp8266-click-webserver-main/src/main.c:43-57 | "ledoff" writes low and gives 0 even if "ledon" is present; "ledon" alone writes high and gives 1; with neither, no write and 0 |
| WebServer.Board.ServeRequest | lab6/tutorial-esp8266-click-webserver-main/src/main.c:87-131 | one round writes the LED as the line asks and sends the page whose status reports it |
| WebServer.Board.SendPage | lab6/tutorial-esp8266-click-webserver-main/src/main.c:117-130 | the ten strings are sent in the fixed order: start, controls, header, status paragraph, temperature paragraph, end |
| Timer.MaxCountForDelay | lab5/STM32L432KC_TIM.c:36-39 | for 1 <= ms <= 6553 the reload value is 10*ms - 1, fits 16 bits, and ARR+1 ticks at 10 kHz last ms milliseconds |
| Timer.LongestDelay | lab5/STM32L432KC_TIM.c:37 | 6554 ms needs a reload value beyond 16 bits, and 0 ms a negative one |
| Timer.InitTim | lab5/STM32L432KC_TIM.c:7-21 | PSC = 7999, and UG, CEN, TIE and UIE are set; every other bit is kept |
| Timer.SetTimxCount | lab5/STM32L432KC_TIM.c:33-44 | ARR is the reload value for ms; UG is set, UIF cleared and CNT zeroed; other bits and registers are kept |
| Timer.ClearTimx | lab5/STM32L432KC_TIM.c:46-50 | UG is set, UIF cleared and CNT zeroed; nothing else changes |
| Timer.InitializeTim15Counter | lab5/STM32L432KC_TIM.c:67-91 | PSC = 7999, UDIS cleared, ARPE and CEN set, UG cleared; other bits are kept |
| Timer.SetTim15Count | lab5/STM32L432KC_TIM.c:95-105 | ARR = 10*ms - 1, UG is set and UIF cleared; CNT keeps counting |

## Left out

- FFT arithmetic: the twiddle factors (`cosf`/`sinf`), the complex multiply-add of a butterfly and `sqrtf` are parameters. The model proves which elements are combined, and in what order, but not that the result is the discrete Fourier transform.
- Floating point: `float` rounding is not modelled; arithmetic is exact over the reals.
- Concurrency: the ADC/DMA interrupt that fills `adc_buffer` and raises `buffer_ready` runs concurrently with the main loop. The model treats the flag and buffer as fields that a round of the loop reads. The DMA handler and ADC set-up are not modelled.
- Peripheral bring-up (`initSystem`, `initTimer_ADC`, `initTIM15_Synthesis`, `initADC_DMA`, clock, flash, GPIO, SPI and USART set-up): register writes gated on busy-waits for hardware ready flags.
- Busy-waits: `delay_us`, every `delay_millis` (including lab 5's), the button-release spin loops and the `RXNE` wait. The buttons are inputs, assumed released before the next read.
- Diagnostics and transport: `printf`, and the USART/SPI transfers (`sendString`, `readChar`, `spiSendReceive`). Only the traces of what is sent are kept.
- The headers: `project/stm/lib/fft_processing.h:37` declares a two-argument `findTopFrequencies`, while the definition takes only the peaks array and reads the file's static `magnitudes`. The model passes the magnitudes explicitly.
- `project/stm/lib/fft_processing.c:127-131` computes bins 0 .. 255, but the peak table never reads bin 0 (`TopFrequencies.TopSlotsIgnoreDc`).
- The lab 4 sources, `lab5/main.c` (an encoder counter shared between interrupts) and `project/stm/src/config.h` are not part of this model.
- Timer.SetTimxCount: the model keeps the source's unsigned 32-bit product modulo 2^32 in `MaxCount`, but the `uint16_t` conversion is taken as defined only for values in 0 .. 65535 (a precondition).
- WebServer.StatusText: defined for statuses 0 and 1 only; any other status would leave `ledStatusStr` uninitialised, and `updateLEDStatus` never returns one.
- WebServer.ReadRequest: the read loop as written overruns the buffer when the newline is late or follows a NUL. The model excludes those inputs by precondition rather than modelling the overrun.
- The temperature paragraph is the constant text `sprintf` produces for the hard-coded 109 degrees.
