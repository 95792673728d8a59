/**
 * The serial protocol of the DFPlayer Mini MP3 module as the firmware drives it:
 * the 10-byte command frame with its 16-bit checksum, the 8N1 line levels of one
 * byte on the software UART, the command codes of the `DF_*` functions, and the
 * play/pause state machine of `Check_Key`.  The three copies of the driver
 * (the software-UART one, the USART one and the one inside the Tesla-coil
 * `main.c`) share all of this.
 */
module DFPlayerProtocol {
  import opened Powers

  /** A `uint8_t`. */
  type Byte = x: int | 0 <= x < 256

  datatype Option<T> = None | Some(value: T)

  const START_BYTE: Byte := 0x7E
  const END_BYTE: Byte := 0xEF
  const VERSION: Byte := 0xFF
  const CMD_LEN: Byte := 0x06
  const FEEDBACK: Byte := 0x00
  /** The TF card, selected by `DF_Init`. */
  const SOURCE: Byte := 0x02
  const FRAME_LEN: nat := 10
  /** Line levels per byte: start bit, 8 data bits, stop bit. */
  const LEVELS_PER_BYTE: nat := 10

  /** The three bytes a `Send_cmd` call is given. */
  datatype Command = Command(cmd: Byte, param1: Byte, param2: Byte)

  // ---------------------------------------------------------------------------
  // Frame and checksum

  /** The bytes the checksum covers: version, length, command, feedback, parameters. */
  function ChecksumSum(c: Command): int {
    VERSION + CMD_LEN + c.cmd + FEEDBACK + c.param1 + c.param2
  }

  /** `uint16_t Checksum = sum; Checksum = 0 - Checksum;`: each assignment truncates
      to 16 bits. The checksum cancels the sum modulo 2^16. */
  function Checksum(c: Command): (k: int)
    ensures 0 <= k < 0x1_0000
    ensures (ChecksumSum(c) + k) % 0x1_0000 == 0
  {
    var sum := ChecksumSum(c) % 0x1_0000;
    (0 - sum) % 0x1_0000
  }

  /** `CmdSequence`: start, version, length, command, feedback, the two parameters,
      the checksum high and low bytes, end. */
  function CmdSequence(c: Command): (f: seq<Byte>)
    ensures |f| == FRAME_LEN
  {
    var k := Checksum(c);
    [START_BYTE, VERSION, CMD_LEN, c.cmd, FEEDBACK, c.param1, c.param2, (k / 256) % 256, k % 256, END_BYTE]
  }

  /** The receiving side: a frame is accepted when its fixed bytes are right and the
      checksum cancels the covered bytes modulo 2^16. */
  function ParseFrame(f: seq<Byte>): Option<Command> {
    if |f| == FRAME_LEN && f[0] == START_BYTE && f[1] == VERSION && f[2] == CMD_LEN &&
       f[4] == FEEDBACK && f[9] == END_BYTE &&
       (f[1] as int + f[2] + f[3] + f[4] + f[5] + f[6] + 256 * (f[7] as int) + f[8]) % 0x1_0000 == 0
    then Some(Command(f[3], f[5], f[6]))
    else None
  }

  /** Every frame `Send_cmd` builds is accepted and carries its command. */
  lemma ParseCmdSequence(c: Command)
    ensures ParseFrame(CmdSequence(c)) == Some(c)
  {
    var k := Checksum(c);
    assert 256 * ((k / 256) % 256) + k % 256 == k;
  }

  /** An accepted frame is exactly the one `Send_cmd` builds for its command: the
      checksum bytes are determined by the others. */
  lemma CmdSequenceOfParse(f: seq<Byte>)
    requires ParseFrame(f).Some?
    ensures CmdSequence(ParseFrame(f).value) == f
  {
    var c := ParseFrame(f).value;
    var k := Checksum(c);
    var w := 256 * f[7] as int + f[8];
    assert (ChecksumSum(c) + w) % 0x1_0000 == 0;
    CancelUnique(ChecksumSum(c), w, k);
    assert (w / 256) % 256 == f[7] && w % 256 == f[8];
  }

  /** Two 16-bit values that both cancel the same sum modulo 2^16 are equal. */
  lemma CancelUnique(s: int, w: int, k: int)
    requires 0 <= w < 0x1_0000 && 0 <= k < 0x1_0000
    requires (s + w) % 0x1_0000 == 0 && (s + k) % 0x1_0000 == 0
    ensures w == k
  {
    var q1, q2 := (s + w) / 0x1_0000, (s + k) / 0x1_0000;
    assert s + w == q1 * 0x1_0000 && s + k == q2 * 0x1_0000;
    assert w - k == (q1 - q2) * 0x1_0000;
  }

  // ---------------------------------------------------------------------------
  // Software UART: 8N1 line levels, true = high

  /** Bit i of b, the test `b & (1 << i)`. */
  function BitSet(b: nat, i: nat): bool {
    if i == 0 then b % 2 == 1 else BitSet(b / 2, i - 1)
  }

  /** The n low bits of b, least significant first. */
  function ToBits(b: nat, n: nat): (bits: seq<bool>)
    ensures |bits| == n
  {
    if n == 0 then [] else [b % 2 == 1] + ToBits(b / 2, n - 1)
  }

  /** The number whose bits, least significant first, are `bits`. */
  function FromBits(bits: seq<bool>): (b: nat)
    ensures b < Pow2(|bits|)
  {
    if bits == [] then 0 else (if bits[0] then 1 else 0) + 2 * FromBits(bits[1..])
  }

  lemma {:induction false} ToBitsAt(b: nat, n: nat, i: nat)
    requires i < n
    ensures ToBits(b, n)[i] == BitSet(b, i)
  {
    if i > 0 {
      ToBitsAt(b / 2, n - 1, i - 1);
    }
  }

  lemma {:induction false} FromToBits(b: nat, n: nat)
    requires b < Pow2(n)
    ensures FromBits(ToBits(b, n)) == b
  {
    if n > 0 {
      FromToBits(b / 2, n - 1);
      assert ToBits(b, n)[1..] == ToBits(b / 2, n - 1);
    }
  }

  lemma {:induction false} ToFromBits(bits: seq<bool>)
    ensures ToBits(FromBits(bits), |bits|) == bits
  {
    if bits != [] {
      ToFromBits(bits[1..]);
    }
  }

  /** `sendChar`: low start bit, the 8 data bits least significant first, high stop bit. */
  function UartLevels(b: Byte): (levels: seq<bool>)
    ensures |levels| == LEVELS_PER_BYTE && !levels[0] && levels[9]
    ensures forall i :: 0 <= i < 8 ==> levels[i + 1] == BitSet(b, i)
  {
    var bits := ToBits(b, 8);
    forall i | 0 <= i < 8 ensures bits[i] == BitSet(b, i) {
      ToBitsAt(b, 8, i);
    }
    [false] + bits + [true]
  }

  /** The receiving side of one 8N1 character. */
  function DecodeLevels(levels: seq<bool>): Option<Byte> {
    if |levels| == LEVELS_PER_BYTE && !levels[0] && levels[9] then
      assert Pow2(8) == 256;
      Some(FromBits(levels[1..9]))
    else None
  }

  /** A character sent is a character received. */
  lemma DecodeUartLevels(b: Byte)
    ensures DecodeLevels(UartLevels(b)) == Some(b)
  {
    assert Pow2(8) == 256;
    assert UartLevels(b)[1..9] == ToBits(b, 8);
    FromToBits(b, 8);
  }

  /** Every well-framed character is what `sendChar` emits for the byte it decodes to. */
  lemma UartLevelsOfDecode(levels: seq<bool>)
    requires DecodeLevels(levels).Some?
    ensures UartLevels(DecodeLevels(levels).value) == levels
  {
    var bits := levels[1..9];
    ToFromBits(bits);
    assert levels == [false] + bits + [true];
  }

  /** The line levels of a byte sequence sent one character after the other. */
  function Wire(bytes: seq<Byte>): (levels: seq<bool>)
    ensures |levels| == LEVELS_PER_BYTE * |bytes|
  {
    if bytes == [] then [] else Wire(bytes[..|bytes| - 1]) + UartLevels(bytes[|bytes| - 1])
  }

  /** The receiving side of a run of characters. */
  function DecodeWire(levels: seq<bool>): Option<seq<Byte>>
    decreases |levels|
  {
    if levels == [] then Some([])
    else if |levels| < LEVELS_PER_BYTE then None
    else
      var n := |levels| - LEVELS_PER_BYTE;
      match (DecodeWire(levels[..n]), DecodeLevels(levels[n..]))
      case (Some(front), Some(b)) => Some(front + [b])
      case _ => None
  }

  /** The receiver recovers every byte sent, in order. */
  lemma {:induction false} DecodeWireOfWire(bytes: seq<Byte>)
    ensures DecodeWire(Wire(bytes)) == Some(bytes)
  {
    if bytes != [] {
      var front, last := bytes[..|bytes| - 1], bytes[|bytes| - 1];
      DecodeWireOfWire(front);
      DecodeUartLevels(last);
      var w := Wire(bytes);
      var n := |w| - LEVELS_PER_BYTE;
      assert w[..n] == Wire(front) && w[n..] == UartLevels(last);
      assert front + [last] == bytes;
    }
  }

  /** Sending one more byte appends its character. */
  lemma WireSnoc(a: seq<Byte>, b: Byte)
    ensures Wire(a + [b]) == Wire(a) + UartLevels(b)
  {
    assert (a + [b])[..|a|] == a;
  }

  /** Sending two runs of bytes one after the other puts their levels one after the other. */
  lemma {:induction false} WireAppend(a: seq<Byte>, b: seq<Byte>)
    ensures Wire(a + b) == Wire(a) + Wire(b)
  {
    if b != [] {
      var ab := a + b;
      assert ab[..|ab| - 1] == a + b[..|b| - 1];
      WireAppend(a, b[..|b| - 1]);
    } else {
      assert a + b == a;
    }
  }

  // ---------------------------------------------------------------------------
  // Command codes of the DF_* functions

  const NEXT := Command(0x01, 0x00, 0x00)
  const PREVIOUS := Command(0x02, 0x00, 0x00)
  const PAUSE := Command(0x0E, 0x00, 0x00)
  const PLAYBACK := Command(0x0D, 0x00, 0x00)
  const PLAY_FIRST := Command(0x03, 0x00, 0x01)
  const SELECT_SOURCE := Command(0x3F, 0x00, SOURCE)

  function PlayTrackCmd(track: Byte): Command {
    Command(0x03, 0x00, track)
  }

  function SetVolumeCmd(volume: Byte): Command {
    Command(0x06, 0x00, volume)
  }

  /** The frames a sequence of commands puts on the line, one after the other. */
  function Frames(cs: seq<Command>): (bytes: seq<Byte>)
    ensures |bytes| == FRAME_LEN * |cs|
  {
    if cs == [] then [] else Frames(cs[..|cs| - 1]) + CmdSequence(cs[|cs| - 1])
  }

  /** The receiver splits a run of frames back into the commands sent. */
  function ParseFrames(bytes: seq<Byte>): Option<seq<Command>>
    decreases |bytes|
  {
    if bytes == [] then Some([])
    else if |bytes| < FRAME_LEN then None
    else
      var n := |bytes| - FRAME_LEN;
      match (ParseFrames(bytes[..n]), ParseFrame(bytes[n..]))
      case (Some(front), Some(c)) => Some(front + [c])
      case _ => None
  }

  /** The frames of one command are its frame. */
  lemma FramesOne(c: Command)
    ensures Frames([c]) == CmdSequence(c)
  {
    assert [c][..0] == [];
  }

  lemma {:induction false} FramesAppend(cs: seq<Command>, ds: seq<Command>)
    ensures Frames(cs + ds) == Frames(cs) + Frames(ds)
  {
    if ds != [] {
      var e := cs + ds;
      assert e[..|e| - 1] == cs + ds[..|ds| - 1];
      FramesAppend(cs, ds[..|ds| - 1]);
    } else {
      assert cs + ds == cs;
    }
  }

  /** Proof step for extending a trace: appending one more run after a trace that
      already ends in earlier runs regroups. */
  lemma AppendAssoc<T>(a: seq<T>, b: seq<T>, c: seq<T>)
    ensures (a + b) + c == a + (b + c)
  {
  }

  /** The levels of a run of commands followed by one more. */
  lemma WireFramesSnoc(cs: seq<Command>, c: Command)
    ensures Wire(Frames(cs + [c])) == Wire(Frames(cs)) + Wire(Frames([c]))
  {
    FramesAppend(cs, [c]);
    WireAppend(Frames(cs), Frames([c]));
  }

  /** The receiver recovers every command sent, in order. */
  lemma {:induction false} ParseFramesOfFrames(cs: seq<Command>)
    ensures ParseFrames(Frames(cs)) == Some(cs)
  {
    if cs != [] {
      var front, last := cs[..|cs| - 1], cs[|cs| - 1];
      ParseFramesOfFrames(front);
      ParseCmdSequence(last);
      var f := Frames(cs);
      var n := |f| - FRAME_LEN;
      assert f[..n] == Frames(front) && f[n..] == CmdSequence(last);
      assert front + [last] == cs;
    }
  }

  // ---------------------------------------------------------------------------
  // Play/pause state of Check_Key

  /** The two `static int` flags. */
  datatype PlayState = PlayState(isPlaying: int, isPaused: int)

  /** Their initial values, also what `DF_PlayFromStart` sets. */
  const PLAYING := PlayState(1, 0)
  const PAUSED := PlayState(0, 1)

  /** Exactly one of the flags is 1 (and the other 0). */
  predicate ExactlyOne(s: PlayState) {
    s == PLAYING || s == PAUSED
  }

  /** Button levels read by one `Check_Key` call (true = pressed). */
  datatype Buttons = Buttons(pause: bool, previous: bool, next: bool)

  /** The pause button: playing becomes paused and sends Pause, paused becomes playing
      and sends Playback; with neither flag set nothing happens. */
  function PauseKey(s: PlayState): (PlayState, seq<Command>) {
    if s.isPlaying != 0 then (PlayState(0, 1), [PAUSE])
    else if s.isPaused != 0 then (PlayState(1, 0), [PLAYBACK])
    else (s, [])
  }

  /** One `Check_Key` call: pause, then previous, then next; one command per pressed button. */
  function CheckKeyEffect(s: PlayState, b: Buttons): (PlayState, seq<Command>) {
    var (s1, c1) := if b.pause then PauseKey(s) else (s, []);
    var c2 := if b.previous then c1 + [PREVIOUS] else c1;
    (s1, if b.next then c2 + [NEXT] else c2)
  }

  /** The number of pressed buttons. */
  function Pressed(b: Buttons): nat {
    (if b.pause then 1 else 0) + (if b.previous then 1 else 0) + (if b.next then 1 else 0)
  }

  /** `Check_Key` keeps exactly one flag set, toggles it on a pause press, and sends
      one command per pressed button in the order pause, previous, next. */
  lemma CheckKeyToggles(s: PlayState, b: Buttons)
    requires ExactlyOne(s)
    ensures var (s', cs) := CheckKeyEffect(s, b);
      ExactlyOne(s') && |cs| == Pressed(b) &&
      (b.pause ==> s' != s && cs[0] == (if s == PLAYING then PAUSE else PLAYBACK)) &&
      (!b.pause ==> s' == s) &&
      (b.previous ==> cs[if b.pause then 1 else 0] == PREVIOUS) &&
      (b.next ==> cs[|cs| - 1] == NEXT)
  {
  }

  /** With no button pressed nothing is sent and the state is unchanged. */
  lemma CheckKeyIdle(s: PlayState)
    ensures CheckKeyEffect(s, Buttons(false, false, false)) == (s, [])
  {
    var none: seq<Command> := [];
    assert none + none + none == none;
  }

  /** From the initial state, pause presses alternate Pause and Playback. */
  lemma {:induction false} PausePresses(n: nat)
    ensures var (s, cs) := PausePressesFrom(PLAYING, n);
      ExactlyOne(s) && |cs| == n &&
      forall i :: 0 <= i < n ==> cs[i] == (if i % 2 == 0 then PAUSE else PLAYBACK)
  {
    if n > 0 {
      PausePresses(n - 1);
      var (s, cs) := PausePressesFrom(PLAYING, n - 1);
      assert s == (if (n - 1) % 2 == 0 then PLAYING else PAUSED) by {
        PausePressesState(n - 1);
      }
    }
  }

  /** n presses of the pause button alone. */
  function PausePressesFrom(s: PlayState, n: nat): (PlayState, seq<Command>) {
    if n == 0 then (s, [])
    else
      var (s1, cs) := PausePressesFrom(s, n - 1);
      var (s2, c) := CheckKeyEffect(s1, Buttons(true, false, false));
      (s2, cs + c)
  }

  lemma {:induction false} PausePressesState(n: nat)
    ensures PausePressesFrom(PLAYING, n).0 == (if n % 2 == 0 then PLAYING else PAUSED)
  {
    if n > 0 {
      PausePressesState(n - 1);
    }
  }
}
