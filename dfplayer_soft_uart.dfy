/**
 * The DFPlayer Mini driver that bit-bangs its serial line on PA10
 * (project/stm/src/DFPLAYER_MINI.c, with an identical copy inside the Tesla-coil
 * `main.c`).  The levels written to the TX pin form the trace `wire`; the
 * microsecond and millisecond busy-waits between them are not modelled, and the
 * three button levels are a parameter of `CheckKey`.
 */
module DFPlayerSoftUart {
  import opened DFPlayerProtocol

  class Player {
    /** The `static int` flags of the driver. */
    var isPlaying: int
    var isPaused: int
    /** Every level written to the TX pin, oldest first (true = high). */
    var wire: seq<bool>

    function State(): PlayState
      reads this
    {
      PlayState(isPlaying, isPaused)
    }

    /** The static initialisers: playing, not paused, nothing sent. */
    constructor ()
      ensures State() == PLAYING && wire == []
    {
      isPlaying, isPaused := 1, 0;
      wire := [];
    }

    /** `sendChar`: one 8N1 character. */
    method SendChar(b: Byte)
      modifies this`wire
      ensures wire == old(wire) + UartLevels(b)
    {
      ghost var levels := UartLevels(b);
      wire := wire + [false];
      var i := 0;
      while i < 8
        invariant 0 <= i <= 8
        invariant wire == old(wire) + levels[..i + 1]
      {
        assert levels[..i + 2] == levels[..i + 1] + [BitSet(b, i)];
        if BitSet(b, i) {
          wire := wire + [true];
        } else {
          wire := wire + [false];
        }
        i := i + 1;
      }
      wire := wire + [true];
      assert levels == levels[..9] + [true];
    }

    /** `Send_cmd`: build the frame with its checksum and send its 10 bytes in order. */
    method SendCmd(c: Command)
      modifies this`wire
      ensures wire == old(wire) + Wire(Frames([c]))
    {
      var frame := BuildFrame(c);
      SendBytes(frame);
      FramesOne(c);
    }

    /** The send loop of `Send_cmd`: one `sendChar` per byte, in order. */
    method SendBytes(bytes: seq<Byte>)
      modifies this`wire
      ensures wire == old(wire) + Wire(bytes)
    {
      var i := 0;
      while i < |bytes|
        invariant 0 <= i <= |bytes|
        invariant wire == old(wire) + Wire(bytes[..i])
      {
        assert bytes[..i + 1] == bytes[..i] + [bytes[i]];
        WireSnoc(bytes[..i], bytes[i]);
        SendChar(bytes[i]);
        i := i + 1;
      }
      assert bytes[..|bytes|] == bytes;
    }

    /** `DF_Init`: select the TF card, then set the volume. */
    method Init(volume: Byte)
      modifies this`wire
      ensures wire == old(wire) + Wire(Frames([SELECT_SOURCE, SetVolumeCmd(volume)]))
    {
      SendCmd(SELECT_SOURCE);
      SendCmd(SetVolumeCmd(volume));
      WireFramesSnoc([SELECT_SOURCE], SetVolumeCmd(volume));
    }

    /** `DF_PlayFromStart`: play track 1 and mark the player as playing. */
    method PlayFromStart()
      modifies this
      ensures State() == PLAYING && wire == old(wire) + Wire(Frames([PLAY_FIRST]))
    {
      SendCmd(PLAY_FIRST);
      isPlaying := 1;
      isPaused := 0;
    }

    /** `DF_Next`. */
    method Next()
      modifies this`wire
      ensures wire == old(wire) + Wire(Frames([NEXT]))
    {
      SendCmd(NEXT);
    }

    /** `DF_Previous`. */
    method Previous()
      modifies this`wire
      ensures wire == old(wire) + Wire(Frames([PREVIOUS]))
    {
      SendCmd(PREVIOUS);
    }

    /** `DF_Pause`. */
    method Pause()
      modifies this`wire
      ensures wire == old(wire) + Wire(Frames([PAUSE]))
    {
      SendCmd(PAUSE);
    }

    /** `DF_Playback`. */
    method Playback()
      modifies this`wire
      ensures wire == old(wire) + Wire(Frames([PLAYBACK]))
    {
      SendCmd(PLAYBACK);
    }

    /** `DF_SetVolume`. */
    method SetVolume(volume: Byte)
      modifies this`wire
      ensures wire == old(wire) + Wire(Frames([SetVolumeCmd(volume)]))
    {
      SendCmd(SetVolumeCmd(volume));
    }

    /** `DF_PlayTrack`. */
    method PlayTrack(track: Byte)
      modifies this`wire
      ensures wire == old(wire) + Wire(Frames([PlayTrackCmd(track)]))
    {
      SendCmd(PlayTrackCmd(track));
    }

    /** The pause/play block of `Check_Key`, entered when the pause button reads high. */
    method PausePressed() returns (ghost sent: seq<Command>)
      modifies this
      ensures (State(), sent) == PauseKey(old(State()))
      ensures wire == old(wire) + Wire(Frames(sent))
    {
      sent := [];
      if isPlaying != 0 {
        isPaused := 1;
        isPlaying := 0;
        Pause();
        sent := [PAUSE];
      } else if isPaused != 0 {
        isPlaying := 1;
        isPaused := 0;
        Playback();
        sent := [PLAYBACK];
      } else {
        assert Wire(Frames(sent)) == [];
      }
    }

    /** `Check_Key` with the button levels it reads: pause/play, then previous, then next. */
    method CheckKey(b: Buttons)
      modifies this
      ensures var (s, cs) := CheckKeyEffect(old(State()), b);
        State() == s && wire == old(wire) + Wire(Frames(cs))
    {
      ghost var w0 := wire;
      ghost var sent: seq<Command> := [];
      if b.pause {
        sent := PausePressed();
      }
      assert wire == w0 + Wire(Frames(sent)) by {
        if !b.pause {
          assert Wire(Frames(sent)) == [];
        }
      }
      if b.previous {
        Previous();
        WireFramesSnoc(sent, PREVIOUS);
        AppendAssoc(w0, Wire(Frames(sent)), Wire(Frames([PREVIOUS])));
        sent := sent + [PREVIOUS];
      }
      if b.next {
        Next();
        WireFramesSnoc(sent, NEXT);
        AppendAssoc(w0, Wire(Frames(sent)), Wire(Frames([NEXT])));
        sent := sent + [NEXT];
      }
      assert wire == w0 + Wire(Frames(sent));
    }
  }

  /** The checksum and the `CmdSequence` initialiser of `Send_cmd`, with the 16-bit
      truncations of its `uint16_t` assignments. */
  method BuildFrame(c: Command) returns (frame: seq<Byte>)
    ensures frame == CmdSequence(c)
  {
    var checksum := (VERSION + CMD_LEN + c.cmd + FEEDBACK + c.param1 + c.param2) % 0x1_0000;
    checksum := (0 - checksum) % 0x1_0000;
    frame := [START_BYTE, VERSION, CMD_LEN, c.cmd, FEEDBACK, c.param1, c.param2,
              (checksum / 256) % 256, checksum % 256, END_BYTE];
  }
}
