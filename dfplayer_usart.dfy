/**
 * The DFPlayer Mini driver on a hardware USART (project/stm/dfplayermini/DFPLAYER_MINI.c,
 * used by the copy_of_fft firmware).  Every byte handed to the USART library's
 * `sendChar` is appended to the trace `sent`; the library itself, the pin set-up
 * and the busy-waits are not modelled, and the three button levels are a parameter
 * of `CheckKey`.
 */
module DFPlayerUsart {
  import opened DFPlayerProtocol

  class UsartPlayer {
    /** The `static int` flags of the driver. */
    var isPlaying: int
    var isPaused: int
    /** Every byte handed to `sendChar(USART, ·)`, oldest first. */
    var sent: seq<Byte>

    function State(): PlayState
      reads this
    {
      PlayState(isPlaying, isPaused)
    }

    /** The static initialisers: playing, not paused, nothing sent. */
    constructor ()
      ensures State() == PLAYING && sent == []
    {
      isPlaying, isPaused := 1, 0;
      sent := [];
    }

    /** `Send_cmd`: build the frame with its checksum and send its 10 bytes in order. */
    method SendCmd(c: Command)
      modifies this`sent
      ensures sent == old(sent) + Frames([c])
    {
      var checksum := (VERSION + CMD_LEN + c.cmd + FEEDBACK + c.param1 + c.param2) % 0x1_0000;
      checksum := (0 - checksum) % 0x1_0000;
      var frame: seq<Byte> := [START_BYTE, VERSION, CMD_LEN, c.cmd, FEEDBACK, c.param1, c.param2,
                               (checksum / 256) % 256, checksum % 256, END_BYTE];
      var i := 0;
      while i < FRAME_LEN
        invariant 0 <= i <= FRAME_LEN
        invariant sent == old(sent) + frame[..i]
      {
        assert frame[..i + 1] == frame[..i] + [frame[i]];
        sent := sent + [frame[i]];
        i := i + 1;
      }
      assert frame[..FRAME_LEN] == frame;
      FramesOne(c);
    }

    /** `DF_Init`: select the TF card, then set the volume. */
    method Init(volume: Byte)
      modifies this`sent
      ensures sent == old(sent) + Frames([SELECT_SOURCE, SetVolumeCmd(volume)])
    {
      SendCmd(SELECT_SOURCE);
      SendCmd(SetVolumeCmd(volume));
      FramesAppend([SELECT_SOURCE], [SetVolumeCmd(volume)]);
      assert [SELECT_SOURCE] + [SetVolumeCmd(volume)] == [SELECT_SOURCE, SetVolumeCmd(volume)];
    }

    /** `DF_PlayFromStart`: play track 1 and mark the player as playing. */
    method PlayFromStart()
      modifies this
      ensures State() == PLAYING && sent == old(sent) + Frames([PLAY_FIRST])
    {
      SendCmd(PLAY_FIRST);
      isPlaying := 1;
      isPaused := 0;
    }

    /** `DF_Next`. */
    method Next()
      modifies this`sent
      ensures sent == old(sent) + Frames([NEXT])
    {
      SendCmd(NEXT);
    }

    /** `DF_Previous`. */
    method Previous()
      modifies this`sent
      ensures sent == old(sent) + Frames([PREVIOUS])
    {
      SendCmd(PREVIOUS);
    }

    /** `DF_Pause`. */
    method Pause()
      modifies this`sent
      ensures sent == old(sent) + Frames([PAUSE])
    {
      SendCmd(PAUSE);
    }

    /** `DF_Playback`. */
    method Playback()
      modifies this`sent
      ensures sent == old(sent) + Frames([PLAYBACK])
    {
      SendCmd(PLAYBACK);
    }

    /** `DF_SetVolume`. */
    method SetVolume(volume: Byte)
      modifies this`sent
      ensures sent == old(sent) + Frames([SetVolumeCmd(volume)])
    {
      SendCmd(SetVolumeCmd(volume));
    }

    /** `DF_PlayTrack`. */
    method PlayTrack(track: Byte)
      modifies this`sent
      ensures sent == old(sent) + Frames([PlayTrackCmd(track)])
    {
      SendCmd(PlayTrackCmd(track));
    }

    /** The pause/play block of `Check_Key`, entered when the pause button reads high. */
    method PausePressed() returns (ghost cs: seq<Command>)
      modifies this
      ensures (State(), cs) == PauseKey(old(State()))
      ensures sent == old(sent) + Frames(cs)
    {
      cs := [];
      if isPlaying != 0 {
        isPaused := 1;
        isPlaying := 0;
        Pause();
        cs := [PAUSE];
      } else if isPaused != 0 {
        isPlaying := 1;
        isPaused := 0;
        Playback();
        cs := [PLAYBACK];
      } else {
        assert Frames(cs) == [];
      }
    }

    /** `Check_Key` with the button levels it reads: pause/play, then previous, then next. */
    method CheckKey(b: Buttons)
      modifies this
      ensures var (s, cs) := CheckKeyEffect(old(State()), b);
        State() == s && sent == old(sent) + Frames(cs)
    {
      ghost var s0 := sent;
      ghost var cs: seq<Command> := [];
      if b.pause {
        cs := PausePressed();
      }
      assert sent == s0 + Frames(cs) by {
        if !b.pause {
          assert Frames(cs) == [];
        }
      }
      if b.previous {
        Previous();
        FramesAppend(cs, [PREVIOUS]);
        AppendAssoc(s0, Frames(cs), Frames([PREVIOUS]));
        cs := cs + [PREVIOUS];
      }
      if b.next {
        Next();
        FramesAppend(cs, [NEXT]);
        AppendAssoc(s0, Frames(cs), Frames([NEXT]));
        cs := cs + [NEXT];
      }
    }
  }
}
