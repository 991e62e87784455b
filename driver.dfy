/** The I2C_SoundBoard driver object (I2C_SoundBoard.h:24-41,
    I2C_SoundBoard.cpp:23-142): two 8-bit fields the methods update in place,
    and the bus.  A bus write is recorded in the ghost log `sent` (every
    attempted write, in order) and its outcome is the `busOk` parameter; a
    bus read of the 4-byte reply is the `reply` parameter, None when the read
    fails. */
module Driver {
  import opened Bytes
  import opened Protocol
  import opened Reply
  import Buffers

  class SoundBoard {
    var lastStatusResponse: byte
    var currVolume: byte
    ghost var sent: seq<seq<byte>>

    /** Both cached values are nibbles, and every frame written so far is one
        that `Protocol.Parse` reads back as a command. */
    ghost predicate Valid()
      reads this
    {
      && currVolume < 16
      && lastStatusResponse < 16
      && forall i :: 0 <= i < |sent| ==> Parse(sent[i]).Some?
    }

    constructor ()
      ensures Valid()
      ensures lastStatusResponse == 0 && currVolume == INITIAL_VOLUME
      ensures sent == []
    {
      lastStatusResponse := 0;
      currVolume := INITIAL_VOLUME;
      sent := [];
    }

    /** Appends a frame to the bus log; the frame must be a command encoding. */
    ghost method Write(frame: seq<byte>)
      requires Valid()
      requires Parse(frame).Some?
      modifies this`sent
      ensures Valid()
      ensures sent == old(sent) + [frame]
    {
      sent := sent + [frame];
    }

    /** playSound: refuses a channel outside 0..3 without writing; otherwise
        writes the play frame and reports the bus outcome. */
    method PlaySound(filename: seq<byte>, channel: int := DEFAULT_CHANNEL, repeat: bool := DEFAULT_REPEAT,
                     busOk: bool) returns (ok: bool)
      requires Valid()
      modifies this`sent
      ensures Valid()
      ensures ok == (ValidChannel(channel) && busOk)
      ensures sent == if ValidChannel(channel) then old(sent) + [PlayFrame(filename, channel, repeat)] else old(sent)
    {
      var valid, frame := Buffers.FillPlayBuffer(filename, channel, repeat);
      if !valid {
        return false;
      }
      ParseEncode(Play(FileField(filename), channel, repeat));
      Write(frame);
      ok := busOk;
    }

    /** stopSound: refuses a channel outside 0..3 without writing; otherwise
        writes "S" and the channel digit. */
    method StopSound(channel: int := DEFAULT_CHANNEL, busOk: bool) returns (ok: bool)
      requires Valid()
      modifies this`sent
      ensures Valid()
      ensures ok == (ValidChannel(channel) && busOk)
      ensures sent == if ValidChannel(channel) then old(sent) + [StopFrame(channel)] else old(sent)
    {
      var valid, frame := Buffers.FillStopBuffer(channel);
      if !valid {
        return false;
      }
      ParseEncode(Stop(channel));
      Write(frame);
      ok := busOk;
    }

    /** setVolume: writes the clamped level; the cached volume is left for the
        next status read to update. */
    method SetVolume(level: int := DEFAULT_LEVEL, busOk: bool) returns (ok: bool)
      requires Valid()
      modifies this`sent
      ensures Valid()
      ensures ok == busOk
      ensures sent == old(sent) + [SetVolumeFrame(level)]
    {
      var frame := Buffers.FillSetVolumeBuffer(level);
      Write(frame);
      ok := busOk;
    }

    /** volumeUp: raises the cached volume by one unless it is already 9 or
        more, and writes "V+" either way. */
    method VolumeUp(busOk: bool) returns (ok: bool)
      requires Valid()
      modifies this`currVolume, this`sent
      ensures Valid()
      ensures currVolume == VolumeUpStep(old(currVolume))
      ensures old(currVolume) <= VOLUME_MAX ==> currVolume <= VOLUME_MAX
      ensures ok == busOk
      ensures sent == old(sent) + [Encode(Command.VolumeUp)]
    {
      if currVolume < VOLUME_MAX {
        currVolume := currVolume + 1;
      }
      ParseEncode(Command.VolumeUp);
      Write(Encode(Command.VolumeUp));
      ok := busOk;
    }

    /** volumeDn: lowers the cached volume by one unless it is 0, and writes
        "V-" either way. */
    method VolumeDn(busOk: bool) returns (ok: bool)
      requires Valid()
      modifies this`currVolume, this`sent
      ensures Valid()
      ensures currVolume == VolumeDownStep(old(currVolume))
      ensures old(currVolume) <= VOLUME_MAX ==> currVolume <= VOLUME_MAX
      ensures ok == busOk
      ensures sent == old(sent) + [Encode(Command.VolumeDown)]
    {
      if currVolume > VOLUME_MIN {
        currVolume := currVolume - 1;
      }
      ParseEncode(Command.VolumeDown);
      Write(Encode(Command.VolumeDown));
      ok := busOk;
    }

    /** getVolume: the cached volume, which is a nibble. */
    function GetVolume(): (v: int)
      reads this
      ensures v == currVolume
      ensures Valid() ==> v < 16
    {
      currVolume
    }

    /** getLastStatusValue: the low nibble of the cached status, which on a
        valid driver is the cached status itself. */
    function GetLastStatusValue(): (v: int)
      reads this
      ensures 0 <= v < 16
      ensures Valid() ==> v == lastStatusResponse
    {
      LowNibble(lastStatusResponse)
    }

    /** getStatus: reads the 4-byte reply, updates the cached volume and status
        from it, and answers for the channel (Reply.StatusStep).  cpp:124 and
        cpp:135-137 as written differ; see AsWritten.StatusStepAsWritten. */
    method GetStatus(reply: Option<Reply>, channel: int := DEFAULT_CHANNEL) returns (answer: bool)
      requires Valid()
      modifies this`currVolume, this`lastStatusResponse
      ensures Valid()
      ensures Status(answer, currVolume, lastStatusResponse)
           == StatusStep(old(currVolume), old(lastStatusResponse), reply, channel)
    {
      if reply.Some? {
        var buffer := reply.value;
        if buffer[0] != MARKER_OK {
          lastStatusResponse := STATUS_CLEARED;
          return false;
        }
        currVolume := MaskedDigit(buffer[1]);
        var stt := MaskedDigit(buffer[2]);
        lastStatusResponse := stt;
        if channel == 0 { return true; }
        if channel == 1 { return ChannelBusy(stt, 1); }
        if channel == 2 { return ChannelBusy(stt, 2); }
        if channel == 3 { return ChannelBusy(stt, 3); }
      }
      return false;
    }
  }

  /** A session with the default arguments and the status replies "N500" and
      "N170": what a caller can conclude from the contracts alone. */
  method DefaultsSession(filename: seq<byte>)
  {
    var board := new SoundBoard();
    var ok := board.PlaySound(filename, busOk := true);
    assert ok;
    assert board.sent[0][..3] == ['T' as int, '0' as int, ' ' as int] by {
      Defaults(filename);
    }
    ok := board.SetVolume(busOk := true);
    assert board.GetVolume() == INITIAL_VOLUME;
    ok := board.StopSound(7, busOk := true);
    assert !ok && |board.sent| == 2;

    var idle: Reply := ReplyFrame(5, 0, ZERO);
    var busy := board.GetStatus(Some(idle), 1);
    DecodeReplyFrame(5, 0, ZERO, INITIAL_VOLUME, 0, 1);
    assert !busy && board.GetVolume() == 5 && board.GetLastStatusValue() == 0;

    var all: Reply := ReplyFrame(1, 7, ZERO);
    busy := board.GetStatus(Some(all), 3);
    DecodeReplyFrame(1, 7, ZERO, 5, 0, 3);
    assert busy && board.GetVolume() == 1 && board.GetLastStatusValue() == 7;

    ok := board.VolumeDn(busOk := false);
    ok := board.VolumeDn(busOk := false);
    assert board.GetVolume() == 0;
  }
}
