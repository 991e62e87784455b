/** The three places where I2C_SoundBoard.cpp, read literally, does not do
    what its surrounding code and protocol evidently intend.  Each is modelled
    here exactly as written and set against the intended definition that the
    rest of the model (Protocol, Reply, Driver) uses. */
module AsWritten {
  import opened Bytes
  import opened Protocol
  import opened Reply

  /** cpp:124, `!_buffer[0] == 'N'`: `!` binds tighter than `==`, so the
      marker byte is first turned into 0 or 1 and then compared with 78. */
  predicate MarkerTestAsWritten(marker: byte)
    ensures MarkerTestAsWritten(marker) ==> marker == 0
  {
    (if marker == 0 then 1 else 0) == MARKER_OK
  }

  /** The refusal branch of cpp:124-126 can never be taken. */
  lemma MarkerTestNeverFires(marker: byte)
    ensures !MarkerTestAsWritten(marker)
  {
  }

  /** cpp:135-137, `stt | 0x01 == 1` (and 0x02 == 2, 0x04 == 4): `==` binds
      tighter than `|`, so the literal comparison yields 1 and the value
      tested is `stt | 1`. */
  predicate ChannelTestAsWritten(stt: byte, channel: int)
    requires 1 <= channel <= CHANNEL_MAX
    ensures ChannelTestAsWritten(stt, channel) <==> (stt as bv8) | 1 != 0
  {
    var mask := ChannelMask(channel);
    var literal: bv8 := if channel == 1 then 1 else if channel == 2 then 2 else 4;
    (stt as bv8) | (if mask == literal then 1 else 0) != 0
  }

  /** Channels 1..3 always report busy, whatever the status nibble. */
  lemma ChannelTestAlwaysTrue(stt: byte, channel: int)
    requires 1 <= channel <= CHANNEL_MAX
    ensures ChannelTestAsWritten(stt, channel)
  {
  }

  /** getStatus as written (cpp:116-142). */
  function StatusStepAsWritten(volume: byte, lastStatus: byte, reply: Option<Reply>, channel: int): (s: Status)
    ensures reply.None? ==> s == Status(false, volume, lastStatus)
    ensures reply.Some? ==> s.volume == MaskedDigit(reply.value[1]) && s.lastStatus == MaskedDigit(reply.value[2])
  {
    match reply
    case None => Status(false, volume, lastStatus)
    case Some(buffer) =>
      if MarkerTestAsWritten(buffer[0]) then Status(false, volume, STATUS_CLEARED)
      else
        var v := MaskedDigit(buffer[1]);
        var stt := MaskedDigit(buffer[2]);
        if channel == 0 then Status(true, v, stt)
        else if 1 <= channel <= CHANNEL_MAX then Status(ChannelTestAsWritten(stt, channel), v, stt)
        else Status(false, v, stt)
  }

  /** As written, every successful read answers true for channels 0..3: the
      answer depends on neither the marker nor the status bits. */
  lemma StatusAsWrittenAlwaysBusy(volume: byte, lastStatus: byte, reply: Reply, channel: int)
    requires 0 <= channel <= CHANNEL_MAX
    ensures StatusStepAsWritten(volume, lastStatus, Some(reply), channel).answer
  {
    if 1 <= channel {
      ChannelTestAlwaysTrue(MaskedDigit(reply[2]), channel);
    }
  }

  /** Reply "X000" (not ready), with volume 5 and status 3 cached: as written,
      channel 0 answers true and the volume drops to 0; intended, the answer
      is false and the volume stays 5. */
  lemma NotReadyReplyAccepted()
    ensures StatusStepAsWritten(5, 3, Some(['X' as int, ZERO, ZERO, ZERO]), 0) == Status(true, 0, 0)
    ensures StatusStep(5, 3, Some(['X' as int, ZERO, ZERO, ZERO]), 0) == Status(false, 5, 0)
  {
  }

  /** Reply "N500" (nothing playing): as written, channel 1 answers busy;
      intended, it answers idle. */
  lemma IdleChannelReportedBusy()
    ensures StatusStepAsWritten(5, 0, Some([MARKER_OK, '5' as int, ZERO, ZERO]), 1).answer
    ensures !StatusStep(5, 0, Some([MARKER_OK, '5' as int, ZERO, ZERO]), 1).answer
  {
  }

  /** cpp:94, `sprintf(_buffer, "V%n", level)`: `%n` prints nothing (it stores
      the count of bytes written so far through its argument, here an `int`
      taken as a pointer), so the buffer holds "V" and `strlen` gives 1. */
  function SetVolumeFrameAsWritten(level: int): (frame: seq<byte>)
    ensures |frame| == 1 && frame[0] == 'V' as int
    ensures NoNul(frame)
  {
    [OP_VOLUME]
  }

  /** The frame sent as written carries no level: the peripheral cannot read it
      as any command, while the intended frame reads back as the clamped level. */
  lemma SetVolumeAsWrittenUnreadable(level: int)
    ensures Parse(SetVolumeFrameAsWritten(level)) == None
    ensures Parse(SetVolumeFrame(level)) == Some(SetVolume(Clamp(level)))
    ensures SetVolumeFrameAsWritten(level) != SetVolumeFrame(level)
  {
    SetVolumeClamps(level);
  }
}
