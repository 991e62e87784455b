/** The reply side of the protocol: the 4-byte status reply, how getStatus
    turns it into the cached volume and status nibble, and which per-channel
    answer it gives.  This is the intended reading of I2C_SoundBoard.cpp:119-141;
    the reading of the code as written is in module AsWritten. */
module Reply {
  import opened Bytes
  import opened Protocol

  const REPLY_LENGTH := 4
  /** First reply byte of a normal (acknowledged) reply. */
  const MARKER_OK: byte := 'N' as int
  /** The status value stored after a refused reply. */
  const STATUS_CLEARED: byte := 0

  /** A status reply as read from the bus: marker, volume digit, status digit, reserved byte. */
  type Reply = s: seq<byte> | |s| == REPLY_LENGTH witness [0, 0, 0, 0]

  /** The cached state after getStatus, with its answer. */
  datatype Status = Status(answer: bool, volume: byte, lastStatus: byte)

  /** The mask tested for channel k in 1..3: bit k - 1 (0x01, 0x02, 0x04). */
  function ChannelMask(channel: int): (m: bv8)
    requires 1 <= channel <= CHANNEL_MAX
  {
    if channel == 1 then 0x01 else if channel == 2 then 0x02 else 0x04
  }

  /** `stt & mask != 0`, the evidently intended test at cpp:135-137. */
  predicate ChannelBusy(stt: byte, channel: int)
    requires 1 <= channel <= CHANNEL_MAX
    ensures ChannelBusy(stt, channel) ==> stt != 0
    ensures stt == ChannelMask(channel) as int ==> ChannelBusy(stt, channel)
  {
    (stt as bv8) & ChannelMask(channel) != 0
  }

  /** The busy test reads bit k - 1 of the status value, arithmetically. */
  lemma ChannelBusyIsBit(stt: byte, channel: int)
    requires stt < 16
    requires 1 <= channel <= CHANNEL_MAX
    ensures ChannelBusy(stt, channel) <==>
      (stt / (if channel == 1 then 1 else if channel == 2 then 2 else 4)) % 2 == 1
  {
    // 16 status values by 3 channels: settle each case by evaluation.
    var s := stt;
    assert s == 0 || s == 1 || s == 2 || s == 3 || s == 4 || s == 5 || s == 6 || s == 7
        || s == 8 || s == 9 || s == 10 || s == 11 || s == 12 || s == 13 || s == 14 || s == 15;
  }

  /** Per-channel answer once a normal reply has been decoded: channel 0 means
      "the device answered", channels 1..3 read their bit, anything else is false. */
  function ChannelAnswer(stt: byte, channel: int): (busy: bool)
    ensures channel == 0 ==> busy
    ensures !(0 <= channel <= CHANNEL_MAX) ==> !busy
  {
    if channel == 0 then true
    else if 1 <= channel <= CHANNEL_MAX then ChannelBusy(stt, channel)
    else false
  }

  /** getStatus, as intended: a failed read changes nothing and answers false;
      a reply whose marker is not 'N' clears the status and answers false;
      otherwise both digits are masked into nibbles and stored, and the
      channel's answer is returned. */
  function StatusStep(volume: byte, lastStatus: byte, reply: Option<Reply>, channel: int): (s: Status)
    ensures s.lastStatus < 16 || s.lastStatus == lastStatus
    ensures s.volume < 16 || s.volume == volume
    ensures s.answer ==> reply.Some? && reply.value[0] == MARKER_OK
    ensures reply.None? ==> s == Status(false, volume, lastStatus)
    ensures reply.Some? && reply.value[0] == MARKER_OK ==>
      s.volume == reply.value[1] % 16 && s.lastStatus == reply.value[2] % 16
    ensures reply.Some? && reply.value[0] == MARKER_OK ==>
      s.answer == ChannelAnswer(reply.value[2] % 16, channel)
  {
    match reply
    case None => Status(false, volume, lastStatus)
    case Some(buffer) =>
      if buffer[0] != MARKER_OK then Status(false, volume, STATUS_CLEARED)
      else
        var stt := MaskedDigit(buffer[2]);
        Status(ChannelAnswer(stt, channel), MaskedDigit(buffer[1]), stt)
  }

  /** What the peripheral sends when it is ready: 'N', the volume digit, the
      status value as '0' + value, and a reserved byte. */
  function ReplyFrame(volume: int, status: int, reserved: byte): (r: Reply)
    requires VOLUME_MIN <= volume <= VOLUME_MAX
    requires 0 <= status < 16
    ensures r[0] == MARKER_OK
  {
    [MARKER_OK, Digit(volume), ZERO + status, reserved]
  }

  /** Decoding a well-formed reply recovers the volume and the status bits
      exactly; the reserved byte and the previous state do not matter. */
  lemma DecodeReplyFrame(volume: int, status: int, reserved: byte, oldVolume: byte, oldStatus: byte, channel: int)
    requires VOLUME_MIN <= volume <= VOLUME_MAX
    requires 0 <= status < 16
    ensures var s := StatusStep(oldVolume, oldStatus, Some(ReplyFrame(volume, status, reserved)), channel);
      && s.volume == volume
      && s.lastStatus == status
      && s.answer == (channel == 0 || (1 <= channel <= CHANNEL_MAX &&
           (status / (if channel == 1 then 1 else if channel == 2 then 2 else 4)) % 2 == 1))
  {
    MaskedDigitInvertsDigit(volume);
    MaskedDigitInvertsDigit(status);
    if 1 <= channel <= CHANNEL_MAX {
      ChannelBusyIsBit(status, channel);
    }
  }

  /** For every reply marked 'N', well-formed or not, the answer is true for
      channel 0, bit k - 1 of the stored status nibble for channel k in 1..3,
      and false for any other channel. */
  lemma AcceptedReplyAnswer(volume: byte, lastStatus: byte, reply: Reply, channel: int)
    requires reply[0] == MARKER_OK
    ensures var s := StatusStep(volume, lastStatus, Some(reply), channel);
      s.answer == (channel == 0 || (1 <= channel <= CHANNEL_MAX &&
        ((reply[2] % 16) / (if channel == 1 then 1 else if channel == 2 then 2 else 4)) % 2 == 1))
  {
    if 1 <= channel <= CHANNEL_MAX {
      ChannelBusyIsBit(reply[2] % 16, channel);
    }
  }

  /** A reply not marked 'N' is a refusal: status cleared, volume kept, answer false. */
  lemma NackResetsStatus(volume: byte, lastStatus: byte, reply: Reply, channel: int)
    requires reply[0] != MARKER_OK
    ensures StatusStep(volume, lastStatus, Some(reply), channel) == Status(false, volume, 0)
  {
  }

  /** The cached values stay within a nibble: both fields are at most 15 after
      any getStatus if they were before, and a reply with a decimal volume
      digit leaves the volume on the 0..9 scale. */
  lemma StatusKeepsNibbles(volume: byte, lastStatus: byte, reply: Option<Reply>, channel: int)
    requires volume < 16 && lastStatus < 16
    ensures var s := StatusStep(volume, lastStatus, reply, channel);
      s.volume < 16 && s.lastStatus < 16
    ensures reply.Some? && IsDigit(reply.value[1]) && volume <= VOLUME_MAX ==>
      StatusStep(volume, lastStatus, reply, channel).volume <= VOLUME_MAX
  {
  }

  /** Reply "N517": byte 1 is the volume and byte 2 the status, so it stores
      volume 5 and status 1; channel 1 is busy and channels 2 and 3 are idle. */
  lemma ReplyN517(volume: byte, lastStatus: byte)
    ensures var reply: Reply := [MARKER_OK, '5' as int, '1' as int, '7' as int];
      && StatusStep(volume, lastStatus, Some(reply), 1) == Status(true, 5, 1)
      && StatusStep(volume, lastStatus, Some(reply), 2) == Status(false, 5, 1)
      && StatusStep(volume, lastStatus, Some(reply), 3) == Status(false, 5, 1)
  {
  }

  /** A malformed volume digit can push the cached volume past the 0..9 scale. */
  lemma MalformedDigitExceedsScale()
    ensures StatusStep(5, 0, Some([MARKER_OK, '?' as int, ZERO, 0]), 0).volume == 15
  {
  }
}
