/** The command side of the sound-board protocol: the commands the driver can
    send, the exact frames it puts on the bus for each, and a reference
    parser that reads a frame back into its command.  The parser stands for
    the peripheral's side of the protocol, which is not part of this
    repository; it is the partner the encoder is proved against. */
module Protocol {
  import opened Bytes

  const CHANNEL_MIN := 0
  const CHANNEL_MAX := 3
  const VOLUME_MIN := 0
  const VOLUME_MAX := 9
  /** `strncpy(_buffer + 3, filename, 253)` copies at most this many bytes. */
  const MAX_FILENAME := 253
  /** The local buffer of playSound: 3 header bytes + the filename field. */
  const PLAY_BUFFER_SIZE := 256

  const OP_PLAY: byte := 'T' as int
  const OP_REPEAT: byte := 'R' as int
  const OP_STOP: byte := 'S' as int
  const OP_VOLUME: byte := 'V' as int
  const VOLUME_UP: byte := '+' as int
  const VOLUME_DOWN: byte := '-' as int

  predicate ValidChannel(channel: int) {
    CHANNEL_MIN <= channel <= CHANNEL_MAX
  }

  datatype Command =
    | Play(filename: seq<byte>, channel: int, repeat: bool)
    | Stop(channel: int)
    | SetVolume(level: int)
    | VolumeUp
    | VolumeDown

  /** The commands the driver can put on the bus: a channel in 0..3, a level
      in 0..9, and a filename that is a C string of at most 253 bytes. */
  predicate WellFormed(c: Command) {
    match c
    case Play(f, ch, _) => ValidChannel(ch) && NoNul(f) && |f| <= MAX_FILENAME
    case Stop(ch) => ValidChannel(ch)
    case SetVolume(level) => VOLUME_MIN <= level <= VOLUME_MAX
    case _ => true
  }

  /** The wire frame of a command: an opcode byte, then its parameters, no
      terminator.  Every frame is NUL-free, so the `strlen` the driver uses
      to size the write is the frame's length. */
  function Encode(c: Command): (frame: seq<byte>)
    requires WellFormed(c)
    ensures 2 <= |frame| <= PLAY_BUFFER_SIZE
    ensures NoNul(frame)
  {
    match c
    case Play(f, ch, rep) => [if rep then OP_REPEAT else OP_PLAY, Digit(ch), SPACE] + f
    case Stop(ch) => [OP_STOP, Digit(ch)]
    case SetVolume(level) => [OP_VOLUME, Digit(level)]
    case VolumeUp => [OP_VOLUME, VOLUME_UP]
    case VolumeDown => [OP_VOLUME, VOLUME_DOWN]
  }

  predicate IsChannelDigit(b: byte) {
    ZERO + CHANNEL_MIN <= b <= ZERO + CHANNEL_MAX
  }

  /** Reads a frame back into the command it encodes, or None when the frame
      is not one the driver could have sent. */
  function Parse(frame: seq<byte>): (c: Option<Command>)
  {
    if |frame| < 2 then None
    else if frame[0] == OP_PLAY || frame[0] == OP_REPEAT then
      if 3 <= |frame| <= PLAY_BUFFER_SIZE && IsChannelDigit(frame[1]) && frame[2] == SPACE
         && NoNul(frame[3..])
      then Some(Play(frame[3..], frame[1] - ZERO, frame[0] == OP_REPEAT))
      else None
    else if frame[0] == OP_STOP then
      if |frame| == 2 && IsChannelDigit(frame[1]) then Some(Stop(frame[1] - ZERO)) else None
    else if frame[0] == OP_VOLUME && |frame| == 2 then
      if frame[1] == VOLUME_UP then Some(VolumeUp)
      else if frame[1] == VOLUME_DOWN then Some(VolumeDown)
      else if IsDigit(frame[1]) then Some(SetVolume(frame[1] - ZERO))
      else None
    else None
  }

  /** Every command the driver sends is read back as itself. */
  lemma ParseEncode(c: Command)
    requires WellFormed(c)
    ensures Parse(Encode(c)) == Some(c)
  {
    var frame := Encode(c);
    if c.Play? {
      assert frame[3..] == c.filename;
    }
  }

  /** Conversely, every frame the parser accepts is the encoding of exactly the
      well-formed command it yields: the frame language is the encoder's image. */
  lemma EncodeParse(frame: seq<byte>)
    requires Parse(frame).Some?
    ensures WellFormed(Parse(frame).value)
    ensures Encode(Parse(frame).value) == frame
  {
    var c := Parse(frame).value;
    if c.Play? {
      assert frame == [frame[0], frame[1], frame[2]] + frame[3..];
    } else {
      assert frame == [frame[0], frame[1]];
    }
  }

  /** Distinct commands never share a frame. */
  lemma EncodeInjective(c1: Command, c2: Command)
    requires WellFormed(c1) && WellFormed(c2)
    requires Encode(c1) == Encode(c2)
    ensures c1 == c2
  {
    ParseEncode(c1);
    ParseEncode(c2);
  }

  /** The filename field of playSound: the caller's C string, cut to 253 bytes. */
  function FileField(filename: seq<byte>): (f: seq<byte>)
    ensures |f| == if CStrLen(filename) <= MAX_FILENAME then CStrLen(filename) else MAX_FILENAME
    ensures f <= filename
    ensures NoNul(f)
  {
    var s := CString(filename);
    if |s| <= MAX_FILENAME then s else s[..MAX_FILENAME]
  }

  /** The frame playSound writes for a valid channel. */
  function PlayFrame(filename: seq<byte>, channel: int, repeat: bool): (frame: seq<byte>)
    requires ValidChannel(channel)
    ensures 3 <= |frame| <= PLAY_BUFFER_SIZE
    ensures Parse(frame) == Some(Play(FileField(filename), channel, repeat))
  {
    ParseEncode(Play(FileField(filename), channel, repeat));
    Encode(Play(FileField(filename), channel, repeat))
  }

  /** The frame stopSound writes for a valid channel. */
  function StopFrame(channel: int): (frame: seq<byte>)
    requires ValidChannel(channel)
    ensures frame == ['S' as int, '0' as int + channel]
    ensures Parse(frame) == Some(Stop(channel))
  {
    ParseEncode(Stop(channel));
    Encode(Stop(channel))
  }

  /** setVolume's level policy: out-of-range levels are clamped, not rejected. */
  function Clamp(level: int): (r: int)
    ensures VOLUME_MIN <= r <= VOLUME_MAX
    ensures VOLUME_MIN <= level <= VOLUME_MAX ==> r == level
    ensures level < VOLUME_MIN ==> r == VOLUME_MIN
    ensures level > VOLUME_MAX ==> r == VOLUME_MAX
  {
    if level < VOLUME_MIN then VOLUME_MIN
    else if level > VOLUME_MAX then VOLUME_MAX
    else level
  }

  /** The frame setVolume is meant to write (see AsWritten.SetVolumeFrameAsWritten
      for what cpp:94 emits). */
  function SetVolumeFrame(level: int): (frame: seq<byte>)
    ensures frame == ['V' as int, '0' as int + Clamp(level)]
  {
    Encode(SetVolume(Clamp(level)))
  }

  /** Layout of the play frame, byte by byte, in terms of the caller's filename. */
  lemma PlayFrameLayout(filename: seq<byte>, channel: int, repeat: bool)
    requires ValidChannel(channel)
    ensures var frame := PlayFrame(filename, channel, repeat);
      && |frame| == 3 + (if CStrLen(filename) <= MAX_FILENAME then CStrLen(filename) else MAX_FILENAME)
      && frame[0] == (if repeat then 'R' else 'T') as int
      && frame[1] == '0' as int + channel
      && frame[2] == ' ' as int
      && forall j :: 3 <= j < |frame| ==> frame[j] == filename[j - 3]
  {
    var frame := PlayFrame(filename, channel, repeat);
    var f := FileField(filename);
    forall j | 3 <= j < |frame|
      ensures frame[j] == filename[j - 3]
    {
      assert frame[j] == f[j - 3];
    }
  }

  /** A filename that fits is sent unchanged; a longer one is cut to exactly 253 bytes. */
  lemma FileFieldTruncation(filename: seq<byte>)
    requires NoNul(filename)
    ensures |filename| <= MAX_FILENAME ==> FileField(filename) == filename
    ensures |filename| > MAX_FILENAME ==> FileField(filename) == filename[..MAX_FILENAME]
  {
    CStringOfNoNul(filename);
  }

  /** Playing any filename that fits is read back by `Parse` as exactly that play command. */
  lemma PlayRoundTrip(filename: seq<byte>, channel: int, repeat: bool)
    requires ValidChannel(channel) && NoNul(filename) && |filename| <= MAX_FILENAME
    ensures Parse(PlayFrame(filename, channel, repeat)) == Some(Play(filename, channel, repeat))
  {
    FileFieldTruncation(filename);
    ParseEncode(Play(filename, channel, repeat));
  }

  /** setVolume's frame carries the clamped level, and it reads back as that level. */
  lemma SetVolumeClamps(level: int)
    ensures Parse(SetVolumeFrame(level)) == Some(SetVolume(Clamp(level)))
    ensures level < VOLUME_MIN ==> SetVolumeFrame(level) == SetVolumeFrame(VOLUME_MIN)
    ensures level > VOLUME_MAX ==> SetVolumeFrame(level) == SetVolumeFrame(VOLUME_MAX)
  {
    ParseEncode(SetVolume(Clamp(level)));
  }

  // Default arguments of the public methods.
  const DEFAULT_CHANNEL := 0
  const DEFAULT_REPEAT := false
  const DEFAULT_LEVEL := 5
  /** The constructor's initial volume. */
  const INITIAL_VOLUME := 5

  /** A play with the default channel and repeat flag starts `T0 `; the default
      volume level is the volume a new driver assumes. */
  lemma Defaults(filename: seq<byte>)
    ensures PlayFrame(filename, DEFAULT_CHANNEL, DEFAULT_REPEAT)[..3] == ['T' as int, '0' as int, ' ' as int]
    ensures StopFrame(DEFAULT_CHANNEL) == ['S' as int, '0' as int]
    ensures Parse(SetVolumeFrame(DEFAULT_LEVEL)) == Some(SetVolume(INITIAL_VOLUME))
  {
    SetVolumeClamps(DEFAULT_LEVEL);
  }

  // The local volume mirror kept by volumeUp / volumeDn.

  /** `if (curr_volume < 9) curr_volume++`. */
  function VolumeUpStep(v: byte): (r: byte)
    ensures v <= VOLUME_MAX ==> r <= VOLUME_MAX
    ensures v < VOLUME_MAX ==> r == v + 1
    ensures v >= VOLUME_MAX ==> r == v
  {
    if v < VOLUME_MAX then v + 1 else v
  }

  /** `if (curr_volume > 0) curr_volume--`. */
  function VolumeDownStep(v: byte): (r: byte)
    ensures r <= v
    ensures v > VOLUME_MIN ==> r == v - 1
    ensures v == VOLUME_MIN ==> r == VOLUME_MIN
  {
    if v > VOLUME_MIN then v - 1 else v
  }

  /** Inside the scale, a step up and a step down undo each other. */
  lemma VolumeStepsInverse(v: byte)
    ensures v < VOLUME_MAX ==> VolumeDownStep(VolumeUpStep(v)) == v
    ensures VOLUME_MIN < v <= VOLUME_MAX ==> VolumeUpStep(VolumeDownStep(v)) == v
  {
  }

  function VolumeUpSteps(v: byte, n: nat): (r: byte)
  {
    if n == 0 then v else VolumeUpStep(VolumeUpSteps(v, n - 1))
  }

  function VolumeDownSteps(v: byte, n: nat): (r: byte)
  {
    if n == 0 then v else VolumeDownStep(VolumeDownSteps(v, n - 1))
  }

  /** n presses of volume-up from a level on the scale saturate at 9. */
  lemma {:induction false} VolumeUpSaturates(v: byte, n: nat)
    requires v <= VOLUME_MAX
    ensures VolumeUpSteps(v, n) == if v + n <= VOLUME_MAX then v + n else VOLUME_MAX
  {
    if n > 0 {
      VolumeUpSaturates(v, n - 1);
    }
  }

  /** n presses of volume-down saturate at 0. */
  lemma {:induction false} VolumeDownSaturates(v: byte, n: nat)
    ensures VolumeDownSteps(v, n) == if v - n >= VOLUME_MIN then v - n else VOLUME_MIN
  {
    if n > 0 {
      VolumeDownSaturates(v, n - 1);
    }
  }

  /** The scale has nine steps: nine presses take the silent level to the
      loudest, and the bottom to the top takes no fewer. */
  lemma VolumeScaleHasNineSteps()
    ensures VolumeUpSteps(VOLUME_MIN, 9) == VOLUME_MAX
    ensures VolumeUpSteps(VOLUME_MIN, 8) < VOLUME_MAX
    ensures VolumeDownSteps(VOLUME_MAX, 9) == VOLUME_MIN
  {
    VolumeUpSaturates(VOLUME_MIN, 9);
    VolumeUpSaturates(VOLUME_MIN, 8);
    VolumeDownSaturates(VOLUME_MAX, 9);
  }
}
