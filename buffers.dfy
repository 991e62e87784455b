/** The buffer-filling command encoders as the driver runs them (playSound,
    stopSound, setVolume): each fills a zeroed local `char` buffer in place,
    byte by byte (playSound also with `strncpy`), and sizes the write with
    `strlen` (I2C_SoundBoard.cpp:51-95).  Each method is proved to produce
    exactly the frame that Protocol specifies. */
module Buffers {
  import opened Bytes
  import opened Protocol

  /** What `strncpy(dst, src, n)` leaves in its n destination bytes: the C
      string of `src`, cut to n bytes, padded with NUL up to n. */
  function StrNCopied(src: seq<byte>, n: nat): (field: seq<byte>)
    ensures |field| == n
  {
    var s := CString(src);
    var k := if |s| <= n then |s| else n;
    s[..k] + seq(n - k, _ => NUL)
  }

  /** `strlen(buf)`, stopping at the end of the buffer when it holds no NUL. */
  method StrLen(buf: array<byte>) returns (n: nat)
    ensures n == CStrLen(buf[..])
  {
    n := 0;
    while n < buf.Length && buf[n] != NUL
      invariant n <= buf.Length
      invariant forall j :: 0 <= j < n ==> buf[j] != NUL
    {
      n := n + 1;
    }
    assert buf[..][..n] == buf[..n];
    CStrLenIs(buf[..], n);
  }

  /** `strncpy(dst + at, src, n)`: copy the C string of `src`, at most n bytes,
      then fill the rest of the n bytes with NUL; nothing outside them changes. */
  method StrNCopy(dst: array<byte>, at: nat, src: seq<byte>, n: nat)
    requires at + n <= dst.Length
    modifies dst
    ensures dst[..at] == old(dst[..at])
    ensures dst[at..at + n] == StrNCopied(src, n)
    ensures dst[at + n..] == old(dst[at + n..])
  {
    var i := 0;
    while i < n && i < |src| && src[i] != NUL
      invariant i <= n && i <= |src|
      invariant forall j :: 0 <= j < i ==> src[j] != NUL
      invariant dst[..at] == old(dst[..at]) && dst[at + n..] == old(dst[at + n..])
      invariant dst[at..at + i] == src[..i]
    {
      dst[at + i] := src[i];
      i := i + 1;
    }
    // i is now the length of the copied part of the C string.
    assert src[..i][..i] == src[..i];
    if i < n {
      CStrLenIs(src, i);
    }
    assert i == if CStrLen(src) <= n then CStrLen(src) else n;
    var j := i;
    while j < n
      invariant i <= j <= n
      invariant dst[..at] == old(dst[..at]) && dst[at + n..] == old(dst[at + n..])
      invariant dst[at..at + i] == src[..i]
      invariant forall t :: at + i <= t < at + j ==> dst[t] == NUL
    {
      dst[at + j] := NUL;
      j := j + 1;
    }
    assert dst[at..at + n] == dst[at..at + i] + dst[at + i..at + n];
  }

  /** playSound's encoder (cpp:51-63, 68): a 256-byte zeroed buffer, the
      opcode, the channel digit (or refusal), a space, the filename through
      `strncpy` of at most 253 bytes, and `strlen` for the length. */
  method FillPlayBuffer(filename: seq<byte>, channel: int, repeat: bool) returns (ok: bool, frame: seq<byte>)
    ensures ok == ValidChannel(channel)
    ensures ok ==> frame == PlayFrame(filename, channel, repeat)
    ensures !ok ==> frame == []
  {
    var buffer := new byte[PLAY_BUFFER_SIZE](_ => NUL);
    buffer[0] := if repeat then OP_REPEAT else OP_PLAY;
    if !ValidChannel(channel) {
      return false, [];
    }
    buffer[1] := Digit(channel);
    buffer[2] := SPACE;
    StrNCopy(buffer, 3, filename, MAX_FILENAME);
    var len := StrLen(buffer);
    ok, frame := true, buffer[..len];

    var header := [if repeat then OP_REPEAT else OP_PLAY, Digit(channel), SPACE];
    var field := FileField(filename);
    assert StrNCopied(filename, MAX_FILENAME) == field + seq(MAX_FILENAME - |field|, _ => NUL);
    assert buffer[..] == buffer[..3] + buffer[3..PLAY_BUFFER_SIZE];
    ZeroPaddedLength(buffer[..], header + field);
  }

  /** A NUL-free prefix followed by NUL padding is the C string of the whole. */
  lemma ZeroPaddedLength(b: seq<byte>, text: seq<byte>)
    requires NoNul(text)
    requires text <= b
    requires forall j :: |text| <= j < |b| ==> b[j] == NUL
    ensures CStrLen(b) == |text|
    ensures b[..CStrLen(b)] == text
  {
    assert b[..|text|] == text;
    CStrLenIs(b, |text|);
  }

  /** stopSound's encoder (cpp:72-86): a 4-byte zeroed buffer, 'S', the
      channel digit (or refusal), and `strlen` for the length. */
  method FillStopBuffer(channel: int) returns (ok: bool, frame: seq<byte>)
    ensures ok == ValidChannel(channel)
    ensures ok ==> frame == StopFrame(channel)
    ensures !ok ==> frame == []
  {
    var buffer := new byte[4](_ => NUL);
    buffer[0] := OP_STOP;
    if !ValidChannel(channel) {
      return false, [];
    }
    buffer[1] := Digit(channel);
    var len := StrLen(buffer);
    assert buffer[..] == [OP_STOP, Digit(channel), NUL, NUL];
    CStrLenIs(buffer[..], 2);
    ok, frame := true, buffer[..len];
  }

  /** setVolume's encoder (cpp:89-95): clamp the level into 0..9, then 'V' and
      the level's digit in a 4-byte zeroed buffer.  cpp:94 formats with "V%n",
      which emits "V" alone (AsWritten.SetVolumeFrameAsWritten); this writes
      the digit the protocol calls for. */
  method FillSetVolumeBuffer(level: int) returns (frame: seq<byte>)
    ensures frame == SetVolumeFrame(level)
    ensures Parse(frame) == Some(SetVolume(Clamp(level)))
  {
    var clamped := level;
    if clamped < VOLUME_MIN { clamped := VOLUME_MIN; }
    if clamped > VOLUME_MAX { clamped := VOLUME_MAX; }
    var buffer := new byte[4](_ => NUL);
    buffer[0] := OP_VOLUME;
    buffer[1] := Digit(clamped);
    var len := StrLen(buffer);
    assert buffer[..] == [OP_VOLUME, Digit(clamped), NUL, NUL];
    CStrLenIs(buffer[..], 2);
    frame := buffer[..len];
    SetVolumeClamps(level);
  }
}
