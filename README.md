# I2C_SoundBoard protocol model

A Dafny model of the `I2C_SoundBoard` Arduino driver for an ESP32-S3 audio
player. The driver sends short ASCII command frames over I2C and reads 4-byte
status replies. The model covers:

- the command encoders: `playSound`, `stopSound` and `setVolume` fill a
  zeroed local buffer and size the write with `strlen`; `volumeUp` and
  `volumeDn` write a fixed 2-byte literal. Only `playSound` uses `strncpy`;
- the state the driver keeps (`curr_volume`, `last_status_response`, both
  `uint8_t`), its two accessors and `getStatus`, which decodes the reply.

Modules:

- `Bytes`: 8-bit bytes, ASCII digits, C strings (`strlen`) and the
  `& 0x0F` masks.
- `Protocol`: the `Command` datatype and `Encode`, which gives the exact wire
  frame of each command. It also holds a reference `Parse` that reads a frame
  back, with round-trip lemmas in both directions. The same module has the
  `setVolume` clamp and the `volumeUp`/`volumeDn` saturation.
- `Reply`: the 4-byte status reply, the intended `getStatus` step
  (`StatusStep`) and a reply encoder (`ReplyFrame`) as its partner.
- `AsWritten`: three lines of the source read literally, each with a lemma
  that shows how it departs from the intended behaviour (see Findings).
- `Buffers`: the three buffer-filling encoders as the driver runs them
  (`playSound`, `stopSound`, `setVolume`). Each fills an `array` in place and
  sizes the frame with `strlen`, written as a loop; the play encoder also
  copies the filename with `strncpy`, written as two loops. The set-volume
  encoder stores the clamped level's digit directly rather than modelling
  `sprintf` (see Findings). Each is proved to produce the frame that
  `Protocol` specifies. The fixed `V+`/`V-` literals need no buffer and are
  written by `Driver` directly.
- `Driver`: the `SoundBoard` class. Its fields are updated in place. A ghost
  log `sent` records each bus write; a `busOk` parameter gives the write's
  outcome, and an `Option<Reply>` parameter gives the bus read.

The class invariant `Valid()` says two things. Both cached values are nibbles
(0..15). Every frame the driver has written is one that `Protocol.Parse`, the
model's reading of the wire format, reads back as a command.

Where the code differs from the protocol's intended reply handling (a
refused channel, a validated reply, a volume always on the 0..9 scale), the
model follows the code:

- `getStatus` with a channel outside 0..3 still updates the cached state and
  then answers false. It is not refused up front.
- `getVolume` can return up to 15 after a malformed reply digit, not only
  0..9 (`Reply.MalformedDigitExceedsScale`).
- Reply digits are masked with `& 0x0F`, not validated.
- Byte 1 of the reply is the volume and byte 2 the status (cpp:129-131). So
  the reply "N517" stores volume 5 and status 1: channel 1 is busy and
  channels 2 and 3 are idle (`Reply.ReplyN517`). Reading "N517" as status 7
  does not match the code.

## Model

| member | source | states |
|---|---|---|
| Bytes.Digit | I2C_SoundBoard.cpp:57 | `'0' + d` is an ASCII digit whose distance from '0' is d |
| Bytes.LowNibble | I2C_SoundBoard.cpp:113 | `x & 0x0F` is below 16, differs from x by a multiple of 16, and leaves a value below 16 unchanged |
| Bytes.MaskedDigit | I2C_SoundBoard.cpp:129-131 | `(uint8_t)(c - '0') & 0x0F` is below 16 and equals c mod 16, because '0' is a multiple of 16 |
| Bytes.SubtractZeroKeepsNibble | I2C_SoundBoard.cpp:129-131 | subtracting '0' with 8-bit wrap-around leaves the low nibble unchanged |
| Bytes.MaskedDigitInvertsDigit | I2C_SoundBoard.cpp:129-131 | masking `'0' + d` gives back d for every d in 0..15 |
| Bytes.CStrLen | I2C_SoundBoard.cpp:68 | `strlen` counts the NUL-free prefix and stops at the first NUL |
| Bytes.CStrLenIs | I2C_SoundBoard.cpp:68 | the length of a C string is exactly the position of its first NUL |
| Bytes.CString | I2C_SoundBoard.cpp:63 | the C string is the NUL-free prefix of the bytes, ending at a NUL or at the end |
| Bytes.CStringOfNoNul | I2C_SoundBoard.cpp:63 | bytes are their own C string exactly when they hold no NUL |
| Protocol.Encode | I2C_SoundBoard.cpp:51-105 | every command frame is 2..256 bytes long and has no NUL, so the `strlen`-sized write sends all of it |
| Protocol.ParseEncode | I2C_SoundBoard.cpp:51-105 | every well-formed command reads back from its frame as itself |
| Protocol.EncodeParse | I2C_SoundBoard.cpp:51-105 | every frame the parser accepts is the encoding of the well-formed command it yields |
| Protocol.EncodeInjective | I2C_SoundBoard.cpp:51-105 | distinct commands never share a frame |
| Protocol.FileField | I2C_SoundBoard.cpp:63 | the filename field is a NUL-free prefix of the filename of length min(strlen, 253) |
| Protocol.PlayFrame | I2C_SoundBoard.cpp:51-68 | the play frame is 3..256 bytes long and reads back as a play of the filename cut to 253 bytes, on that channel, with that repeat flag |
| Protocol.StopFrame | I2C_SoundBoard.cpp:72-86 | the stop frame is exactly `S` and `'0' + channel`, and reads back as a stop of that channel |
| Protocol.SetVolumeFrame | I2C_SoundBoard.cpp:89-95 | the intended setVolume frame is exactly `V` and `'0' + clamped level` |
| Protocol.PlayFrameLayout | I2C_SoundBoard.cpp:51-68 | the play frame is 'T' or 'R' as repeat says, then `'0' + channel`, then a space, then the filename bytes; its length is 3 + min(strlen(filename), 253) |
| Protocol.FileFieldTruncation | I2C_SoundBoard.cpp:63 | a filename of at most 253 bytes passes through unchanged; a longer one is cut to exactly its first 253 bytes |
| Protocol.PlayRoundTrip | I2C_SoundBoard.cpp:50-68 | a play frame for a filename that fits reads back as that filename, channel and repeat flag |
| Protocol.Clamp | I2C_SoundBoard.cpp:91-92 | the level is in 0..9: below 0 becomes 0, above 9 becomes 9, in range it is unchanged |
| Protocol.SetVolumeClamps | I2C_SoundBoard.cpp:89-95 | the setVolume frame reads back as the clamped level; levels below 0 give the same frame as 0, and levels above 9 the same frame as 9 |
| Protocol.Defaults | I2C_SoundBoard.h:29-31 | a defaulted play starts `T0 `, a defaulted stop is `S0`, and the default level 5 is the constructor's initial volume |
| Protocol.VolumeUpStep | I2C_SoundBoard.cpp:99 | the step adds one below 9 and leaves 9 or more unchanged, so it keeps the volume at most 9 |
| Protocol.VolumeDownStep | I2C_SoundBoard.cpp:104 | the step never raises the volume; it subtracts one above 0 and leaves 0 at 0 |
| Protocol.VolumeStepsInverse | I2C_SoundBoard.cpp:98-106 | inside the scale, one step up and one step down undo each other |
| Protocol.VolumeUpSaturates | I2C_SoundBoard.cpp:98-101 | n volume-up presses from a level in 0..9 give min(level + n, 9) |
| Protocol.VolumeDownSaturates | I2C_SoundBoard.cpp:103-106 | n volume-down presses give max(level - n, 0) |
| Protocol.VolumeScaleHasNineSteps | I2C_SoundBoard.h:32 | nine presses take 0 to 9, eight do not, and nine presses down take 9 to 0 |
| Reply.ChannelBusyIsBit | I2C_SoundBoard.cpp:135-137 | the intended test `stt & mask` for channel k in 1..3 is bit k-1 of the status value |
| Reply.ChannelBusy | I2C_SoundBoard.cpp:135-137 | the intended test `stt & mask`: a zero status leaves every channel idle, and a status holding only the channel's own bit makes it busy |
| Reply.ChannelAnswer | I2C_SoundBoard.cpp:134-141 | channel 0 answers true and a channel outside 0..3 answers false |
| Reply.StatusStep | I2C_SoundBoard.cpp:116-142 | a failed read changes nothing and answers false; the answer is true only after a reply marked 'N'; after a reply marked 'N' the stored volume is byte 1 mod 16, the stored status byte 2 mod 16, and the answer is the channel's answer for that stored status; a stored value is a nibble or the old value |
| Reply.DecodeReplyFrame | I2C_SoundBoard.cpp:129-137 | decoding 'N', a volume digit, a status value and any reserved byte stores exactly that volume and status; channel 0 answers true and channel k in 1..3 answers bit k-1 |
| Reply.AcceptedReplyAnswer | I2C_SoundBoard.cpp:129-141 | for every reply marked 'N', malformed digits included, channel 0 answers true, channel k in 1..3 answers bit k-1 of byte 2 mod 16, and any other channel answers false after the state is updated |
| Reply.NackResetsStatus | I2C_SoundBoard.cpp:124-126 | a reply not marked 'N' clears the status, keeps the volume and answers false |
| Reply.StatusKeepsNibbles | I2C_SoundBoard.cpp:129-132 | both cached values stay at most 15 across getStatus; a decimal volume digit keeps the volume at most 9 |
| Reply.ReplyN517 | I2C_SoundBoard.cpp:129-137 | the reply "N517" stores volume 5 and status 1; channel 1 answers busy, channels 2 and 3 idle |
| Reply.MalformedDigitExceedsScale | I2C_SoundBoard.cpp:129 | a reply volume byte '?' stores volume 15, which is past the 0..9 scale |
| AsWritten.MarkerTestAsWritten | I2C_SoundBoard.cpp:124 | the literal test `!_buffer[0] == 'N'` could only hold for a NUL marker byte |
| AsWritten.MarkerTestNeverFires | I2C_SoundBoard.cpp:124 | `!_buffer[0] == 'N'` is false for every byte |
| AsWritten.ChannelTestAsWritten | I2C_SoundBoard.cpp:135-137 | the literal test `stt \| 0x01 == 1` holds exactly when `stt \| 1` is non-zero |
| AsWritten.ChannelTestAlwaysTrue | I2C_SoundBoard.cpp:135-137 | `stt \| 0x01 == 1` (and the 0x02 and 0x04 forms) is true for every status value |
| AsWritten.StatusStepAsWritten | I2C_SoundBoard.cpp:116-142 | as written, a failed read changes nothing; a successful read always stores both masked digits, whatever the marker |
| AsWritten.StatusAsWrittenAlwaysBusy | I2C_SoundBoard.cpp:124-137 | as written, every successful read answers true for every channel in 0..3 |
| AsWritten.NotReadyReplyAccepted | I2C_SoundBoard.cpp:124-134 | for reply "X000", as written, channel 0 answers true and the volume becomes 0; intended, the answer is false and the volume is kept |
| AsWritten.IdleChannelReportedBusy | I2C_SoundBoard.cpp:135 | for reply "N500", as written, channel 1 answers busy; intended, it answers idle |
| AsWritten.SetVolumeFrameAsWritten | I2C_SoundBoard.cpp:94-95 | as written, the set-volume frame is the single byte `V`, with no NUL, so `strlen` sends 1 byte |
| AsWritten.SetVolumeAsWrittenUnreadable | I2C_SoundBoard.cpp:94 | the frame written as "V%n" parses as no command and differs from the intended `V` + digit frame, which parses as the clamped level |
| Buffers.StrNCopied | I2C_SoundBoard.cpp:63 | what `strncpy` leaves is exactly n bytes |
| Buffers.StrLen | I2C_SoundBoard.cpp:68 | the `strlen` loop over the buffer returns the C-string length of the buffer's contents |
| Buffers.StrNCopy | I2C_SoundBoard.cpp:63 | the `strncpy` loops write the C string cut to n and NUL padding into n bytes, and leave the rest of the buffer unchanged |
| Buffers.ZeroPaddedLength | I2C_SoundBoard.cpp:63-68 | after `strncpy` pads with NUL, `strlen` of the buffer is the length of the NUL-free text before the padding |
| Buffers.FillPlayBuffer | I2C_SoundBoard.cpp:50-63 | it succeeds exactly for channels 0..3; when it succeeds, the buffer up to `strlen` is the play frame; otherwise there is no frame |
| Buffers.FillStopBuffer | I2C_SoundBoard.cpp:72-80 | it succeeds exactly for channels 0..3; when it succeeds, the buffer up to `strlen` is `S` and the channel digit |
| Buffers.FillSetVolumeBuffer | I2C_SoundBoard.cpp:89-95 | the buffer up to `strlen` is `V` and the clamped level's digit, and it reads back as that level |
| Driver.SoundBoard.constructor | I2C_SoundBoard.cpp:23-26 | a new driver has volume 5, status 0 and no writes, and is valid |
| Driver.SoundBoard.Write | I2C_SoundBoard.cpp:68 | the bus write (also cpp:86, 95, 100, 105) appends exactly its frame to the log, and only command frames are written, so the driver stays valid |
| Driver.SoundBoard.PlaySound | I2C_SoundBoard.cpp:50-70 | a channel outside 0..3 returns false with no write; otherwise one play frame is written and the result is the bus outcome |
| Driver.SoundBoard.StopSound | I2C_SoundBoard.cpp:72-87 | a channel outside 0..3 returns false with no write; otherwise `S` and the digit are written and the result is the bus outcome |
| Driver.SoundBoard.SetVolume | I2C_SoundBoard.cpp:89-96 | it writes the clamped-level frame and leaves the cached volume unchanged |
| Driver.SoundBoard.VolumeUp | I2C_SoundBoard.cpp:98-101 | the volume goes up by one only below 9, it stays at most 9 if it was, and `V+` is written every time |
| Driver.SoundBoard.VolumeDn | I2C_SoundBoard.cpp:103-106 | the volume goes down by one only above 0, and `V-` is written every time |
| Driver.SoundBoard.GetVolume | I2C_SoundBoard.cpp:108-110 | it returns the cached volume, which is at most 15 on a valid driver, and changes nothing |
| Driver.SoundBoard.GetLastStatusValue | I2C_SoundBoard.cpp:112-114 | the result is in 0..15, is the cached status on a valid driver, and changes nothing |
| Driver.SoundBoard.GetStatus | I2C_SoundBoard.cpp:116-142 | the answer and the new cached volume and status are those of `Reply.StatusStep` on the old state, the read outcome and the channel; the driver stays valid |

## Left out

- `begin`, the default I2C address 0x55 and the `Adafruit_I2CDevice`/`TwoWire` objects (I2C_SoundBoard.cpp:37-48) are transport setup and are not modelled. So is deleting an `i2c_dev` pointer that the constructor never initialises.
- The bodies of `i2c_dev->write` and `i2c_dev->read` are not modelled. A write appends its frame to the ghost log `sent`, whatever its outcome, and `busOk` stands for the outcome. A read is an `Option` of 4 bytes. Partial transfers are not modelled.
- `Serial.print`/`Serial.println` logging (I2C_SoundBoard.cpp:65-66, 83-84, 121-122) is not modelled.
- Buffers.StrLen: it stops at the end of the buffer. In `playSound`, a filename with 253 or more bytes before its NUL fills all 256 bytes of the buffer with no terminator. C's `strlen` would then read past the buffer. The model instead sends all 256 bytes, which is the intended truncation.
- The caller's filename is a byte sequence whose C string ends at its first NUL or at its end. Reads past the caller's storage are not modelled.
- In `setVolume`, the `%n` conversion stores a byte count through an `int` used as a pointer. That stray store is not modelled; only the bytes of the frame are.
- Signed versus unsigned `char` is not modelled. Bytes are 0..255, and the `& 0x0F` results are the same either way.
- Driver.SoundBoard.GetStatus: it implements the corrected marker test and channel tests, not the as-written ones. `AsWritten.StatusStepAsWritten` models the code as written.
- Driver.SoundBoard.SetVolume: it writes the intended `V` + digit frame, not the `V` that line 94 emits. `AsWritten.SetVolumeFrameAsWritten` models the frame as written.

## Findings

| source | as written | input that shows it | evidently intended | confidence | as-written member | corrected member |
|---|---|---|---|---|---|---|
| I2C_SoundBoard.cpp:124 | `!_buffer[0] == 'N'` compares 0 or 1 with 78, so it is never true. A not-ready reply is then decoded as a normal one. | reply "X000" with volume 5 cached: channel 0 answers true and the volume becomes 0 | `_buffer[0] != 'N'`: clear the status, keep the volume, answer false | high (not executed) | AsWritten.StatusStepAsWritten, AsWritten.MarkerTestNeverFires, AsWritten.NotReadyReplyAccepted | Reply.StatusStep, Reply.NackResetsStatus |
| I2C_SoundBoard.cpp:135-137 | `stt \| 0x01 == 1` parses as `stt \| (0x01 == 1)`, which is `stt \| 1` and never 0. Channels 1..3 always answer busy. | reply "N500", channel 1: answers true | `(stt & 0x01) != 0` (0x02, 0x04 for channels 2 and 3) | high (not executed) | AsWritten.ChannelTestAsWritten, AsWritten.ChannelTestAlwaysTrue, AsWritten.IdleChannelReportedBusy | Reply.ChannelBusy, Reply.ChannelBusyIsBit, Reply.DecodeReplyFrame |
| I2C_SoundBoard.cpp:94 | `sprintf(_buffer, "V%n", level)` prints only "V", because `%n` prints nothing. The 1-byte frame carries no level, and `%n` writes through an `int`. | any level, e.g. 7: the frame is "V" | `sprintf(_buffer, "V%d", level)`: the frame "V7" | high (not executed) | AsWritten.SetVolumeFrameAsWritten, AsWritten.SetVolumeAsWrittenUnreadable | Protocol.SetVolumeFrame, Protocol.SetVolumeClamps, Buffers.FillSetVolumeBuffer |
