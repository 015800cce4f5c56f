# Insteon PowerLinc Modem serial protocol — a verified Dafny model

This project models the core of `insteon-serial`, a Rust decoder and encoder for the
byte protocol an Insteon PowerLinc serial modem speaks:

- the **frame synchroniser** of `src/serial.rs`: `next_message` and `next_response`
  wait for the start byte `0x02`, read one opcode byte, read the payload whose length
  the opcode alone implies, build a typed `Message` or `Response`, and silently start
  over on an unknown opcode, an unknown button byte or an X10 payload that does not parse;
- the **command codec** of `src/command.rs` (a command as `[opcode, data]`, and back),
  including its deliberately lossy corners;
- the **X10 sub-codec** of `src/x10.rs` (house code, unit code and command looked up
  by nibble through one fixed, non-linear table);
- the **value types**: the `Config` bit pack with its two inverted bits
  (`src/message.rs`), link results and their role-gated accessors (`src/link.rs`),
  addresses (`src/device.rs`) and button events with their text (`src/button.rs`).

Layout: one module per source file — `Prelude` (bytes as `bv8`, fixed-size byte arrays
as sequences of a fixed length, `Option`), `Device`, `Buttons`, `Commands`, `X10`,
`Links`, `Messages`, `Serial`.

The serial port is a class, `Serial.Port`, holding the whole byte stream the modem will
send (`input`) and a read cursor (`pos`). `NextByte` pops one byte and `ReadExact` pops
`n` bytes. `NextMessage` and `NextResponse` are the loops of the source, arm by arm.
Each is proved to return exactly what the recursive specification `ScanMessage` or
`ScanResponse` gives for the old cursor, and to leave the cursor where that
specification says. Those specifications work from a per-opcode payload-length table
and a pure payload decoder, and the lemmas about them state the protocol's properties:
exact frame sizes, what each frame decodes to, noise skipping, resynchronisation and
where decoded values come from.

A `panic` from `unwrap()` on an exhausted byte source becomes the explicit result
`EndOfStream`, with the cursor at the end of the input. The `unimplemented!()` arm for
response opcode `0x62` becomes the explicit result `Unsupported(0x62)`, returned after
the two header bytes are consumed.

The model follows the code as written, including where it departs from what a
reader of the protocol might expect:

- The X10 command table maps both `0xA` and `0xB` to `PresetDim`, so X10 decoding is
  not invertible, and the code has no X10 encoder. The model keeps the table as written
  and proves exactly which nibbles collide (`X10.CommandTableCollision`).
- X10 decoding looks both nibbles up in tables that could fail, but nibbles are
  always below 16, so only the flag byte can make it fail (`X10.MessageTryFrom`).
- The doc comment of `next_response` (src/serial.rs:116) says non-response messages are
  ignored, but the code does not know the message opcodes `0x50`..`0x59`. It drops only
  their two header bytes and then scans their payload for a start byte, so a message
  payload can be read as a response (`Serial.ResponseScanReadsInsideMessages`). This is
  the code's behaviour and the model keeps it.

## Model

| member | source | states |
|---|---|---|
| `Device.Address.Reduce` | src/device.rs:13-21 | the reduced value is below 2^24, so the source's u32 computation cannot overflow |
| `Device.ReduceInjective` | src/device.rs:13-21 | addresses with equal `reduce` values are equal, so the high, middle and low bytes are base-256 digits determined by the value |
| `Device.FromBytes` | src/device.rs:24-35 | `Address::from(b)` indexed at i < 3 gives back `b[i]`: the bytes are stored unchanged |
| `Device.Address.Index` | src/device.rs:30-35 | `address[i]` is the i-th stored byte, high first; `requires index < 3` stands for the source's out-of-bounds panic |
| `Buttons.ButtonText` | src/button.rs:14-27 | each text is 10 or 12 characters and names the button as such ("Button …" or "… button"); `ButtonTextInjective` shows the three differ |
| `Buttons.ButtonTextInjective` | src/button.rs:14-27 | "SET button", "Button two", "Button three" are pairwise distinct |
| `Buttons.EventText` | src/button.rs:40-48 | an event's text starts with its button's text and ends with a full stop after it |
| `Buttons.EventTextInjective` | src/button.rs:14-48 | distinct button events render to distinct strings |
| `Commands.GroupOrNone` | src/command.rs:49-55 | byte 0 decodes to no group, and re-encoding any decoded group gives the byte back |
| `Commands.GroupOrZero` | src/command.rs:86-88 | a present group encodes as its number and only an absent group or group 0 encodes as 0; it is the left inverse of `GroupOrNone` (`GroupOrNone`'s ensures, `GroupRoundTrip`) |
| `Commands.GroupRoundTrip` | src/command.rs:49-88 | `group_or_none(group_or_zero(g)) == g` exactly when g is absent or a group from 1 up; `Some(GroupNumber(0))` collapses to absent |
| `Commands.TryFrom` | src/command.rs:59-83 | decoding fails exactly when the opcode is not one of 0x08, 0x09, 0x0A, 0x10..0x19 |
| `Commands.ToBytes` | src/command.rs:90-121 | every encoded command carries an opcode that decoding recognises |
| `Commands.RoundTrip` | src/command.rs:59-121 | `try_from(into(c)) == Some(c)` exactly for the commands other than `On(OnLevel _)` and group-optional commands with group 0 |
| `Commands.OnLevelDecodesAsGroup` | src/command.rs:62-100 | `On(OnLevel(v))` encodes to `[0x11, v]` and decodes back as `On(GroupNumber(v))` |
| `Commands.StartDirection` | src/command.rs:68-112 | Start data 0x01 decodes as Bright and every other byte as Dim; Dim encodes as 0x00, Bright as 0x01 |
| `Commands.DecodeThenEncode` | src/command.rs:59-121 | re-encoding a decoded command keeps the opcode; the data byte is kept, except that it becomes 0 for Stop, IdRequest, StatusRequest and CancelLinking and 0/1 for Start |
| `Commands.LinkingGroupPassThrough` | src/command.rs:78-117 | BeginLinking and BeginUnlinking carry the group byte unchanged in both directions, 0 included |
| `X10.HouseCodeTryFrom` | src/x10.rs:28-49 | a house code exists exactly for the bytes below 16 |
| `X10.HouseCodeInjective` | src/x10.rs:28-49 | distinct nibbles give distinct house codes |
| `X10.HouseCodeCovers` | src/x10.rs:28-49 | every house code A..P has a nibble, so the table is a permutation |
| `X10.HouseChar` | src/x10.rs:52-74 | a house code renders as a letter between 'A' and 'P' |
| `X10.HouseCharInjective` | src/x10.rs:52-74 | distinct house codes render as distinct letters |
| `X10.UnitCodeTryFrom` | src/x10.rs:82-102 | a unit code exists exactly for the bytes below 16, and it is between 1 and 16 |
| `X10.UnitCodeInjective` | src/x10.rs:82-102 | distinct nibbles give distinct unit codes |
| `X10.SameNibbleOrder` | src/x10.rs:28-102 | the unit table follows the house table: the nibble of letter k gives unit k |
| `X10.UnitNumber` | src/x10.rs:105-109 | the byte a unit code converts to rebuilds the same unit code |
| `X10.CommandTryFrom` | src/x10.rs:139-159 | a command exists exactly for the bytes below 16 |
| `X10.CommandTableCollision` | src/x10.rs:139-159 | 0xA and 0xB both give PresetDim, and that is the only pair of nibbles that collide |
| `X10.CommandTableCovers` | src/x10.rs:139-159 | every one of the 15 X10 commands has a nibble |
| `X10.MessageTryFrom` | src/x10.rs:208-228 | parsing fails exactly when the flag byte is neither 0x00 nor 0x80; the house comes from the high nibble; flag 0x00 gives a unit payload and 0x80 a command payload, both from the low nibble; success iff byte 2 is 0x06 |
| `X10.UnitTriple` | src/x10.rs:208-228 | `[house * 16 + unit, 0x00, 0x06]` parses as a successful unit-code message for those nibbles |
| `Links.LinkDataFrom` | src/link.rs:10-14 | the three bytes are stored unchanged |
| `Links.LinkResult.Group` | src/link.rs:29-31 | the stored group byte, which `FromBytes` takes from byte 1 |
| `Links.LinkResult.IsSlave` | src/link.rs:33-35 | a slave link is never deleted (`ExactlyOneRole` for full exclusivity); `FromBytes` ties it to the wire through `IsResponder() <==> bytes[0] == 0x00` |
| `Links.LinkResult.IsResponder` | src/link.rs:37-39 | the Insteon name is an alias of `IsSlave` |
| `Links.LinkResult.IsMaster` | src/link.rs:41-43 | a master link is neither deleted nor a slave link; `FromBytes` ties it to the wire through `IsController() <==> bytes[0] == 0x01` |
| `Links.LinkResult.Deleted` | src/link.rs:49-51 | the link is deleted exactly when the role is neither master nor slave, i.e. byte 0 is neither 0x00 nor 0x01 (`FromBytes`'s ensures; `ExactlyOneRole` for exclusivity) |
| `Links.LinkResult.IsController` | src/link.rs:45-47 | the Insteon name is an alias of `IsMaster` |
| `Links.LinkResult.Id` | src/link.rs:53-55 | the stored device address, which `FromBytes` takes from bytes 2..4 |
| `Links.LinkResult.Category` | src/link.rs:62-72 | the category is present exactly when the modem is the controller |
| `Links.LinkResult.Subcategory` | src/link.rs:75-85 | the subcategory is present exactly when the modem is the controller |
| `Links.LinkResult.Firmware` | src/link.rs:91-97 | a firmware version is only ever present for a controller |
| `Links.FromBytes` | src/link.rs:100-121 | byte 0 = 0x00 gives responder, 0x01 controller, anything else deleted; group is byte 1; id is bytes 2..4; for a controller category/subcategory are bytes 5 and 6 and firmware is absent iff byte 7 is 0xFF, else byte 7 |
| `Links.ExactlyOneRole` | src/link.rs:33-51 | exactly one of controller, responder and deleted holds; `is_slave`/`is_master` equal `is_responder`/`is_controller` |
| `Links.DetailsOnlyForController` | src/link.rs:62-97 | category, subcategory and firmware are absent unless the modem is the controller |
| `Messages.Text` | src/message.rs:39-71 | the fixed text of a message exists exactly for the arms that print no hexadecimal bytes and no X10 message |
| `Messages.TextFacts` | src/message.rs:43-65 | the two cleanup outcomes print differently; a standard Received prints "Received standard message." |
| `Messages.ButtonEventTextInjective` | src/message.rs:49 | distinct button events print distinctly as messages |
| `Messages.ConfigToByte` | src/message.rs:88-96 | the packed byte has bits 2..0 clear; bit 7 clear iff auto_link, bit 4 clear iff timeout; bits 6, 5, 3 set iff monitor, manual_led, busy_reject |
| `Messages.ConfigFromByte` | src/message.rs:98-108 | re-packing an unpacked byte gives `b & 0xF8`: the reserved bits are ignored |
| `Messages.ConfigRoundTrip` | src/message.rs:88-108 | unpacking a packed configuration gives it back, for all 32 flag combinations |
| `Messages.DefaultConfig` | src/message.rs:110-121 | the default configuration packs to 0, and unpacking 0 gives the default |
| `Messages.DefaultWithoutTimeout` | src/message.rs:209-218 | the default configuration with timeout off packs to a non-zero byte |
| `Serial.MessageOpcode` | src/serial.rs:26-111 | the opcode whose arm builds each message variant (a reference table for `DecodeMessage`) |
| `Serial.MessagePayloadLength` | src/serial.rs:26-111 | at most 20 bytes; zero exactly for an unknown opcode and for 0x55, whose frame has no payload |
| `Serial.DecodeButton` | src/serial.rs:65-78 | a button byte is recognised exactly when its high nibble is 0..2 and its low nibble 2..4 |
| `Serial.DecodeMessage` | src/serial.rs:26-111 | a decoded message is always of the variant its opcode's arm builds, and no message is unimplemented; it discards exactly as `MessageDiscardIff` states |
| `Serial.ScanMessage` | src/serial.rs:20-114 | the cursor never moves back and stays in the stream; end of stream leaves it at the end; a decoded message consumed at least the two header bytes; no message opcode is unsupported |
| `Serial.ScanMessageSkipsNoise` | src/serial.rs:22-25 | bytes before a start byte are dropped one at a time and never change what is decoded |
| `Serial.ReceivedStandardFrame` | src/serial.rs:27-36 | `[0x02,0x50,b0..b5]` yields `Received(Address[b0,b1,b2], try_from([b3,b4]), b5, None)` and consumes exactly 8 bytes |
| `Serial.ReceivedExtendedFrame` | src/serial.rs:37-50 | a 0x51 frame consumes 22 bytes and its extended data are payload bytes 6..19 in order |
| `Serial.X10ReceivedFrame` | src/serial.rs:51-59 | a 0x52 frame consumes 5 bytes; a parsed X10 payload is delivered, an unparsable one drops the whole frame |
| `Serial.LinkCompleteFrame` | src/serial.rs:60-64 | a 0x53 frame consumes 10 bytes and yields the link result of its 8 payload bytes |
| `Serial.ButtonEventFrame` | src/serial.rs:65-78 | a 0x54 frame consumes 3 bytes; a known button byte is delivered, an unknown one drops the whole frame |
| `Serial.ButtonByteNibbles` | src/serial.rs:65-78 | for a recognised button byte, high nibble 0/1/2 picks Set/Two/Three, low nibble 2/3/4 picks tapped/held/released |
| `Serial.UserResetFrame` | src/serial.rs:79 | a 0x55 frame is just its two header bytes |
| `Serial.LinkCleanupFailedFrame` | src/serial.rs:80-86 | a 0x56 frame consumes 7 bytes; the first payload byte is ignored, then group and address |
| `Serial.LinkRecordFrame` | src/serial.rs:87-95 | a 0x57 frame consumes 10 bytes: flags, group, address and link data, all stored unchanged |
| `Serial.CleanupStatusFrame` | src/serial.rs:96 | a 0x58 frame consumes 3 bytes and yields `LinkCleanupStatus(b == 0x06)` |
| `Serial.DatabaseRecordFrame` | src/serial.rs:97-107 | a 0x59 frame consumes 12 bytes: 2-byte address field, flags, group, id and link data in order |
| `Serial.MessageDiscardIff` | src/serial.rs:51-110 | a message frame is dropped exactly when its opcode is unknown, its X10 payload does not parse, or its button byte is unknown |
| `Serial.MessageResumesAfterFailedAttempt` | src/serial.rs:51-110 | after a dropped message frame, scanning resumes right after its payload, never inside it |
| `Serial.UnknownMessageOpcode` | src/serial.rs:108-110 | an unknown opcode costs two bytes, and the opcode byte is never taken as a start byte |
| `Serial.DoubleStartLosesFrame` | src/serial.rs:22-110 | in `[0x02,0x02,0x50,b0..b5]` the second 0x02 is read as an opcode, so the 0x50 frame is lost; when b0..b5 hold no 0x02, nothing is decoded and the scan reaches the end of the stream |
| `Serial.ResyncAfterUnknownOpcode` | src/serial.rs:22-110 | `[0x02,0xFF,0x02,0x50,b0..b5]` yields exactly the Received message built from b0..b5, after 10 bytes |
| `Serial.ScanMessageSound` | src/serial.rs:20-114 | a decoded message comes from one whole frame at or after the cursor, and the cursor is left right after that frame |
| `Serial.ResponseOpcode` | src/serial.rs:122-206 | the opcode whose arm builds each response variant; none for the variants no arm builds (a reference table for `DecodeResponse`) |
| `Serial.ResponsePayloadLength` | src/serial.rs:122-206 | at most 9 bytes, and only response opcodes 0x60..0x73 other than 0x62 have a payload |
| `Serial.DecodeResponse` | src/serial.rs:122-206 | a decoded response is always of the variant its opcode's arm builds; exactly 0x62 is unimplemented; it discards exactly as `ResponseOutcomeIff` states |
| `Serial.ScanResponse` | src/serial.rs:117-209 | the cursor never moves back and stays in the stream; end of stream leaves it at the end; a response or an unsupported report consumed at least the two header bytes |
| `Serial.ScanResponseSkipsNoise` | src/serial.rs:119-121 | bytes before a start byte never change what `next_response` yields |
| `Serial.GotInfoFrame` | src/serial.rs:123-131 | a 0x60 frame consumes 8 bytes; the version is absent iff its byte is 0xFF |
| `Serial.SendAllLinkUnsupported` | src/serial.rs:140 | opcode 0x62 is reported as unsupported after its two header bytes |
| `Serial.SetCategoryFrame` | src/serial.rs:158-169 | a 0x66 frame consumes 5 bytes; the firmware is absent iff its byte is 0x00 |
| `Serial.SetConfigFrame` | src/serial.rs:174 | a 0x6B frame consumes 3 bytes and unpacks its byte as a configuration |
| `Serial.GotConfigFrame` | src/serial.rs:195-202 | a 0x73 frame consumes 5 bytes but only the first payload byte becomes the configuration |
| `Serial.ResponseOutcomeIff` | src/serial.rs:122-205 | only 0x62 is unsupported; a response frame is dropped exactly when its opcode is unknown or its X10 echo does not parse |
| `Serial.ResponseResumesAfterFailedAttempt` | src/serial.rs:141-205 | after a dropped response frame, scanning resumes right after its payload |
| `Serial.MessageFrameOutcome` | src/serial.rs:22-113 | at a complete message frame, a decoded payload ends the scan right after the frame and anything else resumes scanning there |
| `Serial.ResponseFrameOutcome` | src/serial.rs:119-208 | at a complete response frame, a decoded payload is returned, 0x62 is unsupported, and anything else resumes scanning after the frame |
| `Serial.ResponseScanReadsInsideMessages` | src/serial.rs:116-209 | contrary to the doc comment at src/serial.rs:116 ("non-response messages are ignored"), a message frame seen by `next_response` loses only its header, and a start byte in its payload begins a response |
| `Serial.ScanResponseSound` | src/serial.rs:117-209 | a response or unsupported report comes from one whole frame at or after the cursor, ending where the cursor is left |
| `Serial.Port.NextByte` | src/serial.rs:8-17 | pops the byte under the cursor, or gives none when the source is exhausted |
| `Serial.Port.ReadExact` | src/serial.rs:28-29 | pops exactly n bytes, or drains the source and gives none when fewer remain |
| `Serial.Port.ReadMessagePayload` | src/serial.rs:26-111 | reading each opcode's arm consumes exactly that opcode's payload length and yields the payload's decoding |
| `Serial.Port.ReadLinkRecord` | src/serial.rs:87-95 | the byte-by-byte reads of the 0x57 arm consume 8 bytes and decode them as the table says |
| `Serial.Port.ReadDatabaseRecord` | src/serial.rs:97-107 | the reads of the 0x59 arm consume 10 bytes and decode them as the table says |
| `Serial.Port.MessageStep` | src/serial.rs:22-113 | one loop pass: either the scan's outcome from the old cursor, or a strictly later cursor from which the scan has the same outcome |
| `Serial.Port.NextMessage` | src/serial.rs:20-114 | returns and leaves the cursor exactly as `ScanMessage` says for the old cursor |
| `Serial.Port.ReadResponsePayload` | src/serial.rs:122-206 | reading each response arm consumes exactly that opcode's payload length and yields its decoding |
| `Serial.Port.ResponseStep` | src/serial.rs:119-208 | one loop pass of `next_response`, with the same guarantee as `MessageStep` |
| `Serial.Port.NextResponse` | src/serial.rs:117-209 | returns and leaves the cursor exactly as `ScanResponse` says for the old cursor |

## Left out

- `Device.Address.Reduce`: the u32 shifts `<< 16` and `<< 8` are modelled as multiplication by 2^16 and 2^8 on unbounded integers; the bound below 2^24 is what makes the two agree, and their agreement as 32-bit operations is not itself proved.
- `src/port.rs` (opening and configuring the serial device) and `src/lib.rs` (module wiring) are foreign I/O and glue.
- `Serial.Port.NextByte`: the busy-poll on `bytes_to_read` is not modelled. The source is a finite sequence, so "no byte yet" never happens and a read only fails once the stream is exhausted.
- `Serial.Port.NextMessage`: an `unwrap()` panic on an exhausted source is modelled as the result `EndOfStream`, not as a process abort.
- `Serial.Port.NextResponse`: an `unwrap()` panic on an exhausted source is modelled as the result `EndOfStream`, not as a process abort; the `unimplemented!()` arm for 0x62 is modelled as the result `Unsupported(0x62)`, not as a panic. No payload layout is assumed for it.
- `Messages.Text`: gives None for the arms that print bytes with `{:x?}` (extended Received, LinkCleanupFailed) and for X10Received. The X10 `Display` implementations (src/x10.rs:111-115, 162-186, 231-240) are not part of this model.
- The `Display` of `Address` is `unimplemented!()` in the source and is not modelled.
- The Response variants SentMessage, CanceledCleanup, ReadDatabaseBytes, Beeping, SetStatus, SetLinkData, SetRetries, SetFrequencyOffset and SetTempLincAck are declared, but no decoder produces them and the model assigns them no opcode.
- There is no X10 encoder in the source, and none is modelled. The lossy command mappings (PresetDim twice, On group/level, Start defaulting to Dim) are kept as written.
- Concurrency and read timeouts belong to the byte-source collaborator and are not modelled.
