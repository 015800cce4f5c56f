/**
 * Frame synchronisation and dispatch over the modem's byte stream (src/serial.rs).
 *
 * Every frame is `0x02`, one opcode byte, then a payload whose length the opcode
 * alone implies. `ScanMessage` and `ScanResponse` say, as recursive functions over
 * the whole stream and a cursor, what one decode call yields and where it leaves
 * the cursor; `Port.NextMessage` and `Port.NextResponse` are the byte-pulling loops
 * and are proved to agree with them.
 */
module Serial {
  import opened Prelude
  import Device
  import Commands
  import X10
  import Links
  import Buttons
  import opened Messages

  /** The start-of-frame marker. */
  const START: Byte := 0x02

  /** What one decode call delivers: a value, the end of the byte source, or an opcode with no defined payload. */
  datatype Read<T> = Got(value: T) | EndOfStream | Unsupported(opcode: Byte)

  /** The outcome of one framing attempt once its payload has been read. */
  datatype Attempt<T> = Decoded(value: T) | Discard | NotImplemented

  // ---------------------------------------------------------------------------
  // Unsolicited messages
  // ---------------------------------------------------------------------------

  /** The opcode of the frame that carries each message; a Received with extended data comes as 0x51. */
  function MessageOpcode(m: Message): Byte {
    match m
    case Received(_, _, _, data) => if data.None? then 0x50 else 0x51
    case X10Received(_) => 0x52
    case LinkComplete(_) => 0x53
    case ButtonEvent(_) => 0x54
    case UserResetDetected => 0x55
    case LinkCleanupFailed(_, _) => 0x56
    case LinkRecordResponse(_, _, _, _) => 0x57
    case LinkCleanupStatus(_) => 0x58
    case DatabaseRecordFound(_, _, _, _, _) => 0x59
  }

  /** The payload length each message opcode implies; an unknown opcode has none. */
  function MessagePayloadLength(op: Byte): (r: nat)
    ensures r <= 20
    ensures r == 0 <==> op < 0x50 || op > 0x59 || op == 0x55
  {
    match op
    case 0x50 => 6
    case 0x51 => 20
    case 0x52 => 3
    case 0x53 => 8
    case 0x54 => 1
    case 0x55 => 0
    case 0x56 => 5
    case 0x57 => 8
    case 0x58 => 1
    case 0x59 => 10
    case _ => 0
  }

  /** The button event byte that follows opcode 0x54. */
  function DecodeButton(b: Byte): (r: Option<Buttons.ButtonEvent>)
    ensures r.Some? <==> b >> 4 <= 2 && 2 <= b & 0x0F <= 4
  {
    match b
    case 0x02 => Some(Buttons.Tapped(Buttons.Set))
    case 0x03 => Some(Buttons.Held(Buttons.Set))
    case 0x04 => Some(Buttons.Released(Buttons.Set))
    case 0x12 => Some(Buttons.Tapped(Buttons.Two))
    case 0x13 => Some(Buttons.Held(Buttons.Two))
    case 0x14 => Some(Buttons.Released(Buttons.Two))
    case 0x22 => Some(Buttons.Tapped(Buttons.Three))
    case 0x23 => Some(Buttons.Held(Buttons.Three))
    case 0x24 => Some(Buttons.Released(Buttons.Three))
    case _ => None
  }

  /** The message a complete frame carries, or Discard when the frame is not recognised. */
  function DecodeMessage(op: Byte, p: seq<Byte>): (r: Attempt<Message>)
    requires |p| == MessagePayloadLength(op)
    ensures r.Decoded? ==> MessageOpcode(r.value) == op
    ensures !r.NotImplemented?
  {
    match op
    case 0x50 => Decoded(Received(Device.FromBytes([p[0], p[1], p[2]]), Commands.TryFrom([p[3], p[4]]), p[5], None))
    case 0x51 => Decoded(Received(Device.FromBytes([p[0], p[1], p[2]]), Commands.TryFrom([p[3], p[4]]), p[5], Some(p[6..20])))
    case 0x52 =>
      (match X10.MessageTryFrom(p)
       case Some(msg) => Decoded(X10Received(msg))
       case None => Discard)
    case 0x53 => Decoded(LinkComplete(Links.FromBytes(p)))
    case 0x54 =>
      (match DecodeButton(p[0])
       case Some(e) => Decoded(ButtonEvent(e))
       case None => Discard)
    case 0x55 => Decoded(UserResetDetected)
    case 0x56 => Decoded(LinkCleanupFailed(p[1], Device.FromBytes([p[2], p[3], p[4]])))
    case 0x57 => Decoded(LinkRecordResponse(p[0], p[1], Device.FromBytes(p[2..5]), Links.LinkDataFrom(p[5..8])))
    case 0x58 => Decoded(LinkCleanupStatus(p[0] == 0x06))
    case 0x59 => Decoded(DatabaseRecordFound(p[0..2], p[2], p[3], Device.FromBytes(p[4..7]), Links.LinkDataFrom(p[7..10])))
    case _ => Discard
  }

  /**
   * What `next_message` yields from stream `s` with the cursor at `pos`, and where it
   * leaves the cursor. Bytes other than the start marker are dropped one at a time;
   * a frame that is not recognised is dropped whole and scanning resumes after it.
   */
  function ScanMessage(s: seq<Byte>, pos: nat): (r: (Read<Message>, nat))
    requires pos <= |s|
    ensures pos <= r.1 <= |s|
    ensures r.0.EndOfStream? ==> r.1 == |s|
    ensures r.0.Got? ==> pos + 2 <= r.1
    ensures !r.0.Unsupported?
    decreases |s| - pos
  {
    if pos == |s| then (EndOfStream, |s|)
    else if s[pos] != START then ScanMessage(s, pos + 1)
    else if pos + 1 == |s| then (EndOfStream, |s|)
    else
      var op := s[pos + 1];
      var end := pos + 2 + MessagePayloadLength(op);
      if end > |s| then (EndOfStream, |s|)
      else match DecodeMessage(op, s[pos + 2..end])
        case Decoded(m) => (Got(m), end)
        case _ => ScanMessage(s, end)
  }

  // ---------------------------------------------------------------------------
  // Responses to commands
  // ---------------------------------------------------------------------------

  /**
   * The opcode of the frame that carries each response `next_response` decodes; None
   * for the variants that no arm of it produces.
   */
  function ResponseOpcode(r: Response): Option<Byte> {
    match r
    case GotInfo(_, _, _) => Some(0x60)
    case SentLinkCommand(_, _, _) => Some(0x61)
    case SentX10(_) => Some(0x63)
    case StartedLink(_, _) => Some(0x64)
    case CanceledLink => Some(0x65)
    case SetCategory(_, _) => Some(0x66)
    case Reset => Some(0x67)
    case SetAckByte(_) => Some(0x68)
    case GotFirstLinkRecord => Some(0x69)
    case GotNextLinkRecord => Some(0x6A)
    case SetConfig(_) => Some(0x6B)
    case GotSenderLinkRecord => Some(0x6C)
    case LedOn => Some(0x6D)
    case LedOff => Some(0x6E)
    case UpdatedLinkRecord(_, _, _, _, _) => Some(0x6F)
    case SetNakByte(_) => Some(0x70)
    case SetAckBytes(_) => Some(0x71)
    case Sleeping => Some(0x72)
    case GotConfig(_) => Some(0x73)
    case _ => None
  }

  /** The payload length each response opcode implies; an unknown opcode has none. */
  function ResponsePayloadLength(op: Byte): (r: nat)
    ensures r <= 9
    ensures r > 0 ==> 0x60 <= op <= 0x73 && op != 0x62
  {
    match op
    case 0x60 => 6
    case 0x61 => 3
    case 0x63 => 3
    case 0x64 => 2
    case 0x66 => 3
    case 0x68 => 1
    case 0x6B => 1
    case 0x6F => 9
    case 0x70 => 1
    case 0x71 => 2
    case 0x73 => 3
    case _ => 0
  }

  /** The response a complete frame carries; opcode 0x62 has no defined payload. */
  function DecodeResponse(op: Byte, p: seq<Byte>): (r: Attempt<Response>)
    requires |p| == ResponsePayloadLength(op)
    ensures r.Decoded? ==> ResponseOpcode(r.value) == Some(op)
    ensures r.NotImplemented? <==> op == 0x62
  {
    match op
    case 0x60 => Decoded(GotInfo(Device.FromBytes([p[0], p[1], p[2]]), [p[3], p[4]], if p[5] == 0xFF then None else Some(p[5])))
    case 0x61 => Decoded(SentLinkCommand(p[0], p[1], p[2]))
    case 0x62 => NotImplemented
    case 0x63 =>
      (match X10.MessageTryFrom(p)
       case Some(msg) => Decoded(SentX10(msg))
       case None => Discard)
    case 0x64 => Decoded(StartedLink(p[0], p[1]))
    case 0x65 => Decoded(CanceledLink)
    case 0x66 => Decoded(SetCategory([p[0], p[1]], if p[2] == 0x00 then None else Some(p[2])))
    case 0x67 => Decoded(Reset)
    case 0x68 => Decoded(SetAckByte(p[0]))
    case 0x69 => Decoded(GotFirstLinkRecord)
    case 0x6A => Decoded(GotNextLinkRecord)
    case 0x6B => Decoded(SetConfig(ConfigFromByte(p[0])))
    case 0x6C => Decoded(GotSenderLinkRecord)
    case 0x6D => Decoded(LedOn)
    case 0x6E => Decoded(LedOff)
    case 0x6F => Decoded(UpdatedLinkRecord(p[0], p[1], p[2], Device.FromBytes([p[3], p[4], p[5]]), [p[6], p[7], p[8]]))
    case 0x70 => Decoded(SetNakByte(p[0]))
    case 0x71 => Decoded(SetAckBytes([p[0], p[1]]))
    case 0x72 => Decoded(Sleeping)
    case 0x73 => Decoded(GotConfig(ConfigFromByte(p[0])))
    case _ => Discard
  }

  /** What `next_response` yields from stream `s` with the cursor at `pos`, and where it leaves the cursor. */
  function ScanResponse(s: seq<Byte>, pos: nat): (r: (Read<Response>, nat))
    requires pos <= |s|
    ensures pos <= r.1 <= |s|
    ensures r.0.EndOfStream? ==> r.1 == |s|
    ensures r.0.Got? || r.0.Unsupported? ==> pos + 2 <= r.1
    decreases |s| - pos
  {
    if pos == |s| then (EndOfStream, |s|)
    else if s[pos] != START then ScanResponse(s, pos + 1)
    else if pos + 1 == |s| then (EndOfStream, |s|)
    else
      var op := s[pos + 1];
      var end := pos + 2 + ResponsePayloadLength(op);
      if end > |s| then (EndOfStream, |s|)
      else match DecodeResponse(op, s[pos + 2..end])
        case Decoded(m) => (Got(m), end)
        case NotImplemented => (Unsupported(op), end)
        case Discard => ScanResponse(s, end)
  }

  /** A frame that is not recognised is dropped whole: scanning resumes after its payload, never inside it. */
  lemma MessageResumesAfterFailedAttempt(s: seq<Byte>, pos: nat)
    requires pos + 1 < |s| && s[pos] == START
    requires pos + 2 + MessagePayloadLength(s[pos + 1]) <= |s|
    requires DecodeMessage(s[pos + 1], s[pos + 2..pos + 2 + MessagePayloadLength(s[pos + 1])]).Discard?
    ensures ScanMessage(s, pos) == ScanMessage(s, pos + 2 + MessagePayloadLength(s[pos + 1]))
  {
  }

  /** The same for responses. */
  lemma ResponseResumesAfterFailedAttempt(s: seq<Byte>, pos: nat)
    requires pos + 1 < |s| && s[pos] == START
    requires pos + 2 + ResponsePayloadLength(s[pos + 1]) <= |s|
    requires DecodeResponse(s[pos + 1], s[pos + 2..pos + 2 + ResponsePayloadLength(s[pos + 1])]).Discard?
    ensures ScanResponse(s, pos) == ScanResponse(s, pos + 2 + ResponsePayloadLength(s[pos + 1]))
  {
  }

  /** One step of the message scan at a complete frame: the decoder's verdict decides the outcome. */
  lemma MessageFrameOutcome(s: seq<Byte>, pos: nat)
    requires pos + 1 < |s| && s[pos] == START
    requires pos + 2 + MessagePayloadLength(s[pos + 1]) <= |s|
    ensures var end := pos + 2 + MessagePayloadLength(s[pos + 1]);
      match DecodeMessage(s[pos + 1], s[pos + 2..end])
      case Decoded(m) => ScanMessage(s, pos) == (Got(m), end)
      case _ => ScanMessage(s, pos) == ScanMessage(s, end)
  {
  }

  /** One step of the response scan at a complete frame: the decoder's verdict decides the outcome. */
  lemma ResponseFrameOutcome(s: seq<Byte>, pos: nat)
    requires pos + 1 < |s| && s[pos] == START
    requires pos + 2 + ResponsePayloadLength(s[pos + 1]) <= |s|
    ensures var end := pos + 2 + ResponsePayloadLength(s[pos + 1]);
      match DecodeResponse(s[pos + 1], s[pos + 2..end])
      case Decoded(m) => ScanResponse(s, pos) == (Got(m), end)
      case NotImplemented => ScanResponse(s, pos) == (Unsupported(s[pos + 1]), end)
      case Discard => ScanResponse(s, pos) == ScanResponse(s, end)
  {
  }

  // ---------------------------------------------------------------------------
  // Properties of the message scan
  // ---------------------------------------------------------------------------

  /** Bytes before a start marker are consumed and dropped one at a time: they never change the outcome. */
  lemma {:induction false} ScanMessageSkipsNoise(s: seq<Byte>, pos: nat, k: nat)
    requires pos <= k <= |s|
    requires forall i :: pos <= i < k ==> s[i] != START
    ensures ScanMessage(s, pos) == ScanMessage(s, k)
    decreases k - pos
  {
    if pos < k {
      ScanMessageSkipsNoise(s, pos + 1, k);
    }
  }

  /** `[0x02, 0x50, b0..b5]` is a standard Received message; the frame is exactly 8 bytes. */
  lemma ReceivedStandardFrame(s: seq<Byte>, pos: nat)
    requires pos + 8 <= |s| && s[pos] == START && s[pos + 1] == 0x50
    ensures ScanMessage(s, pos) ==
      (Got(Received(Device.Address(s[pos + 2..pos + 5]), Commands.TryFrom([s[pos + 5], s[pos + 6]]), s[pos + 7], None)), pos + 8)
  {
    assert [s[pos + 2], s[pos + 3], s[pos + 4]] == s[pos + 2..pos + 5];
  }

  /** A 0x51 frame is 22 bytes; its extended data are the last 14, in order. */
  lemma ReceivedExtendedFrame(s: seq<Byte>, pos: nat)
    requires pos + 22 <= |s| && s[pos] == START && s[pos + 1] == 0x51
    ensures ScanMessage(s, pos) ==
      (Got(Received(Device.Address(s[pos + 2..pos + 5]), Commands.TryFrom([s[pos + 5], s[pos + 6]]), s[pos + 7], Some(s[pos + 8..pos + 22]))), pos + 22)
  {
    assert [s[pos + 2], s[pos + 3], s[pos + 4]] == s[pos + 2..pos + 5];
    assert s[pos + 2..pos + 22][6..20] == s[pos + 8..pos + 22];
  }

  /** A 0x52 frame is 5 bytes; an X10 payload that does not parse drops the whole frame. */
  lemma X10ReceivedFrame(s: seq<Byte>, pos: nat)
    requires pos + 5 <= |s| && s[pos] == START && s[pos + 1] == 0x52
    ensures X10.MessageTryFrom(s[pos + 2..pos + 5]).Some? ==>
      ScanMessage(s, pos) == (Got(X10Received(X10.MessageTryFrom(s[pos + 2..pos + 5]).value)), pos + 5)
    ensures X10.MessageTryFrom(s[pos + 2..pos + 5]).None? ==> ScanMessage(s, pos) == ScanMessage(s, pos + 5)
  {
  }

  /** A 0x54 frame is 3 bytes; an unknown button byte drops the whole frame. */
  lemma ButtonEventFrame(s: seq<Byte>, pos: nat)
    requires pos + 3 <= |s| && s[pos] == START && s[pos + 1] == 0x54
    ensures DecodeButton(s[pos + 2]).Some? ==> ScanMessage(s, pos) == (Got(ButtonEvent(DecodeButton(s[pos + 2]).value)), pos + 3)
    ensures DecodeButton(s[pos + 2]).None? ==> ScanMessage(s, pos) == ScanMessage(s, pos + 3)
  {
  }

  /** 0x53: 10 bytes in all; the 8 payload bytes are the link result. */
  lemma LinkCompleteFrame(s: seq<Byte>, pos: nat)
    requires pos + 10 <= |s| && s[pos] == START && s[pos + 1] == 0x53
    ensures ScanMessage(s, pos) == (Got(LinkComplete(Links.FromBytes(s[pos + 2..pos + 10]))), pos + 10)
  {
  }

  /** 0x55: the two header bytes only. */
  lemma UserResetFrame(s: seq<Byte>, pos: nat)
    requires pos + 2 <= |s| && s[pos] == START && s[pos + 1] == 0x55
    ensures ScanMessage(s, pos) == (Got(UserResetDetected), pos + 2)
  {
  }

  /** 0x56: 7 bytes in all; the first payload byte is skipped, then the group and the address. */
  lemma LinkCleanupFailedFrame(s: seq<Byte>, pos: nat)
    requires pos + 7 <= |s| && s[pos] == START && s[pos + 1] == 0x56
    ensures ScanMessage(s, pos) == (Got(LinkCleanupFailed(s[pos + 3], Device.Address(s[pos + 4..pos + 7]))), pos + 7)
  {
    assert [s[pos + 4], s[pos + 5], s[pos + 6]] == s[pos + 4..pos + 7];
  }

  /** 0x57: 10 bytes in all: flags, group, address, link data. */
  lemma LinkRecordFrame(s: seq<Byte>, pos: nat)
    requires pos + 10 <= |s| && s[pos] == START && s[pos + 1] == 0x57
    ensures ScanMessage(s, pos) ==
      (Got(LinkRecordResponse(s[pos + 2], s[pos + 3], Device.Address(s[pos + 4..pos + 7]), Links.LinkData(s[pos + 7..pos + 10]))), pos + 10)
  {
    SliceOfSlice(s, pos + 2, pos + 10, 2, 5);
    SliceOfSlice(s, pos + 2, pos + 10, 5, 8);
  }

  /** 0x58: 3 bytes in all; the status byte 0x06 means the cleanup finished. */
  lemma CleanupStatusFrame(s: seq<Byte>, pos: nat)
    requires pos + 3 <= |s| && s[pos] == START && s[pos + 1] == 0x58
    ensures ScanMessage(s, pos) == (Got(LinkCleanupStatus(s[pos + 2] == 0x06)), pos + 3)
  {
  }

  /** 0x59: 12 bytes in all: a 2-byte address field, flags, group, id, link data. */
  lemma DatabaseRecordFrame(s: seq<Byte>, pos: nat)
    requires pos + 12 <= |s| && s[pos] == START && s[pos + 1] == 0x59
    ensures ScanMessage(s, pos) ==
      (Got(DatabaseRecordFound(s[pos + 2..pos + 4], s[pos + 4], s[pos + 5], Device.Address(s[pos + 6..pos + 9]), Links.LinkData(s[pos + 9..pos + 12]))), pos + 12)
  {
    SliceOfSlice(s, pos + 2, pos + 12, 0, 2);
    SliceOfSlice(s, pos + 2, pos + 12, 4, 7);
    SliceOfSlice(s, pos + 2, pos + 12, 7, 10);
  }

  /** A slice of a slice is a slice of the original sequence. */
  lemma SliceOfSlice(s: seq<Byte>, lo: nat, hi: nat, i: nat, j: nat)
    requires lo <= hi <= |s| && i <= j <= hi - lo
    ensures s[lo..hi][i..j] == s[lo + i..lo + j]
  {
    var t := s[lo..hi][i..j];
    assert |t| == j - i;
    forall k | 0 <= k < j - i
      ensures t[k] == s[lo + i + k]
    {
      assert t[k] == s[lo..hi][i + k];
    }
  }

  /** The button byte: the high nibble picks Set, Two or Three, the low nibble picks tapped, held or released. */
  lemma ButtonByteNibbles(b: Byte)
    ensures DecodeButton(b).Some? ==>
      DecodeButton(b).value.button == (if b >> 4 == 0 then Buttons.Set else if b >> 4 == 1 then Buttons.Two else Buttons.Three)
    ensures DecodeButton(b).Some? ==>
      (DecodeButton(b).value.Tapped? <==> b & 0x0F == 2) &&
      (DecodeButton(b).value.Held? <==> b & 0x0F == 3) &&
      (DecodeButton(b).value.Released? <==> b & 0x0F == 4)
  {
  }

  /** A message frame is dropped exactly when its opcode is unknown, its X10 payload does not parse, or its button byte is unknown. */
  lemma MessageDiscardIff(op: Byte, p: seq<Byte>)
    requires |p| == MessagePayloadLength(op)
    ensures DecodeMessage(op, p).Discard? <==>
      (op < 0x50 || op > 0x59)
      || (op == 0x52 && X10.MessageTryFrom(p).None?)
      || (op == 0x54 && DecodeButton(p[0]).None?)
    ensures !DecodeMessage(op, p).NotImplemented?
  {
  }

  /** An unknown opcode costs the start marker and the opcode byte, and that byte is never taken as a start marker. */
  lemma UnknownMessageOpcode(s: seq<Byte>, pos: nat)
    requires pos + 2 <= |s| && s[pos] == START && (s[pos + 1] < 0x50 || s[pos + 1] > 0x59)
    ensures ScanMessage(s, pos) == ScanMessage(s, pos + 2)
  {
  }

  /** In `[0x02, 0x02, 0x50, ...]` the second 0x02 is read as an (unknown) opcode, so the 0x50 frame is lost. */
  lemma DoubleStartLosesFrame(b: seq<Byte>)
    requires |b| == 6 && forall i :: 0 <= i < 6 ==> b[i] != START
    ensures ScanMessage([START, START, 0x50] + b, 0) == (EndOfStream, 9)
  {
    var s := [START, START, 0x50] + b;
    UnknownMessageOpcode(s, 0);
    ScanMessageSkipsNoise(s, 2, 9);
  }

  /** `[0x02, 0xFF, 0x02, 0x50, b0..b5]` skips the unknown frame and yields one Received message built from b0..b5. */
  lemma ResyncAfterUnknownOpcode(b: seq<Byte>)
    requires |b| == 6
    ensures ScanMessage([START, 0xFF, START, 0x50] + b, 0) ==
      (Got(Received(Device.Address(b[0..3]), Commands.TryFrom([b[3], b[4]]), b[5], None)), 10)
  {
    var s := [START, 0xFF, START, 0x50] + b;
    UnknownMessageOpcode(s, 0);
    ReceivedStandardFrame(s, 2);
    assert s[4..7] == b[0..3];
  }

  /** A decoded message came from one whole frame that starts at or after the cursor and ends where the cursor is left. */
  ghost predicate MessageFrameAt(s: seq<Byte>, f: nat, m: Message, end: nat) {
    && f + 2 <= end <= |s|
    && s[f] == START
    && end == f + 2 + MessagePayloadLength(s[f + 1])
    && DecodeMessage(s[f + 1], s[f + 2..end]) == Decoded(m)
  }

  lemma {:induction false} ScanMessageSound(s: seq<Byte>, pos: nat)
    requires pos <= |s|
    ensures var (r, end) := ScanMessage(s, pos);
      r.Got? ==> exists f :: pos <= f && MessageFrameAt(s, f, r.value, end)
    decreases |s| - pos
  {
    var (r, end) := ScanMessage(s, pos);
    if r.Got? && pos < |s| {
      if s[pos] != START {
        ScanMessageSound(s, pos + 1);
      } else {
        var next := pos + 2 + MessagePayloadLength(s[pos + 1]);
        if DecodeMessage(s[pos + 1], s[pos + 2..next]).Decoded? {
          assert MessageFrameAt(s, pos, r.value, end);
        } else {
          ScanMessageSound(s, next);
        }
      }
    }
  }

  // ---------------------------------------------------------------------------
  // Properties of the response scan
  // ---------------------------------------------------------------------------

  /** Bytes before a start marker never change what `next_response` yields. */
  lemma {:induction false} ScanResponseSkipsNoise(s: seq<Byte>, pos: nat, k: nat)
    requires pos <= k <= |s|
    requires forall i :: pos <= i < k ==> s[i] != START
    ensures ScanResponse(s, pos) == ScanResponse(s, k)
    decreases k - pos
  {
    if pos < k {
      ScanResponseSkipsNoise(s, pos + 1, k);
    }
  }

  /** 0x60: 8 bytes in all; the version byte 0xFF means no version. */
  lemma GotInfoFrame(s: seq<Byte>, pos: nat)
    requires pos + 8 <= |s| && s[pos] == START && s[pos + 1] == 0x60
    ensures var (r, end) := ScanResponse(s, pos);
      end == pos + 8 && r.Got? && r.value.GotInfo?
      && r.value.infoAddress == Device.Address(s[pos + 2..pos + 5])
      && r.value.infoCategory == s[pos + 5..pos + 7]
      && (r.value.version.None? <==> s[pos + 7] == 0xFF)
      && (r.value.version.Some? ==> r.value.version.value == s[pos + 7])
  {
    assert [s[pos + 2], s[pos + 3], s[pos + 4]] == s[pos + 2..pos + 5];
    assert [s[pos + 5], s[pos + 6]] == s[pos + 5..pos + 7];
  }

  /** 0x66: 5 bytes in all; the firmware byte 0x00 means no firmware. */
  lemma SetCategoryFrame(s: seq<Byte>, pos: nat)
    requires pos + 5 <= |s| && s[pos] == START && s[pos + 1] == 0x66
    ensures var (r, end) := ScanResponse(s, pos);
      end == pos + 5 && r.Got? && r.value.SetCategory?
      && r.value.category == s[pos + 2..pos + 4]
      && (r.value.firmware.None? <==> s[pos + 4] == 0x00)
      && (r.value.firmware.Some? ==> r.value.firmware.value == s[pos + 4])
  {
    assert [s[pos + 2], s[pos + 3]] == s[pos + 2..pos + 4];
  }

  /** 0x73: 5 bytes in all, but only the first payload byte becomes the configuration. */
  lemma GotConfigFrame(s: seq<Byte>, pos: nat)
    requires pos + 5 <= |s| && s[pos] == START && s[pos + 1] == 0x73
    ensures ScanResponse(s, pos) == (Got(GotConfig(ConfigFromByte(s[pos + 2]))), pos + 5)
  {
  }

  /** 0x6B: one payload byte, unpacked as a configuration. */
  lemma SetConfigFrame(s: seq<Byte>, pos: nat)
    requires pos + 3 <= |s| && s[pos] == START && s[pos + 1] == 0x6B
    ensures ScanResponse(s, pos) == (Got(SetConfig(ConfigFromByte(s[pos + 2]))), pos + 3)
  {
  }

  /** 0x62 has no defined payload: it is reported as unsupported after its two header bytes. */
  lemma SendAllLinkUnsupported(s: seq<Byte>, pos: nat)
    requires pos + 2 <= |s| && s[pos] == START && s[pos + 1] == 0x62
    ensures ScanResponse(s, pos) == (Unsupported(0x62), pos + 2)
  {
  }

  /** Only 0x62 is unsupported; a response frame is dropped exactly when its opcode is unknown or its X10 echo does not parse. */
  lemma ResponseOutcomeIff(op: Byte, p: seq<Byte>)
    requires |p| == ResponsePayloadLength(op)
    ensures DecodeResponse(op, p).NotImplemented? <==> op == 0x62
    ensures DecodeResponse(op, p).Discard? <==> (op < 0x60 || op > 0x73) || (op == 0x63 && X10.MessageTryFrom(p).None?)
  {
  }

  /**
   * The doc comment of `next_response` (src/serial.rs:116) says non-response messages
   * are ignored, but the code does not know the message opcodes, so it drops only their two
   * header bytes and scans their payload for a start marker: a 0x50 message whose
   * address begins 0x02, 0x67 is read as a Reset response.
   */
  lemma ResponseScanReadsInsideMessages(rest: seq<Byte>)
    ensures ScanResponse([START, 0x50, START, 0x67] + rest, 0) == (Got(Reset), 4)
  {
    var s := [START, 0x50, START, 0x67] + rest;
    assert ScanResponse(s, 0) == ScanResponse(s, 2);
  }

  ghost predicate ResponseFrameAt(s: seq<Byte>, f: nat, r: Read<Response>, end: nat) {
    && f + 2 <= end <= |s|
    && s[f] == START
    && end == f + 2 + ResponsePayloadLength(s[f + 1])
    && match DecodeResponse(s[f + 1], s[f + 2..end])
       case Decoded(v) => r == Got(v)
       case NotImplemented => r == Unsupported(s[f + 1])
       case Discard => false
  }

  /** A response or an unsupported report came from one whole frame at or after the cursor, ending where the cursor is left. */
  lemma {:induction false} ScanResponseSound(s: seq<Byte>, pos: nat)
    requires pos <= |s|
    ensures var (r, end) := ScanResponse(s, pos);
      !r.EndOfStream? ==> exists f :: pos <= f && ResponseFrameAt(s, f, r, end)
    decreases |s| - pos
  {
    var (r, end) := ScanResponse(s, pos);
    if !r.EndOfStream? && pos < |s| {
      if s[pos] != START {
        ScanResponseSound(s, pos + 1);
      } else {
        var next := pos + 2 + ResponsePayloadLength(s[pos + 1]);
        if !DecodeResponse(s[pos + 1], s[pos + 2..next]).Discard? {
          assert ResponseFrameAt(s, pos, r, end);
        } else {
          ScanResponseSound(s, next);
        }
      }
    }
  }

  // ---------------------------------------------------------------------------
  // The serial port: a byte source with a read cursor
  // ---------------------------------------------------------------------------

  class Port {
    /** Every byte the modem sends, in order. */
    const input: seq<Byte>
    /** How many of them have been read. */
    var pos: nat

    ghost predicate Valid()
      reads this
    {
      pos <= |input|
    }

    constructor (input: seq<Byte>)
      ensures Valid() && this.input == input && pos == 0
    {
      this.input := input;
      pos := 0;
    }

    /** `next_byte`: the next byte, or None once the source has nothing more to give. */
    method NextByte() returns (b: Option<Byte>)
      requires Valid()
      modifies this
      ensures Valid()
      ensures old(pos) < |input| ==> b == Some(input[old(pos)]) && pos == old(pos) + 1
      ensures old(pos) == |input| ==> b == None && pos == old(pos)
    {
      if pos < |input| {
        b := Some(input[pos]);
        pos := pos + 1;
      } else {
        b := None;
      }
    }

    /** `read_exact`: the next `n` bytes, or None (with the source drained) when fewer remain. */
    method ReadExact(n: nat) returns (buf: Option<seq<Byte>>)
      requires Valid()
      modifies this
      ensures Valid()
      ensures old(pos) + n <= |input| ==> buf == Some(input[old(pos)..old(pos) + n]) && pos == old(pos) + n
      ensures old(pos) + n > |input| ==> buf == None && pos == |input|
    {
      if pos + n <= |input| {
        buf := Some(input[pos..pos + n]);
        pos := pos + n;
      } else {
        buf := None;
        pos := |input|;
      }
    }

    /**
     * Reads the payload of a message frame whose opcode has just been read, the way
     * each arm of `next_message` does, and decodes it. None means the source ran dry.
     */
    method ReadMessagePayload(op: Byte) returns (r: Option<Attempt<Message>>)
      requires Valid()
      modifies this
      ensures Valid()
      ensures var end := old(pos) + MessagePayloadLength(op);
        if end <= |input| then r == Some(DecodeMessage(op, input[old(pos)..end])) && pos == end
        else r == None && pos == |input|
    {
      match op
      case 0x50 =>
        var buf := ReadExact(6);
        if buf.None? { return None; }
        var b := buf.value;
        r := Some(Decoded(Received(Device.FromBytes([b[0], b[1], b[2]]), Commands.TryFrom([b[3], b[4]]), b[5], None)));
      case 0x51 =>
        var buf := ReadExact(20);
        if buf.None? { return None; }
        var b := buf.value;
        var data := b[6..20];
        r := Some(Decoded(Received(Device.FromBytes([b[0], b[1], b[2]]), Commands.TryFrom([b[3], b[4]]), b[5], Some(data))));
      case 0x52 =>
        var buf := ReadExact(3);
        if buf.None? { return None; }
        var msg := X10.MessageTryFrom(buf.value);
        r := Some(if msg.Some? then Decoded(X10Received(msg.value)) else Discard);
      case 0x53 =>
        var buf := ReadExact(8);
        if buf.None? { return None; }
        r := Some(Decoded(LinkComplete(Links.FromBytes(buf.value))));
      case 0x54 =>
        var b := NextByte();
        if b.None? { return None; }
        var e := DecodeButton(b.value);
        r := Some(if e.Some? then Decoded(ButtonEvent(e.value)) else Discard);
      case 0x55 =>
        r := Some(Decoded(UserResetDetected));
      case 0x56 =>
        var skipped := NextByte();
        if skipped.None? { return None; }
        var buf := ReadExact(4);
        if buf.None? { return None; }
        var b := buf.value;
        r := Some(Decoded(LinkCleanupFailed(b[0], Device.FromBytes([b[1], b[2], b[3]]))));
      case 0x57 =>
        r := ReadLinkRecord();
      case 0x58 =>
        var b := NextByte();
        if b.None? { return None; }
        r := Some(Decoded(LinkCleanupStatus(b.value == 0x06)));
      case 0x59 =>
        r := ReadDatabaseRecord();
      case _ =>
        r := Some(Discard);
    }

    /** The 0x57 arm of `next_message`: flags and group byte by byte, then the address and the link data. */
    method ReadLinkRecord() returns (r: Option<Attempt<Message>>)
      requires Valid()
      modifies this
      ensures Valid()
      ensures var end := old(pos) + 8;
        if end <= |input| then r == Some(DecodeMessage(0x57, input[old(pos)..end])) && pos == end
        else r == None && pos == |input|
    {
      ghost var p0 := pos;
      var flags := NextByte();
      if flags.None? { return None; }
      var group := NextByte();
      if group.None? { return None; }
      var id := ReadExact(3);
      if id.None? { return None; }
      var link := ReadExact(3);
      if link.None? { return None; }
      SliceOfSlice(input, p0, p0 + 8, 2, 5);
      SliceOfSlice(input, p0, p0 + 8, 5, 8);
      r := Some(Decoded(LinkRecordResponse(flags.value, group.value, Device.FromBytes(id.value), Links.LinkDataFrom(link.value))));
    }

    /** The 0x59 arm of `next_message`: the 2-byte address field, flags, group, the id and the link data. */
    method ReadDatabaseRecord() returns (r: Option<Attempt<Message>>)
      requires Valid()
      modifies this
      ensures Valid()
      ensures var end := old(pos) + 10;
        if end <= |input| then r == Some(DecodeMessage(0x59, input[old(pos)..end])) && pos == end
        else r == None && pos == |input|
    {
      ghost var p0 := pos;
      var address := ReadExact(2);
      if address.None? { return None; }
      var flags := NextByte();
      if flags.None? { return None; }
      var group := NextByte();
      if group.None? { return None; }
      var id := ReadExact(3);
      if id.None? { return None; }
      var link := ReadExact(3);
      if link.None? { return None; }
      SliceOfSlice(input, p0, p0 + 10, 0, 2);
      SliceOfSlice(input, p0, p0 + 10, 4, 7);
      SliceOfSlice(input, p0, p0 + 10, 7, 10);
      r := Some(Decoded(DatabaseRecordFound(address.value, flags.value, group.value, Device.FromBytes(id.value), Links.LinkDataFrom(link.value))));
    }

    /**
     * One pass of `next_message`'s loop: a noise byte, or a whole frame. Returns the
     * outcome when the pass ends the scan, None when scanning goes on from the new position.
     */
    method MessageStep() returns (r: Option<Read<Message>>)
      requires Valid()
      modifies this
      ensures Valid()
      ensures r.Some? ==> (r.value, pos) == ScanMessage(input, old(pos))
      ensures r.None? ==> old(pos) < pos && ScanMessage(input, pos) == ScanMessage(input, old(pos))
    {
      ghost var frame := pos;
      var start := NextByte();
      if start.None? {
        return Some(EndOfStream);
      }
      if start.value != START {
        return None;
      }
      var op := NextByte();
      if op.None? {
        return Some(EndOfStream);
      }
      var attempt := ReadMessagePayload(op.value);
      if attempt.None? {
        return Some(EndOfStream);
      }
      MessageFrameOutcome(input, frame);
      if attempt.value.Decoded? {
        return Some(Got(attempt.value.value));
      }
      return None;
    }

    /** `next_message`: scans for a start marker, reads a frame and retries until one is recognised. */
    method NextMessage() returns (r: Read<Message>)
      requires Valid()
      modifies this
      ensures Valid()
      ensures (r, pos) == ScanMessage(input, old(pos))
    {
      while true
        invariant Valid()
        invariant ScanMessage(input, pos) == ScanMessage(input, old(pos))
        decreases |input| - pos
      {
        var step := MessageStep();
        if step.Some? {
          return step.value;
        }
      }
    }

    /** Reads the payload of a response frame whose opcode has just been read, the way each arm of `next_response` does. */
    method ReadResponsePayload(op: Byte) returns (r: Option<Attempt<Response>>)
      requires Valid()
      modifies this
      ensures Valid()
      ensures var end := old(pos) + ResponsePayloadLength(op);
        if end <= |input| then r == Some(DecodeResponse(op, input[old(pos)..end])) && pos == end
        else r == None && pos == |input|
    {
      match op
      case 0x60 =>
        var buf := ReadExact(6);
        if buf.None? { return None; }
        var b := buf.value;
        var version := if b[5] == 0xFF then None else Some(b[5]);
        r := Some(Decoded(GotInfo(Device.FromBytes([b[0], b[1], b[2]]), [b[3], b[4]], version)));
      case 0x61 =>
        var buf := ReadExact(3);
        if buf.None? { return None; }
        var b := buf.value;
        r := Some(Decoded(SentLinkCommand(b[0], b[1], b[2])));
      case 0x62 =>
        r := Some(NotImplemented);
      case 0x63 =>
        var buf := ReadExact(3);
        if buf.None? { return None; }
        var msg := X10.MessageTryFrom(buf.value);
        r := Some(if msg.Some? then Decoded(SentX10(msg.value)) else Discard);
      case 0x64 =>
        var buf := ReadExact(2);
        if buf.None? { return None; }
        var b := buf.value;
        r := Some(Decoded(StartedLink(b[0], b[1])));
      case 0x65 =>
        r := Some(Decoded(CanceledLink));
      case 0x66 =>
        var buf := ReadExact(3);
        if buf.None? { return None; }
        var b := buf.value;
        var firmware := if b[2] == 0x00 then None else Some(b[2]);
        r := Some(Decoded(SetCategory([b[0], b[1]], firmware)));
      case 0x67 =>
        r := Some(Decoded(Reset));
      case 0x68 =>
        var b := NextByte();
        if b.None? { return None; }
        r := Some(Decoded(SetAckByte(b.value)));
      case 0x69 =>
        r := Some(Decoded(GotFirstLinkRecord));
      case 0x6A =>
        r := Some(Decoded(GotNextLinkRecord));
      case 0x6B =>
        var b := NextByte();
        if b.None? { return None; }
        r := Some(Decoded(SetConfig(ConfigFromByte(b.value))));
      case 0x6C =>
        r := Some(Decoded(GotSenderLinkRecord));
      case 0x6D =>
        r := Some(Decoded(LedOn));
      case 0x6E =>
        r := Some(Decoded(LedOff));
      case 0x6F =>
        var buf := ReadExact(9);
        if buf.None? { return None; }
        var b := buf.value;
        r := Some(Decoded(UpdatedLinkRecord(b[0], b[1], b[2], Device.FromBytes([b[3], b[4], b[5]]), [b[6], b[7], b[8]])));
      case 0x70 =>
        var b := NextByte();
        if b.None? { return None; }
        r := Some(Decoded(SetNakByte(b.value)));
      case 0x71 =>
        var buf := ReadExact(2);
        if buf.None? { return None; }
        var b := buf.value;
        r := Some(Decoded(SetAckBytes([b[0], b[1]])));
      case 0x72 =>
        r := Some(Decoded(Sleeping));
      case 0x73 =>
        var buf := ReadExact(3);
        if buf.None? { return None; }
        r := Some(Decoded(GotConfig(ConfigFromByte(buf.value[0]))));
      case _ =>
        r := Some(Discard);
    }

    /** One pass of `next_response`'s loop, as `MessageStep` is for messages. */
    method ResponseStep() returns (r: Option<Read<Response>>)
      requires Valid()
      modifies this
      ensures Valid()
      ensures r.Some? ==> (r.value, pos) == ScanResponse(input, old(pos))
      ensures r.None? ==> old(pos) < pos && ScanResponse(input, pos) == ScanResponse(input, old(pos))
    {
      ghost var frame := pos;
      var start := NextByte();
      if start.None? {
        return Some(EndOfStream);
      }
      if start.value != START {
        return None;
      }
      var op := NextByte();
      if op.None? {
        return Some(EndOfStream);
      }
      var attempt := ReadResponsePayload(op.value);
      if attempt.None? {
        return Some(EndOfStream);
      }
      ResponseFrameOutcome(input, frame);
      if attempt.value.Decoded? {
        return Some(Got(attempt.value.value));
      } else if attempt.value.NotImplemented? {
        return Some(Unsupported(op.value));
      }
      return None;
    }

    /**
     * `next_response`: scans for a start marker and reads a response frame; opcode 0x62
     * (an echoed send) is reported as unsupported where the source panics.
     */
    method NextResponse() returns (r: Read<Response>)
      requires Valid()
      modifies this
      ensures Valid()
      ensures (r, pos) == ScanResponse(input, old(pos))
    {
      while true
        invariant Valid()
        invariant ScanResponse(input, pos) == ScanResponse(input, old(pos))
        decreases |input| - pos
      {
        var step := ResponseStep();
        if step.Some? {
          return step.value;
        }
      }
    }
  }
}
