/** Messages, responses and the modem configuration byte (src/message.rs). */
module Messages {
  import opened Prelude
  import Device
  import Commands
  import X10
  import Links
  import Buttons

  /** An ALL-Link device group. */
  type Group = Byte

  /** Notifications the modem delivers unprompted. */
  datatype Message =
    | Received(address: Device.Address, command: Option<Commands.Command>, flags: Byte, data: Option<Bytes14>)
    | X10Received(x10: X10.Message)
    | LinkComplete(result: Links.LinkResult)
    | ButtonEvent(event: Buttons.ButtonEvent)
    | UserResetDetected
    | LinkCleanupFailed(cleanupGroup: Group, cleanupAddress: Device.Address)
    | LinkRecordResponse(recordFlags: Byte, recordGroup: Group, recordId: Device.Address, recordLink: Links.LinkData)
    | LinkCleanupStatus(finished: bool)
    | DatabaseRecordFound(dbAddress: Bytes2, dbFlags: Byte, dbGroup: Byte, dbId: Device.Address, dbLink: Links.LinkData)

  /**
   * The Display text of a message, for the arms that print fixed text.
   * The arms that print bytes in hexadecimal or an X10 message give None.
   */
  function Text(m: Message): (r: Option<string>)
    ensures r.None? <==> (m.Received? && m.data.Some?) || m.X10Received? || m.LinkCleanupFailed?
  {
    match m
    case Received(_, _, _, data) =>
      if data.None? then Some("Received standard message.") else None
    case X10Received(_) => None
    case LinkComplete(_) => Some("ALL-Link completed (details omitted).")
    case ButtonEvent(e) => Some(Buttons.EventText(e))
    case UserResetDetected => Some("User reset initiated.")
    case LinkCleanupFailed(_, _) => None
    case LinkRecordResponse(_, _, _, _) => Some("ALL-Link record received (omitted).")
    case LinkCleanupStatus(finished) =>
      if finished then Some("ALL-Link cleanup completed.") else Some("ALL-Link cleanup aborted due to traffic.")
    case DatabaseRecordFound(_, _, _, _, _) => Some("Database record found (omitted).")
  }

  /** The two cleanup outcomes print differently, and a standard Received prints a fixed sentence. */
  lemma TextFacts(a: Device.Address, c: Option<Commands.Command>, f: Byte)
    ensures Text(LinkCleanupStatus(true)) != Text(LinkCleanupStatus(false))
    ensures Text(Received(a, c, f, None)) == Some("Received standard message.")
  {
    assert Text(LinkCleanupStatus(true)).value[17] != Text(LinkCleanupStatus(false)).value[17];
  }

  /** Distinct button events print distinctly as messages. */
  lemma ButtonEventTextInjective(d: Buttons.ButtonEvent, e: Buttons.ButtonEvent)
    requires Text(ButtonEvent(d)) == Text(ButtonEvent(e))
    ensures d == e
  {
    Buttons.EventTextInjective(d, e);
  }

  /** The modem configuration flags. */
  datatype Config = Config(autoLink: bool, monitor: bool, manualLed: bool, timeout: bool, busyReject: bool)

  /** Rust's `bool as u8`. */
  function Bit(b: bool): Byte {
    if b then 1 else 0
  }

  /** `Into<u8> for Config`: bit 7 is NOT auto_link, bit 4 is NOT timeout, bits 2 to 0 stay clear. */
  function ConfigToByte(c: Config): (r: Byte)
    ensures r & 0x07 == 0
    ensures (r & 0x80 == 0) == c.autoLink
    ensures (r & 0x40 != 0) == c.monitor
    ensures (r & 0x20 != 0) == c.manualLed
    ensures (r & 0x10 == 0) == c.timeout
    ensures (r & 0x08 != 0) == c.busyReject
  {
    (Bit(!c.autoLink) << 7)
    | (Bit(c.monitor) << 6)
    | (Bit(c.manualLed) << 5)
    | (Bit(!c.timeout) << 4)
    | (Bit(c.busyReject) << 3)
  }

  /** `From<u8> for Config`: two flags are true when their bit is clear, three when it is set. */
  function ConfigFromByte(byte: Byte): (r: Config)
    ensures ConfigToByte(r) == byte & 0xF8
  {
    Config(
      byte & 0x80 == 0,
      byte & 0x40 == 0x40,
      byte & 0x20 == 0x20,
      byte & 0x10 == 0,
      byte & 0x08 == 0x08)
  }

  /** `Default for Config`: auto-link and timeout on, everything else off. */
  function DefaultConfig(): (r: Config)
    ensures ConfigToByte(r) == 0
    ensures ConfigFromByte(0) == r
  {
    Config(true, false, false, true, false)
  }

  /** Unpacking a packed configuration gives it back, for all 32 flag combinations. */
  lemma ConfigRoundTrip(c: Config)
    ensures ConfigFromByte(ConfigToByte(c)) == c
  {
  }

  /** Turning timeout off in the default configuration packs to a non-zero byte. */
  lemma DefaultWithoutTimeout()
    ensures ConfigToByte(DefaultConfig().(timeout := false)) != 0
  {
  }

  /** Responses the modem sends to commands it was given. */
  datatype Response =
    | GotInfo(infoAddress: Device.Address, infoCategory: Bytes2, version: Option<Byte>)
    | SentLinkCommand(linkGroup: Group, linkCommand: Byte, broadcast: Byte)
    | SentMessage(message: Message)
    | SentX10(x10: X10.Message)
    | StartedLink(role: Byte, startedGroup: Group)
    | CanceledLink
    | SetCategory(category: Bytes2, firmware: Option<Byte>)
    | Reset
    | SetAckByte(ack: Byte)
    | GotFirstLinkRecord
    | GotNextLinkRecord
    | SetConfig(setConfig: Config)
    | GotSenderLinkRecord
    | LedOn
    | LedOff
    | UpdatedLinkRecord(control: Byte, record: Byte, updatedGroup: Group, updatedAddress: Device.Address, link: Bytes3)
    | SetNakByte(nak: Byte)
    | SetAckBytes(acks: Bytes2)
    | Sleeping
    | GotConfig(config: Config)
    | CanceledCleanup
    | ReadDatabaseBytes(databaseAddress: Bytes2)
    | Beeping
    | SetStatus(status: Byte)
    | SetLinkData(linkData: Bytes3)
    | SetRetries(retries: Byte)
    | SetFrequencyOffset(offset: Byte)
    | SetTempLincAck(tempLincAck: Byte)
}
