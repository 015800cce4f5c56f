/** The two-byte command codec (src/command.rs). */
module Commands {
  import opened Prelude

  /** An ALL-Link group number; 0 stands for "no group" where the group is optional. */
  datatype GroupNumber = GroupNumber(n: Byte)

  /** The "on level" of an On command; on the wire it shares the group byte. */
  datatype OnLevel = OnLevel(level: Byte)

  /** The direction of a Start (manual dimming) command. */
  datatype BrightDim = Bright | Dim

  /** The payload of an On command: a group number or an on level. */
  datatype OnPayload = GroupPayload(group: GroupNumber) | LevelPayload(level: OnLevel)

  datatype Command =
    | On(payload: OnPayload)
    | FastOn(group: Option<GroupNumber>)
    | Off(group: Option<GroupNumber>)
    | FastOff(group: Option<GroupNumber>)
    | Bright(group: Option<GroupNumber>)
    | Dim(group: Option<GroupNumber>)
    | Start(direction: BrightDim)
    | Stop
    | IdRequest
    | StatusRequest
    | BeginLinking(linkGroup: GroupNumber)
    | BeginUnlinking(linkGroup: GroupNumber)
    | CancelLinking

  /** Decodes an optional group: byte 0 means absent. */
  function GroupOrNone(byte: Byte): (r: Option<GroupNumber>)
    ensures r == None <==> byte == 0
    ensures GroupOrZero(r) == byte
  {
    if byte == 0 then None else Some(GroupNumber(byte))
  }

  /** Encodes an optional group: absent becomes byte 0. */
  function GroupOrZero(group: Option<GroupNumber>): (r: Byte)
    ensures r == 0 <==> group == None || group == Some(GroupNumber(0))
    ensures group.Some? ==> r == group.value.n
  {
    match group
    case Some(g) => g.n
    case None => 0
  }

  /** Opcodes that `TryFrom` recognises. */
  predicate KnownOpcode(op: Byte) {
    op == 0x08 || op == 0x09 || op == 0x0A || 0x10 <= op <= 0x19
  }

  /** `Command::try_from([u8; 2])`: decodes `[opcode, data]`. */
  function TryFrom(bytes: Bytes2): (r: Option<Command>)
    ensures r.None? <==> !KnownOpcode(bytes[0])
  {
    match bytes[0]
    case 0x11 => Some(On(GroupPayload(GroupNumber(bytes[1]))))
    case 0x12 => Some(FastOn(GroupOrNone(bytes[1])))
    case 0x13 => Some(Off(GroupOrNone(bytes[1])))
    case 0x14 => Some(FastOff(GroupOrNone(bytes[1])))
    case 0x15 => Some(Command.Bright(GroupOrNone(bytes[1])))
    case 0x16 => Some(Command.Dim(GroupOrNone(bytes[1])))
    case 0x17 =>
      var dir := if bytes[1] == 0x01 then BrightDim.Bright else BrightDim.Dim;
      Some(Start(dir))
    case 0x18 => Some(Stop)
    case 0x10 => Some(IdRequest)
    case 0x19 => Some(StatusRequest)
    case 0x09 => Some(BeginLinking(GroupNumber(bytes[1])))
    case 0x0A => Some(BeginUnlinking(GroupNumber(bytes[1])))
    case 0x08 => Some(CancelLinking)
    case _ => None
  }

  /** `Into<[u8; 2]> for Command`: encodes a command as `[opcode, data]`. */
  function ToBytes(c: Command): (r: Bytes2)
    ensures KnownOpcode(r[0])
  {
    match c
    case On(payload) =>
      var two := match payload
        case LevelPayload(level) => level.level
        case GroupPayload(group) => group.n;
      [0x11, two]
    case FastOn(group) => [0x12, GroupOrZero(group)]
    case Off(group) => [0x13, GroupOrZero(group)]
    case FastOff(group) => [0x14, GroupOrZero(group)]
    case Bright(group) => [0x15, GroupOrZero(group)]
    case Dim(group) => [0x16, GroupOrZero(group)]
    case Start(dir) =>
      var two := match dir
        case Bright => 0x01
        case Dim => 0x00;
      [0x17, two]
    case Stop => [0x18, 0]
    case IdRequest => [0x10, 0]
    case StatusRequest => [0x19, 0]
    case BeginLinking(group) => [0x09, group.n]
    case BeginUnlinking(group) => [0x0A, group.n]
    case CancelLinking => [0x08, 0]
  }

  /** An optional group that survives encoding: absent, or a group from 1 up. */
  predicate CanonicalGroup(g: Option<GroupNumber>) {
    g.None? || g.value.n != 0
  }

  /** The commands that decoding gives back unchanged after encoding. */
  predicate Canonical(c: Command) {
    match c
    case On(payload) => payload.GroupPayload?
    case FastOn(g) => CanonicalGroup(g)
    case Off(g) => CanonicalGroup(g)
    case FastOff(g) => CanonicalGroup(g)
    case Bright(g) => CanonicalGroup(g)
    case Dim(g) => CanonicalGroup(g)
    case _ => true
  }

  /** Decoding an encoded optional group gives it back exactly when it is canonical; group 0 collapses to absent. */
  lemma GroupRoundTrip(g: Option<GroupNumber>)
    ensures GroupOrNone(GroupOrZero(g)) == g <==> CanonicalGroup(g)
    ensures g == Some(GroupNumber(0)) ==> GroupOrNone(GroupOrZero(g)) == None
  {
  }

  /** Encoding then decoding is the identity exactly on the canonical commands. */
  lemma {:induction false} RoundTrip(c: Command)
    ensures TryFrom(ToBytes(c)) == Some(c) <==> Canonical(c)
  {
    match c
    case On(payload) =>
    case FastOn(g) => GroupRoundTrip(g);
    case Off(g) => GroupRoundTrip(g);
    case FastOff(g) => GroupRoundTrip(g);
    case Bright(g) => GroupRoundTrip(g);
    case Dim(g) => GroupRoundTrip(g);
    case Start(dir) =>
    case _ =>
  }

  /** An On level is sent in the group byte and comes back as a group number. */
  lemma OnLevelDecodesAsGroup(v: Byte)
    ensures ToBytes(On(LevelPayload(OnLevel(v)))) == [0x11, v]
    ensures TryFrom(ToBytes(On(LevelPayload(OnLevel(v))))) == Some(On(GroupPayload(GroupNumber(v))))
  {
  }

  /** Start reads data 0x01 as Bright and every other byte as Dim; Dim is always sent as 0x00. */
  lemma StartDirection(data: Byte)
    ensures TryFrom([0x17, data]) == Some(Start(if data == 0x01 then BrightDim.Bright else BrightDim.Dim))
    ensures ToBytes(Start(BrightDim.Dim)) == [0x17, 0x00]
    ensures ToBytes(Start(BrightDim.Bright)) == [0x17, 0x01]
  {
  }

  /** The data byte as it comes back from decoding and re-encoding. */
  function NormalisedData(bytes: Bytes2): Byte {
    var op := bytes[0];
    if op == 0x18 || op == 0x10 || op == 0x19 || op == 0x08 then 0
    else if op == 0x17 then (if bytes[1] == 0x01 then 0x01 else 0x00)
    else bytes[1]
  }

  /** Re-encoding a decoded command keeps the opcode; the data byte is kept except where it carries no meaning. */
  lemma DecodeThenEncode(bytes: Bytes2)
    requires TryFrom(bytes).Some?
    ensures ToBytes(TryFrom(bytes).value) == [bytes[0], NormalisedData(bytes)]
  {
  }

  /** BeginLinking and BeginUnlinking carry the group byte through unchanged, 0 included. */
  lemma LinkingGroupPassThrough(g: Byte)
    ensures TryFrom([0x09, g]) == Some(BeginLinking(GroupNumber(g))) && ToBytes(BeginLinking(GroupNumber(g))) == [0x09, g]
    ensures TryFrom([0x0A, g]) == Some(BeginUnlinking(GroupNumber(g))) && ToBytes(BeginUnlinking(GroupNumber(g))) == [0x0A, g]
  {
  }
}
