/** The X10 sub-protocol carried inside modem frames (src/x10.rs). */
module X10 {
  import opened Prelude

  /** The house code of an X10 message, A to P. */
  datatype HouseCode = A | B | C | D | E | F | G | H | I | J | K | L | M | N | O | P

  /** `HouseCode::try_from`: the fixed, non-linear nibble table. */
  function HouseCodeTryFrom(byte: Byte): (r: Option<HouseCode>)
    ensures r.Some? <==> byte < 16
  {
    match byte
    case 0x6 => Some(A)
    case 0xE => Some(B)
    case 0x2 => Some(C)
    case 0xA => Some(D)
    case 0x1 => Some(E)
    case 0x9 => Some(F)
    case 0x5 => Some(G)
    case 0xD => Some(H)
    case 0x7 => Some(I)
    case 0xF => Some(J)
    case 0x3 => Some(K)
    case 0xB => Some(L)
    case 0x0 => Some(M)
    case 0x8 => Some(N)
    case 0x4 => Some(O)
    case 0xC => Some(P)
    case _ => None
  }

  /** `Into<char> for HouseCode`: the house code's letter. */
  function HouseChar(h: HouseCode): (r: char)
    ensures 'A' <= r <= 'P'
  {
    match h
    case A => 'A'
    case B => 'B'
    case C => 'C'
    case D => 'D'
    case E => 'E'
    case F => 'F'
    case G => 'G'
    case H => 'H'
    case I => 'I'
    case J => 'J'
    case K => 'K'
    case L => 'L'
    case M => 'M'
    case N => 'N'
    case O => 'O'
    case P => 'P'
  }

  /** The unit code of an X10 message, 1 to 16 when decoded. */
  datatype UnitCode = UnitCode(n: Byte)

  /** `UnitCode::try_from`: the same nibble order as the house codes, numbered 1 to 16. */
  function UnitCodeTryFrom(byte: Byte): (r: Option<UnitCode>)
    ensures r.Some? <==> byte < 16
    ensures r.Some? ==> 1 <= r.value.n <= 16
  {
    match byte
    case 0x6 => Some(UnitCode(1))
    case 0xE => Some(UnitCode(2))
    case 0x2 => Some(UnitCode(3))
    case 0xA => Some(UnitCode(4))
    case 0x1 => Some(UnitCode(5))
    case 0x9 => Some(UnitCode(6))
    case 0x5 => Some(UnitCode(7))
    case 0xD => Some(UnitCode(8))
    case 0x7 => Some(UnitCode(9))
    case 0xF => Some(UnitCode(10))
    case 0x3 => Some(UnitCode(11))
    case 0xB => Some(UnitCode(12))
    case 0x0 => Some(UnitCode(13))
    case 0x8 => Some(UnitCode(14))
    case 0x4 => Some(UnitCode(15))
    case 0xC => Some(UnitCode(16))
    case _ => None
  }

  /** `Into<u8> for UnitCode`: the unit number itself. */
  function UnitNumber(u: UnitCode): (r: Byte)
    ensures UnitCode(r) == u
  {
    u.n
  }

  /** An X10 command. */
  datatype Command =
    | AllLightsOff | StatusOff | On | PresetDim | AllLightsOn | HailAcknowledge | Bright | StatusOn
    | ExtendedCode | StatusRequest | Off | AllUnitsOff | HailRequest | Dim | ExtendedAnalogData

  /** `Command::try_from`: nibbles 0xA and 0xB both mean PresetDim. */
  function CommandTryFrom(byte: Byte): (r: Option<Command>)
    ensures r.Some? <==> byte < 16
  {
    match byte
    case 0x6 => Some(AllLightsOff)
    case 0xE => Some(StatusOff)
    case 0x2 => Some(On)
    case 0xA => Some(PresetDim)
    case 0x1 => Some(AllLightsOn)
    case 0x9 => Some(HailAcknowledge)
    case 0x5 => Some(Bright)
    case 0xD => Some(StatusOn)
    case 0x7 => Some(ExtendedCode)
    case 0xF => Some(StatusRequest)
    case 0x3 => Some(Off)
    case 0xB => Some(PresetDim)
    case 0x0 => Some(AllUnitsOff)
    case 0x8 => Some(HailRequest)
    case 0x4 => Some(Dim)
    case 0xC => Some(ExtendedAnalogData)
    case _ => None
  }

  /** The payload of an X10 message: a unit code or a command. */
  datatype Payload = Unit(unit: UnitCode) | Cmd(command: Command)

  /** An X10 message as the modem reports it. */
  datatype Message = Message(house: HouseCode, payload: Payload, success: bool)

  /**
   * `Message::try_from([u8; 3])`: the high nibble of byte 0 is the house code, its
   * low nibble the unit or command; byte 1 selects which, byte 2 is the status.
   */
  function MessageTryFrom(bytes: Bytes3): (r: Option<Message>)
    ensures r.None? <==> bytes[1] != 0x00 && bytes[1] != 0x80
    ensures r.Some? ==> r.value.success == (bytes[2] == 0x06)
    ensures r.Some? ==> Some(r.value.house) == HouseCodeTryFrom(bytes[0] >> 4)
    ensures r.Some? && bytes[1] == 0x00 ==> r.value.payload.Unit? && Some(r.value.payload.unit) == UnitCodeTryFrom(bytes[0] & 0x0F)
    ensures r.Some? && bytes[1] == 0x80 ==> r.value.payload.Cmd? && Some(r.value.payload.command) == CommandTryFrom(bytes[0] & 0x0F)
  {
    var byte := bytes[0];
    var high := byte >> 4;
    var low := byte & 0x0F;
    var flag := bytes[1];
    var success := bytes[2] == 0x06;
    match HouseCodeTryFrom(high)
    case None => None
    case Some(house) =>
      match flag
      case 0x00 =>
        (match UnitCodeTryFrom(low)
         case None => None
         case Some(unit) => Some(Message(house, Unit(unit), success)))
      case 0x80 =>
        (match CommandTryFrom(low)
         case None => None
         case Some(cmd) => Some(Message(house, Cmd(cmd), success)))
      case _ => None
  }

  /** The position of a letter in the alphabet, 1 for A. */
  function Letter(h: HouseCode): int {
    HouseChar(h) as int - 'A' as int + 1
  }

  /** Distinct nibbles give distinct house codes. */
  lemma HouseCodeInjective(x: Byte, y: Byte)
    requires x < 16 && y < 16 && HouseCodeTryFrom(x) == HouseCodeTryFrom(y)
    ensures x == y
  {
  }

  /** Every house code has a nibble, so the table is a permutation of the 16 nibbles onto A to P. */
  lemma HouseCodeCovers(h: HouseCode)
    ensures exists x: Byte :: x < 16 && HouseCodeTryFrom(x) == Some(h)
  {
    var x: Byte := match h
      case A => 0x6 case B => 0xE case C => 0x2 case D => 0xA
      case E => 0x1 case F => 0x9 case G => 0x5 case H => 0xD
      case I => 0x7 case J => 0xF case K => 0x3 case L => 0xB
      case M => 0x0 case N => 0x8 case O => 0x4 case P => 0xC;
    assert x < 16 && HouseCodeTryFrom(x) == Some(h);
  }

  /** Letters render distinct house codes distinctly. */
  lemma HouseCharInjective(g: HouseCode, h: HouseCode)
    requires HouseChar(g) == HouseChar(h)
    ensures g == h
  {
  }

  /** Distinct nibbles give distinct unit codes. */
  lemma UnitCodeInjective(x: Byte, y: Byte)
    requires x < 16 && y < 16 && UnitCodeTryFrom(x) == UnitCodeTryFrom(y)
    ensures x == y
  {
  }

  /** The unit table follows the house table: the nibble of house letter k is the nibble of unit k. */
  lemma SameNibbleOrder(x: Byte)
    requires x < 16
    ensures UnitCodeTryFrom(x).value.n as int == Letter(HouseCodeTryFrom(x).value)
  {
  }

  /** The command table is injective except that 0xA and 0xB both give PresetDim. */
  lemma CommandTableCollision()
    ensures CommandTryFrom(0xA) == CommandTryFrom(0xB) == Some(PresetDim)
    ensures forall x: Byte, y: Byte :: x < y < 16 && CommandTryFrom(x) == CommandTryFrom(y) ==> x == 0xA && y == 0xB
  {
  }

  /** Every one of the 15 X10 commands has a nibble. */
  lemma CommandTableCovers(c: Command)
    ensures exists x: Byte :: x < 16 && CommandTryFrom(x) == Some(c)
  {
    var x: Byte := match c
      case AllLightsOff => 0x6 case StatusOff => 0xE case On => 0x2 case PresetDim => 0xA
      case AllLightsOn => 0x1 case HailAcknowledge => 0x9 case Bright => 0x5 case StatusOn => 0xD
      case ExtendedCode => 0x7 case StatusRequest => 0xF case Off => 0x3 case AllUnitsOff => 0x0
      case HailRequest => 0x8 case Dim => 0x4 case ExtendedAnalogData => 0xC;
    assert x < 16 && CommandTryFrom(x) == Some(c);
  }

  /** A unit-code triple with status 0x06 decodes to a successful unit message. */
  lemma UnitTriple(house: Byte, unit: Byte)
    requires house < 16 && unit < 16
    ensures var r := MessageTryFrom([(house << 4) | unit, 0x00, 0x06]);
      r.Some? && r.value.success && r.value.payload == Unit(UnitCodeTryFrom(unit).value)
      && r.value.house == HouseCodeTryFrom(house).value
  {
  }
}
