/** Device addresses (src/device.rs). */
module Device {
  import opened Prelude

  /** A device address; the bytes are always ordered high, middle, low. */
  datatype Address = Address(bytes: Bytes3) {

    /**
     * The left-padded combination of the three bytes, high byte first. The source
     * shifts 32-bit values; the result stays below 2^24, so the shifts are exact
     * multiplications and nothing wraps.
     */
    function Reduce(): (r: nat)
      ensures r < 0x100_0000
    {
      var (high, middle, low) := (bytes[0] as nat, bytes[1] as nat, bytes[2] as nat);
      high * 0x1_0000 + middle * 0x100 + low
    }

    /** `address[index]`; any index from 3 on is out of bounds (a panic in the source). */
    function Index(index: nat): (r: Byte)
      requires index < 3
      ensures r == bytes[index]
    {
      bytes[index]
    }
  }

  /** `Address::from([u8; 3])`: the bytes are stored, not transformed. */
  function FromBytes(b: Bytes3): (r: Address)
    ensures forall i :: 0 <= i < 3 ==> r.Index(i) == b[i]
  {
    Address(b)
  }

  /** Distinct addresses reduce to distinct numbers. */
  lemma ReduceInjective(a: Address, b: Address)
    requires a.Reduce() == b.Reduce()
    ensures a == b
  {
    PlaceValuesUnique(a.bytes[0] as int, a.bytes[1] as int, a.bytes[2] as int,
                      b.bytes[0] as int, b.bytes[1] as int, b.bytes[2] as int);
    SameValueSameByte(a.bytes[0], b.bytes[0]);
    SameValueSameByte(a.bytes[1], b.bytes[1]);
    SameValueSameByte(a.bytes[2], b.bytes[2]);
    assert a.bytes == [a.bytes[0], a.bytes[1], a.bytes[2]];
    assert b.bytes == [b.bytes[0], b.bytes[1], b.bytes[2]];
  }

  /** A byte is determined by its numeric value. */
  lemma SameValueSameByte(x: Byte, y: Byte)
    requires x as int == y as int
    ensures x == y
  {
  }

  /** Base-256 digits are determined by the number they spell. */
  lemma PlaceValuesUnique(x0: int, x1: int, x2: int, y0: int, y1: int, y2: int)
    requires 0 <= x0 < 256 && 0 <= x1 < 256 && 0 <= x2 < 256
    requires 0 <= y0 < 256 && 0 <= y1 < 256 && 0 <= y2 < 256
    requires x0 * 0x1_0000 + x1 * 0x100 + x2 == y0 * 0x1_0000 + y1 * 0x100 + y2
    ensures x0 == y0 && x1 == y1 && x2 == y2
  {
  }
}
