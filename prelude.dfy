/** Shared vocabulary: wire bytes, fixed-size byte arrays and the optional value. */
module Prelude {

  /** One byte on the serial line (Rust `u8`). */
  type Byte = bv8

  /** Rust `[u8; 2]`, `[u8; 3]`, `[u8; 8]` and `[u8; 14]`. */
  type Bytes2 = s: seq<Byte> | |s| == 2 witness [0, 0]
  type Bytes3 = s: seq<Byte> | |s| == 3 witness [0, 0, 0]
  type Bytes8 = s: seq<Byte> | |s| == 8 witness [0, 0, 0, 0, 0, 0, 0, 0]
  type Bytes14 = s: seq<Byte> | |s| == 14 witness [0, 0, 0, 0, 0, 0, 0, 0, 0, 0, 0, 0, 0, 0]

  datatype Option<+T> = None | Some(value: T)
}
