/** Machine integers, byte strings and the two result types every component uses. */
module Basics {

  type byte = b: int | 0 <= b < 0x100
  type uint16 = w: int | 0 <= w < 0x1_0000
  type uint32 = v: int | 0 <= v < 0x1_0000_0000

  /** A Go string or byte slice. */
  type Bytes = seq<byte>

  datatype Option<+T> = None | Some(value: T)

  datatype Result<+T, +E> = Ok(value: T) | Err(error: E)

  function Min(a: int, b: int): int {
    if a < b then a else b
  }

  /** `binary.BigEndian.PutUint16`. */
  function PutUint16(v: uint16): (r: Bytes)
    ensures |r| == 2
  {
    [v / 0x100, v % 0x100]
  }

  /** `binary.BigEndian.Uint16`. */
  function GetUint16(hi: byte, lo: byte): uint16 {
    hi * 0x100 + lo
  }

  lemma GetPut(v: uint16)
    ensures GetUint16(PutUint16(v)[0], PutUint16(v)[1]) == v
  {
  }

  lemma PutGet(hi: byte, lo: byte)
    ensures PutUint16(GetUint16(hi, lo)) == [hi, lo]
    ensures hi != 0 ==> GetUint16(hi, lo) >= 0x100
  {
  }
}
