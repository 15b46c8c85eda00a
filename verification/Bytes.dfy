/** Big-endian numbers in byte strings. */
module Bytes {

  type byte = x: int | 0 <= x < 256
  type u16 = x: int | 0 <= x < 0x1_0000
  type u32 = x: int | 0 <= x < 0x1_0000_0000

  function Be16(a: byte, b: byte): u16 {
    a * 0x100 + b
  }

  function Be32(a: byte, b: byte, c: byte, d: byte): u32 {
    a * 0x100_0000 + b * 0x1_0000 + c * 0x100 + d
  }

  function Enc16(x: u16): (s: seq<byte>)
    ensures |s| == 2 && Be16(s[0], s[1]) == x
  {
    [x / 0x100, x % 0x100]
  }

  function Enc32(x: u32): (s: seq<byte>)
    ensures |s| == 4 && Be32(s[0], s[1], s[2], s[3]) == x
  {
    var hi, lo := x / 0x1_0000, x % 0x1_0000;
    [hi / 0x100, hi % 0x100, lo / 0x100, lo % 0x100]
  }
}
