/** Fixed-width words and their byte orders. */
module Bytes {

  type byte = x: int | 0 <= x < 0x100
  type u16 = x: int | 0 <= x < 0x1_0000
  type u32 = x: int | 0 <= x < 0x1_0000_0000

  function Byte(n: int): byte {
    n % 0x100
  }

  function Be16(a: int, b: int): int {
    a * 0x100 + b
  }

  function Be32(a: int, b: int, c: int, d: int): int {
    ((a * 0x100 + b) * 0x100 + c) * 0x100 + d
  }

  /** The big-endian word at `at`. */
  function ReadBe16(s: seq<byte>, at: nat): u16
    requires at + 2 <= |s|
  {
    Be16(s[at], s[at + 1])
  }

  function ReadBe32(s: seq<byte>, at: nat): u32
    requires at + 4 <= |s|
  {
    Be32(s[at], s[at + 1], s[at + 2], s[at + 3])
  }

  function Le16(n: u16): seq<byte> {
    [Byte(n), Byte(n / 0x100)]
  }

  function Le32(n: u32): seq<byte> {
    [Byte(n), Byte(n / 0x100), Byte(n / 0x1_0000), Byte(n / 0x100_0000)]
  }

  function ReadLe16(s: seq<byte>, at: nat): u16
    requires at + 2 <= |s|
  {
    Be16(s[at + 1], s[at])
  }

  function ReadLe32(s: seq<byte>, at: nat): u32
    requires at + 4 <= |s|
  {
    Be32(s[at + 3], s[at + 2], s[at + 1], s[at])
  }

  lemma Split32(n: u32)
    ensures n == Be32(Byte(n / 0x100_0000), Byte(n / 0x1_0000), Byte(n / 0x100), Byte(n))
  {
    assert n / 0x1_0000 == n / 0x100 / 0x100;
    assert n / 0x100_0000 == n / 0x1_0000 / 0x100;
  }
}
