/** The integer widths of the target: bytes and 32-bit unsigned words. */
module Machine {

  const U8_COUNT: int := 0x100
  const U32_COUNT: int := 0x1_0000_0000

  type byte = x: int | 0 <= x < 0x100
  type u32 = x: int | 0 <= x < 0x1_0000_0000

  /** Unsigned 32-bit subtraction: a negative difference wraps round. */
  function Sub32(a: u32, b: u32): u32 {
    if a >= b then a - b else a - b + U32_COUNT
  }

  /** Unsigned 32-bit addition. */
  function Add32(a: u32, b: u32): u32 {
    if a + b < U32_COUNT then a + b else a + b - U32_COUNT
  }

  /** The cast from unsigned to signed 32 bits. */
  function Int32(a: u32): int {
    if a < 0x8000_0000 then a else a - U32_COUNT
  }

  function Min(a: int, b: int): int {
    if a < b then a else b
  }

  function Max(a: int, b: int): int {
    if a > b then a else b
  }

  /** Byte k of a word, counted from the low end: (x >> 8k) & 0xFF. */
  function ByteOf(x: u32, k: nat): byte
    requires k < 4
  {
    if k == 0 then x % 0x100 else if k == 1 then x / 0x100 % 0x100
    else if k == 2 then x / 0x1_0000 % 0x100 else x / 0x100_0000
  }

  /** A 32-bit field as stored by the little-endian processor. */
  function Le32(x: u32): (s: seq<byte>)
    ensures |s| == 4
  {
    [ByteOf(x, 0), ByteOf(x, 1), ByteOf(x, 2), ByteOf(x, 3)]
  }

  function FromLe32(s: seq<byte>): u32
    requires |s| == 4
  {
    (s[0] as int) + 0x100 * (s[1] as int) + 0x1_0000 * (s[2] as int) + 0x100_0000 * (s[3] as int)
  }

  lemma BytesMakeWord(x: u32)
    ensures x == ByteOf(x, 0) + 0x100 * ByteOf(x, 1) + 0x1_0000 * ByteOf(x, 2) + 0x100_0000 * ByteOf(x, 3)
    ensures FromLe32(Le32(x)) == x
  {
    assert x == x % 0x100 + 0x100 * (x / 0x100);
    assert x / 0x100 == x / 0x100 % 0x100 + 0x100 * (x / 0x100 / 0x100);
    assert x / 0x100 / 0x100 == x / 0x1_0000;
    assert x / 0x1_0000 == x / 0x1_0000 % 0x100 + 0x100 * (x / 0x1_0000 / 0x100);
    assert x / 0x1_0000 / 0x100 == x / 0x100_0000;
  }
}
