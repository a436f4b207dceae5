/** Little-endian byte layouts of fixed-width integers. */
module Bytes {
  import opened Bits

  type Half = x: int | 0 <= x < 0x1_0000
  type Long = x: int | 0 <= x < 0x1_0000_0000_0000_0000

  /** The `n` lowest bytes of `x`, the lowest first. */
  function LittleEndian(x: nat, n: nat): (bs: seq<Byte>)
    ensures |bs| == n
  {
    if n == 0 then [] else [x % 0x100] + LittleEndian(x / 0x100, n - 1)
  }

  function Le16(x: Half): (bs: seq<Byte>)
    ensures |bs| == 2
  {
    LittleEndian(x, 2)
  }

  function Le32(x: Word): (bs: seq<Byte>)
    ensures |bs| == 4
  {
    LittleEndian(x, 4)
  }

  function Le64(x: Long): (bs: seq<Byte>)
    ensures |bs| == 8
  {
    LittleEndian(x, 8)
  }

  function FromLe16(a: Byte, b: Byte): (x: Half) {
    a + 0x100 * b
  }

  function FromLe32(a: Byte, b: Byte, c: Byte, d: Byte): (x: Word) {
    a + 0x100 * (b + 0x100 * (c + 0x100 * d))
  }

  lemma Le16RoundTrip(x: Half)
    ensures FromLe16(Le16(x)[0], Le16(x)[1]) == x
  {
    assert LittleEndian(x, 2)[1..] == LittleEndian(x / 0x100, 1);
  }

  lemma Le32RoundTrip(x: Word)
    ensures var s := Le32(x); FromLe32(s[0], s[1], s[2], s[3]) == x
  {
    var y := x / 0x100;
    var z := y / 0x100;
    var s := LittleEndian(x, 4);
    assert s[0] == x % 0x100 && s[1..] == LittleEndian(y, 3);
    assert s[1] == y % 0x100 && s[2..] == LittleEndian(z, 2);
    assert s[2] == z % 0x100 && s[3..] == LittleEndian(z / 0x100, 1);
    assert s[3] == z / 0x100;
  }

  /** A byte put below a number is the first byte of its layout. */
  lemma LowByte(a: Byte, y: nat, n: nat)
    ensures LittleEndian(a + 0x100 * y, n + 1) == [a] + LittleEndian(y, n)
  {
    LowDigit(a, y);
  }

  lemma FromLe16RoundTrip(a: Byte, b: Byte)
    ensures Le16(FromLe16(a, b)) == [a, b]
  {
    LowByte(a, b, 1);
    LowByte(b, 0, 0);
  }

  lemma FromLe32RoundTrip(a: Byte, b: Byte, c: Byte, d: Byte)
    ensures Le32(FromLe32(a, b, c, d)) == [a, b, c, d]
  {
    LowByte(a, b + 0x100 * (c + 0x100 * d), 3);
    LowByte(b, c + 0x100 * d, 2);
    LowByte(c, d, 1);
    LowByte(d, 0, 0);
  }

  lemma LowDigit(a: Byte, y: nat)
    ensures (a + 0x100 * y) % 0x100 == a && (a + 0x100 * y) / 0x100 == y
  {
  }

  function WordAt(bs: seq<Byte>, at: nat): (x: Word)
    requires at + 4 <= |bs|
  {
    FromLe32(bs[at], bs[at + 1], bs[at + 2], bs[at + 3])
  }

  lemma WordChanges(bs: seq<Byte>, at: nat, p: nat, b: Byte)
    requires at + 4 <= |bs| && at <= p < at + 4 && bs[p] != b
    ensures WordAt(bs[p := b], at) != WordAt(bs, at)
  {
    var cs := bs[p := b];
    FromLe32RoundTrip(bs[at], bs[at + 1], bs[at + 2], bs[at + 3]);
    FromLe32RoundTrip(cs[at], cs[at + 1], cs[at + 2], cs[at + 3]);
    assert [bs[at], bs[at + 1], bs[at + 2], bs[at + 3]][p - at] == bs[p];
    assert [cs[at], cs[at + 1], cs[at + 2], cs[at + 3]][p - at] == b;
  }
}
