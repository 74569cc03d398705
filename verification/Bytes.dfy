/** Machine integers and byte order.
    `uint32` values are plain integers; a wrap-around or a truncating cast to 32 bits in
    the source is written out with `Wrap32` where it happens. */
module Bytes {
  type uint8 = x: int | 0 <= x < 0x100
  type uint32 = x: int | 0 <= x < 0x1_0000_0000

  const WORD32: nat := 0x1_0000_0000

  function Min(a: int, b: int): int {
    if a <= b then a else b
  }

  function Wrap32(n: nat): uint32 {
    n % WORD32
  }

  lemma Wrap32Add(a: nat, b: nat)
    ensures Wrap32(Wrap32(a) + b) == Wrap32(a + b)
  {
    var q := a / WORD32;
    assert a + b == q * WORD32 + (a % WORD32 + b);
  }

  /** Network byte order, as `htonl` and the writer's byte swap produce it. */
  function Be32(n: uint32): (s: seq<uint8>)
    ensures |s| == 4
  {
    [n / 0x100_0000, n / 0x1_0000 % 0x100, n / 0x100 % 0x100, n % 0x100]
  }

  /** The most significant byte comes first. */
  lemma Be32Order(n: uint32)
    ensures var s := Be32(n);
            16777216 * (s[0] as int) + 65536 * (s[1] as int) + 256 * (s[2] as int) + s[3] == n
  {
    var m: int := n;
    var x, y := m / 0x100, m / 0x1_0000;
    assert m == 0x100 * x + m % 0x100;
    assert x == 0x100 * y + x % 0x100;
    assert y == 0x100 * (m / 0x100_0000) + y % 0x100;
  }

  function FromBe32(s: seq<uint8>): uint32
    requires |s| == 4
  {
    var a: int, b: int, c: int := s[0], s[1], s[2];
    a * 0x100_0000 + b * 0x1_0000 + c * 0x100 + s[3]
  }

  lemma FromBe32OfBe32(n: uint32)
    ensures FromBe32(Be32(n)) == n
  {
    var m: int := n;
    var x, y := m / 0x100, m / 0x1_0000;
    assert m == 0x100 * x + m % 0x100;
    assert x == 0x100 * y + x % 0x100;
    assert y == 0x100 * (m / 0x100_0000) + y % 0x100;
  }

  lemma Be32OfFromBe32(s: seq<uint8>)
    requires |s| == 4
    ensures Be32(FromBe32(s)) == s
  {
    var a: int, b: int, c: int, d: int := s[0], s[1], s[2], s[3];
    var n: int := FromBe32(s);
    assert n == 0x100 * (a * 0x1_0000 + b * 0x100 + c) + d;
    assert n / 0x100 == a * 0x1_0000 + b * 0x100 + c;
    assert n / 0x1_0000 == a * 0x100 + b;
    assert n / 0x100_0000 == a;
  }
}
