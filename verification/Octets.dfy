/** Conversions between int and unsigned char, bit by bit. */
module Octets {
  import opened Bits

  /** A mask or nothing. */
  function Only(mask: byte, on: bool): byte { if on then mask else 0 }

  /** The conversion of an int to unsigned char, bit by bit. */
  function Byte(n: int): byte {
    Only(0x01, n % 2 == 1) | Only(0x02, n / 2 % 2 == 1) | Only(0x04, n / 4 % 2 == 1) | Only(0x08, n / 8 % 2 == 1) |
    Only(0x10, n / 16 % 2 == 1) | Only(0x20, n / 32 % 2 == 1) | Only(0x40, n / 64 % 2 == 1)
      | Only(0x80, n / 128 % 2 == 1)
  }

  /** The value of an unsigned char. */
  function Nat(b: byte): nat {
    Weight(b, 0x01, 1) + Weight(b, 0x02, 2) + Weight(b, 0x04, 4) + Weight(b, 0x08, 8) +
    Weight(b, 0x10, 16) + Weight(b, 0x20, 32) + Weight(b, 0x40, 64) + Weight(b, 0x80, 128)
  }

  function Weight(b: byte, mask: byte, w: nat): nat { if b & mask != 0 then w else 0 }

  /** The number that a byte is. */
  function Num(b: byte): nat { b as nat }

  lemma NumIs(b: byte)
    ensures Nat(b) == Num(b) < 256
  {
  }

  lemma ByteValue(n: int)
    ensures Nat(Byte(n)) == n % 256
  {
    BitsOfByte(n);
    BinaryDigits(n);
    hide *;
    NatOfBits(Byte(n), n % 2, n / 2 % 2, n / 4 % 2, n / 8 % 2, n / 16 % 2, n / 32 % 2, n / 64 % 2, n / 128 % 2);
  }

  lemma NatOfBits(b: byte, d0: int, d1: int, d2: int, d3: int, d4: int, d5: int, d6: int, d7: int)
    requires 0 <= d0 < 2 && 0 <= d1 < 2 && 0 <= d2 < 2 && 0 <= d3 < 2 && 0 <= d4 < 2 && 0 <= d5 < 2 && 0 <= d6 < 2
    requires 0 <= d7 < 2
    requires (b & 0x01 != 0 <==> d0 == 1) && (b & 0x02 != 0 <==> d1 == 1) && (b & 0x04 != 0 <==> d2 == 1)
    requires (b & 0x08 != 0 <==> d3 == 1) && (b & 0x10 != 0 <==> d4 == 1) && (b & 0x20 != 0 <==> d5 == 1)
    requires (b & 0x40 != 0 <==> d6 == 1) && (b & 0x80 != 0 <==> d7 == 1)
    ensures Nat(b) == d0 + 2 * d1 + 4 * d2 + 8 * d3 + 16 * d4 + 32 * d5 + 64 * d6 + 128 * d7
  {
  }

  lemma BitsOfByte(n: int)
    ensures Byte(n) & 0x01 != 0 <==> n % 2 == 1
    ensures Byte(n) & 0x02 != 0 <==> n / 2 % 2 == 1
    ensures Byte(n) & 0x04 != 0 <==> n / 4 % 2 == 1
    ensures Byte(n) & 0x08 != 0 <==> n / 8 % 2 == 1
    ensures Byte(n) & 0x10 != 0 <==> n / 16 % 2 == 1
    ensures Byte(n) & 0x20 != 0 <==> n / 32 % 2 == 1
    ensures Byte(n) & 0x40 != 0 <==> n / 64 % 2 == 1
    ensures Byte(n) & 0x80 != 0 <==> n / 128 % 2 == 1
  {
  }

  lemma BinaryDigits(n: int)
    ensures n % 256 == n % 2 + 2 * (n / 2 % 2) + 4 * (n / 4 % 2) + 8 * (n / 8 % 2) + 16 * (n / 16 % 2)
      + 32 * (n / 32 % 2)
      + 64 * (n / 64 % 2) + 128 * (n / 128 % 2)
  {
    assert n / 2 / 2 == n / 4 && n / 4 / 2 == n / 8;
    assert n / 8 / 2 == n / 16 && n / 16 / 2 == n / 32;
    assert n / 32 / 2 == n / 64 && n / 64 / 2 == n / 128 && n / 128 / 2 == n / 256;
    Halved(n);
    Halved(n / 2);
    Halved(n / 4);
    Halved(n / 8);
    Halved(n / 16);
    Halved(n / 32);
    Halved(n / 64);
    Halved(n / 128);
    assert n == 256 * (n / 256) + n % 256;
  }

  lemma NatInjective(a: byte, b: byte)
    requires Nat(a) == Nat(b)
    ensures a == b
  {
    EqualBits(a, b);
  }

  /** The weights are those of a binary number, so equal values have equal bits. */
  lemma EqualBits(a: byte, b: byte)
    requires Nat(a) == Nat(b)
    ensures a & 0x01 == b & 0x01 && a & 0x02 == b & 0x02 && a & 0x04 == b & 0x04 && a & 0x08 == b & 0x08
    ensures a & 0x10 == b & 0x10 && a & 0x20 == b & 0x20 && a & 0x40 == b & 0x40 && a & 0x80 == b & 0x80
  {
  }

  lemma Halved(n: int)
    ensures n == 2 * (n / 2) + n % 2
  {
  }
}
