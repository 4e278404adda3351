/** Bytes as bit-vectors, and the bits of a byte string counted from the low end of each byte. */
module Bits {

  type byte = bv8

  datatype Option<+T> = None | Some(value: T)

  function ByteOf(n: nat): (b: byte)
    requires n < 256
    ensures b as nat == n
  {
    if n == 0 then 0 else ByteOf(n - 1) + 1
  }

  /** The single-bit constant `1 << i`. */
  function Mask(i: nat): byte
    requires i < 8
  {
    if i == 0 then 0x01 else if i == 1 then 0x02 else if i == 2 then 0x04 else if i == 3 then 0x08
    else if i == 4 then 0x10 else if i == 5 then 0x20 else if i == 6 then 0x40 else 0x80
  }

  predicate Bit(b: byte, i: nat)
    requires i < 8
  {
    b & Mask(i) != 0
  }

  /** Bit `i` of a byte string, least significant bit of each byte first. */
  predicate BitAt(s: seq<byte>, i: nat)
    requires i / 8 < |s|
  {
    Bit(s[i / 8], i % 8)
  }

  lemma BitAtConcat(a: seq<byte>, b: seq<byte>, i: nat)
    requires i / 8 < |a| + |b|
    ensures i < 8 * |a| ==> BitAt(a + b, i) == BitAt(a, i)
    ensures i >= 8 * |a| ==> (i - 8 * |a|) / 8 < |b| && BitAt(a + b, i) == BitAt(b, i - 8 * |a|)
  {
    if i >= 8 * |a| {
      assert (i - 8 * |a|) / 8 == i / 8 - |a| && (i - 8 * |a|) % 8 == i % 8;
    }
  }

  /** The number of bytes that hold `n` bits. */
  function BytesFor(n: nat): (r: nat)
    ensures 8 * r - 8 < n <= 8 * r
  {
    (n + 7) / 8
  }

  /** The first `n` bits of a byte string. */
  function BitsOf(s: seq<byte>, n: nat): (r: seq<bool>)
    requires n <= 8 * |s|
    ensures |r| == n && forall i :: 0 <= i < n ==> r[i] == BitAt(s, i)
  {
    seq(n, i requires 0 <= i < n => BitAt(s, i))
  }

  function PackByte(bits: seq<bool>): byte
    requires |bits| <= 8
  {
    Flag(bits, 0) | Flag(bits, 1) | Flag(bits, 2) | Flag(bits, 3) | Flag(bits, 4) | Flag(bits, 5)
      | Flag(bits, 6) | Flag(bits, 7)
  }

  function Flag(bits: seq<bool>, i: nat): byte
    requires i < 8
  {
    if i < |bits| && bits[i] then Mask(i) else 0
  }

  lemma PackedBit(bits: seq<bool>, i: nat)
    requires |bits| <= 8 && i < 8
    ensures Bit(PackByte(bits), i) == (i < |bits| && bits[i])
  {
  }

  /** Bits packed into bytes, low end first, the last byte filled up with zeros. */
  function Pack(bits: seq<bool>): (r: seq<byte>)
    ensures |r| == BytesFor(|bits|)
  {
    seq(BytesFor(|bits|), j requires 0 <= j < BytesFor(|bits|) =>
      PackByte(bits[8 * j..if 8 * j + 8 <= |bits| then 8 * j + 8 else |bits|]))
  }

  lemma PackedBitAt(bits: seq<bool>, i: nat)
    requires i < 8 * |Pack(bits)|
    ensures BitAt(Pack(bits), i) == (i < |bits| && bits[i])
  {
    var j := i / 8;
    PackedBit(bits[8 * j..if 8 * j + 8 <= |bits| then 8 * j + 8 else |bits|], i % 8);
  }

  /** The only byte string of that length with those bits is the packed one. */
  lemma PackUnique(s: seq<byte>, bits: seq<bool>)
    requires |s| == BytesFor(|bits|)
    requires forall i :: 0 <= i < 8 * |s| ==> BitAt(s, i) == (i < |bits| && bits[i])
    ensures s == Pack(bits)
  {
    hide Bit, Pack;
    forall j | 0 <= j < |s| ensures s[j] == Pack(bits)[j] {
      forall k: nat | k < 8 ensures Bit(s[j], k) == Bit(Pack(bits)[j], k) {
        assert (8 * j + k) / 8 == j && (8 * j + k) % 8 == k;
        assert BitAt(s, 8 * j + k) == Bit(s[j], k);
        PackedBitAt(bits, 8 * j + k);
      }
      BytesAgree(s[j], Pack(bits)[j]);
    }
  }

  lemma PackConcat(x: seq<bool>, y: seq<bool>)
    requires |x| % 8 == 0
    ensures Pack(x + y) == Pack(x) + Pack(y)
  {
    hide Bit, Pack;
    var s := Pack(x) + Pack(y);
    forall i | 0 <= i < 8 * |s| ensures BitAt(s, i) == (i < |x + y| && (x + y)[i]) {
      BitAtConcat(Pack(x), Pack(y), i);
      if i < |x| { PackedBitAt(x, i); } else { PackedBitAt(y, i - |x|); }
    }
    PackUnique(s, x + y);
  }

  function Repeat<T>(x: T, n: nat): (r: seq<T>)
    ensures |r| == n && forall i :: 0 <= i < n ==> r[i] == x
  {
    seq(n, _ => x)
  }

  /** A byte with its bits in the opposite order (the table of bitrev.cpp). */
  function BitReversed(b: byte): (r: byte)
    ensures forall i: nat :: i < 8 ==> Bit(r, i) == Bit(b, 7 - i)
  {
    ((b & 0x01) << 7) | ((b & 0x02) << 5) | ((b & 0x04) << 3) | ((b & 0x08) << 1) |
    ((b & 0x10) >> 1) | ((b & 0x20) >> 3) | ((b & 0x40) >> 5) | ((b & 0x80) >> 7)
  }

  function AllReversed(s: seq<byte>): (r: seq<byte>)
    ensures |r| == |s| && forall i :: 0 <= i < |s| ==> r[i] == BitReversed(s[i])
  {
    seq(|s|, i requires 0 <= i < |s| => BitReversed(s[i]))
  }

  lemma BytesAgree(a: byte, b: byte)
    requires forall i: nat :: i < 8 ==> Bit(a, i) == Bit(b, i)
    ensures a == b
  {
    assert Bit(a, 0) == Bit(b, 0) && Bit(a, 1) == Bit(b, 1) && Bit(a, 2) == Bit(b, 2) && Bit(a, 3) == Bit(b, 3);
    assert Bit(a, 4) == Bit(b, 4) && Bit(a, 5) == Bit(b, 5) && Bit(a, 6) == Bit(b, 6) && Bit(a, 7) == Bit(b, 7);
  }

  lemma ReversedTwice(b: byte)
    ensures BitReversed(BitReversed(b)) == b
  {
    BytesAgree(BitReversed(BitReversed(b)), b);
  }

  lemma AllReversedTwice(s: seq<byte>)
    ensures AllReversed(AllReversed(s)) == s
  {
    forall i | 0 <= i < |s| ensures BitReversed(BitReversed(s[i])) == s[i] {
      ReversedTwice(s[i]);
    }
  }

  /** `after` is `before` with `bytes` written at position `at`. */
  ghost predicate Overwritten(before: seq<byte>, after: seq<byte>, at: nat, bytes: seq<byte>) {
    && |after| == |before| && at + |bytes| <= |after|
    && after[at..at + |bytes|] == bytes
    && after[..at] == before[..at]
    && after[at + |bytes|..] == before[at + |bytes|..]
  }

  // ----- numbers

  /** The number with these binary digits, the lowest first. */
  function Number(bits: seq<bool>): nat {
    if bits == [] then 0 else (if bits[0] then 1 else 0) + 2 * Number(bits[1..])
  }

  lemma ByteNumber(bits: seq<bool>)
    requires |bits| == 8
    ensures PackByte(bits) as nat == Number(bits)
  {
    PackedBits(bits);
    hide PackByte;
    ByteDigits(PackByte(bits));
    EightDigits(bits);
    assert bits[8..] == [] && Number([]) == 0;
  }

  lemma PackedBits(bits: seq<bool>)
    requires |bits| == 8
    ensures
      var b := PackByte(bits);
      && (b & 0x01 != 0 <==> bits[0]) && (b & 0x02 != 0 <==> bits[1]) && (b & 0x04 != 0 <==> bits[2])
      && (b & 0x08 != 0 <==> bits[3]) && (b & 0x10 != 0 <==> bits[4]) && (b & 0x20 != 0 <==> bits[5])
      && (b & 0x40 != 0 <==> bits[6]) && (b & 0x80 != 0 <==> bits[7])
  {
  }

  lemma ByteDigits(b: byte)
    ensures b as nat == (if b & 0x01 != 0 then 1 else 0) + (if b & 0x02 != 0 then 2 else 0)
      + (if b & 0x04 != 0 then 4 else 0) + (if b & 0x08 != 0 then 8 else 0) + (if b & 0x10 != 0 then 16 else 0)
      + (if b & 0x20 != 0 then 32 else 0) + (if b & 0x40 != 0 then 64 else 0) + (if b & 0x80 != 0 then 128 else 0)
  {
  }

  function Digit(on: bool): nat { if on then 1 else 0 }

  lemma EightDigits(s: seq<bool>)
    requires |s| >= 8
    ensures Number(s) == Digit(s[0]) + 2 * Digit(s[1]) + 4 * Digit(s[2]) + 8 * Digit(s[3]) + 16 * Digit(s[4])
      + 32 * Digit(s[5]) + 64 * Digit(s[6]) + 128 * Digit(s[7]) + 256 * Number(s[8..])
  {
    FourDigits(s);
    FourDigits(s[4..]);
    hide *;
    assert s[4..][4..] == s[8..];
  }

  lemma FourDigits(s: seq<bool>)
    requires |s| >= 4
    ensures Number(s) ==
      Digit(s[0]) + 2 * Digit(s[1]) + 4 * Digit(s[2]) + 8 * Digit(s[3]) + 16 * Number(s[4..])
  {
    NumberStep(s, 0);
    NumberStep(s, 1);
    NumberStep(s, 2);
    NumberStep(s, 3);
    hide *;
    assert s[0..] == s;
  }

  lemma NumberStep(s: seq<bool>, i: nat)
    requires i < |s|
    ensures Number(s[i..]) == Digit(s[i]) + 2 * Number(s[i + 1..])
  {
    assert s[i..][1..] == s[i + 1..];
  }

  lemma NumberSplit(s: seq<bool>)
    requires |s| >= 8
    ensures Number(s) == Number(s[..8]) + 256 * Number(s[8..])
  {
    EightDigits(s);
    EightDigits(s[..8]);
    assert s[..8][8..] == [] && Number([]) == 0;
  }
}
