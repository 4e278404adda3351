/** The Xilinx .bit format as bitfile.cpp writes and reads it. */
module BitFormat {
  import opened Bits
  import opened Octets

  /** The four text fields of the header. */
  datatype Header = Header(ncd: seq<byte>, part: seq<byte>, date: seq<byte>, dtime: seq<byte>)

  const PREAMBLE: seq<byte> := [0x00, 0x09, 0x0f, 0xf0, 0x0f, 0xf0, 0x0f, 0xf0, 0x0f, 0xf0, 0x00, 0x00, 0x01]

  // The keys are the letters a to e.

  function FieldBytes(key: byte, s: seq<byte>): seq<byte> { [key, Byte(|s| / 256), Byte(|s|)] + s }

  function LengthBytes(n: nat): (r: seq<byte>)
    ensures |r| == 4
  {
    [Byte(n / 0x100_0000), Byte(n / 0x1_0000), Byte(n / 0x100), Byte(n)]
  }

  function DataField(data: seq<byte>): seq<byte> { [0x65] + LengthBytes(|data|) + AllReversed(data) }

  function HeaderBytes(h: Header): seq<byte> {
    FieldBytes(0x61, h.ncd) + (FieldBytes(0x62, h.part) + (FieldBytes(0x63, h.date) + FieldBytes(0x64, h.dtime)))
  }

  function FileBytes(h: Header, data: seq<byte>): seq<byte> { PREAMBLE + (HeaderBytes(h) + DataField(data)) }

  // Reading

  datatype Parsed = Complete(h: Header, data: seq<byte>, extra: bool) | Truncated

  function Length16(hi: byte, lo: byte): nat { 256 * Nat(hi) + Nat(lo) }

  function Length32(s: seq<byte>): nat
    requires |s| >= 4
  {
    0x100_0000 * Nat(s[0]) + 0x1_0000 * Nat(s[1]) + 0x100 * Nat(s[2]) + Nat(s[3])
  }

  /** A field is added to what the object already holds; unknown keys are ignored. */
  function AddField(h: Header, key: byte, s: seq<byte>): Header {
    if key == 0x61 then h.(ncd := h.ncd + s) else if key == 0x62 then h.(part := h.part + s)
    else if key == 0x63 then h.(date := h.date + s) else if key == 0x64 then h.(dtime := h.dtime + s) else h
  }

  function ParseFields(s: seq<byte>, h: Header): Parsed
    decreases |s|
  {
    if s == [] then Truncated
    else if s[0] == 0x65 then ParseData(s[1..], h)
    else if |s| < 3 || |s| < 3 + Length16(s[1], s[2]) then Truncated
    else
      var n := Length16(s[1], s[2]);
      ParseFields(s[3 + n..], AddField(h, s[0], s[3..3 + n]))
  }

  function ParseData(s: seq<byte>, h: Header): Parsed {
    if |s| < 4 || |s| < 4 + Length32(s) then Truncated
    else
      var n := Length32(s);
      Complete(h, AllReversed(s[4..4 + n]), |s| > 4 + n)
  }

  function ParseFile(s: seq<byte>, h: Header): Parsed { if |s| < 13 then Truncated else ParseFields(s[13..], h) }

  // What is written

  /** A field at `p`: its key, its length with the high byte first, and its bytes. */
  predicate FieldAt(f: seq<byte>, p: nat, key: byte, s: seq<byte>) {
    && p + 3 + |s| <= |f| && f[p] == key && 256 * Num(f[p + 1]) + Num(f[p + 2]) == |s| && f[p + 3..p + 3 + |s|] == s
  }

  /** The data field from `e` on: its key, the length with the high byte first, and the data with their bits in
      reverse. */
  predicate DataAt(f: seq<byte>, e: nat, data: seq<byte>) {
    && |f| == e + 5 + |data| && f[e] == 0x65
    && 0x100_0000 * Num(f[e + 1]) + 0x1_0000 * Num(f[e + 2]) + 0x100 * Num(f[e + 3]) + Num(f[e + 4]) == |data|
    && var raw := f[e + 5..]; forall k :: 0 <= k < |data| ==> Mirrored(raw[k], data[k])
  }

  predicate Mirrored(a: byte, b: byte) { forall i: nat :: i < 8 ==> Bit(a, i) == Bit(b, 7 - i) }

  /** Every byte of a file: the preamble, the fields a to d and the data. */
  predicate LaidOut(f: seq<byte>, h: Header, data: seq<byte>) {
    var b := 16 + |h.ncd|;
    var c := b + 3 + |h.part|;
    var d := c + 3 + |h.date|;
    var e := d + 3 + |h.dtime|;
    && |f| >= 13 && f[..13] == [0x00, 0x09, 0x0F, 0xF0, 0x0F, 0xF0, 0x0F, 0xF0, 0x0F, 0xF0, 0x00, 0x00, 0x01]
    && FieldAt(f, 13, 0x61, h.ncd) && FieldAt(f, b, 0x62, h.part) && FieldAt(f, c, 0x63, h.date)
    && FieldAt(f, d, 0x64, h.dtime) && DataAt(f, e, data)
  }

  lemma FieldIs(key: byte, s: seq<byte>)
    requires Fits(s)
    ensures FieldAt(FieldBytes(key, s), 0, key, s) && |FieldBytes(key, s)| == 3 + |s|
  {
    var n := |s|;
    Bytes16(n);
    NumIs(Byte(n / 256));
    NumIs(Byte(n));
    hide Byte, Nat, Num;
    var f := FieldBytes(key, s);
    assert f[1] == Byte(n / 256) && f[2] == Byte(n);
  }

  /** A field that stands behind and before other bytes. */
  lemma FieldMoved(a: seq<byte>, b: seq<byte>, more: seq<byte>, key: byte, s: seq<byte>)
    requires FieldAt(b, 0, key, s) && |b| == 3 + |s|
    ensures FieldAt(a + b + more, |a|, key, s)
  {
    hide Num;
    var f, p := a + b + more, |a|;
    assert f[p] == b[0] && f[p + 1] == b[1] && f[p + 2] == b[2] && f[p + 3..p + 3 + |s|] == b[3..3 + |s|];
  }

  lemma AllMirrored(data: seq<byte>)
    ensures forall k :: 0 <= k < |data| ==> Mirrored(AllReversed(data)[k], data[k])
  {
    hide Bit, BitReversed;
  }

  lemma LengthIs(n: nat)
    requires n < 0x1_0000_0000
    ensures
      var l := LengthBytes(n);
      0x100_0000 * Num(l[0]) + 0x1_0000 * Num(l[1]) + 0x100 * Num(l[2]) + Num(l[3]) == n
  {
    var l := LengthBytes(n);
    Bytes32(n);
    NumIs(l[0]);
    NumIs(l[1]);
    NumIs(l[2]);
    NumIs(l[3]);
    hide LengthBytes, Num, Nat;
  }

  lemma DataFieldIs(data: seq<byte>)
    requires |data| < 0x1_0000_0000
    ensures DataAt(DataField(data), 0, data)
  {
    var l, raw := LengthBytes(|data|), AllReversed(data);
    AllMirrored(data);
    LengthIs(|data|);
    hide LengthBytes, Num, AllReversed, Mirrored;
    var t := [0x65] + l + raw;
    assert t[1] == l[0] && t[2] == l[1] && t[3] == l[2] && t[4] == l[3] && t[5..] == raw;
  }

  lemma DataMoved(a: seq<byte>, b: seq<byte>, data: seq<byte>)
    requires DataAt(b, 0, data)
    ensures DataAt(a + b, |a|, data)
  {
    hide Num, Mirrored;
    var f, e := a + b, |a|;
    assert f[e] == b[0] && f[e + 1] == b[1] && f[e + 2] == b[2] && f[e + 3] == b[3] && f[e + 4] == b[4];
    assert f[e + 5..] == b[5..];
  }

  /** A file is its preamble, its fields and its data, each byte in its place. */
  lemma FileIsLaidOut(h: Header, data: seq<byte>)
    requires Fits(h.ncd) && Fits(h.part) && Fits(h.date) && Fits(h.dtime) && |data| < 0x1_0000_0000
    ensures LaidOut(FileBytes(h, data), h, data)
  {
    var f1, f2 := FieldBytes(0x61, h.ncd), FieldBytes(0x62, h.part);
    var f3, f4, t := FieldBytes(0x63, h.date), FieldBytes(0x64, h.dtime), DataField(data);
    FieldIs(0x61, h.ncd);
    FieldIs(0x62, h.part);
    FieldIs(0x63, h.date);
    FieldIs(0x64, h.dtime);
    DataFieldIs(data);
    assert FileBytes(h, data) == PREAMBLE + (f1 + (f2 + (f3 + f4)) + t);
    assert |PREAMBLE| == 13;
    hide *;
    FileParts(PREAMBLE, f1, f2, f3, f4, t);
    PartsMoved(PREAMBLE, f1, f2, f3, f4, t, h, data);
    Places(PREAMBLE + f1 + f2 + f3 + f4 + t, h, data);
  }

  lemma PartsMoved(pre: seq<byte>, f1: seq<byte>, f2: seq<byte>, f3: seq<byte>, f4: seq<byte>, t: seq<byte>,
                   h: Header, data: seq<byte>)
    requires |pre| == 13 && DataAt(t, 0, data)
    requires FieldAt(f1, 0, 0x61, h.ncd) && |f1| == 3 + |h.ncd| && FieldAt(f2, 0, 0x62, h.part) && |f2| == 3 + |h.part|
    requires FieldAt(f3, 0, 0x63, h.date) && |f3| == 3 + |h.date|
    requires FieldAt(f4, 0, 0x64, h.dtime) && |f4| == 3 + |h.dtime|
    ensures
      var f := pre + f1 + f2 + f3 + f4 + t;
      && pre <= f && FieldAt(f, 13, 0x61, h.ncd) && FieldAt(f, 16 + |h.ncd|, 0x62, h.part)
      && FieldAt(f, 19 + |h.ncd| + |h.part|, 0x63, h.date)
      && FieldAt(f, 22 + |h.ncd| + |h.part| + |h.date|, 0x64, h.dtime)
      && DataAt(f, 25 + |h.ncd| + |h.part| + |h.date| + |h.dtime|, data)
  {
    hide *;
    var a, b, c := pre + f1, pre + f1 + f2, pre + f1 + f2 + f3;
    FileParts(pre, f1, f2, f3, f4, t);
    FieldMoved(pre, f1, f2 + f3 + f4 + t, 0x61, h.ncd);
    FieldMoved(a, f2, f3 + f4 + t, 0x62, h.part);
    FieldMoved(b, f3, f4 + t, 0x63, h.date);
    FieldMoved(c, f4, t, 0x64, h.dtime);
    DataMoved(c + f4, t, data);
  }

  lemma Places(f: seq<byte>, h: Header, data: seq<byte>)
    requires PREAMBLE <= f && FieldAt(f, 13, 0x61, h.ncd) && FieldAt(f, 16 + |h.ncd|, 0x62, h.part)
    requires FieldAt(f, 19 + |h.ncd| + |h.part|, 0x63, h.date)
    requires FieldAt(f, 22 + |h.ncd| + |h.part| + |h.date|, 0x64, h.dtime)
    requires DataAt(f, 25 + |h.ncd| + |h.part| + |h.date| + |h.dtime|, data)
    ensures LaidOut(f, h, data)
  {
    hide FieldAt, DataAt;
    assert f[..13] == PREAMBLE;
  }

  lemma FileParts(a: seq<byte>, b: seq<byte>, c: seq<byte>, d: seq<byte>, e: seq<byte>, f: seq<byte>)
    ensures a + (b + (c + (d + e)) + f) == a + b + (c + d + e + f)
    ensures a + b + (c + d + e + f) == a + b + c + (d + e + f)
    ensures a + b + c + (d + e + f) == a + b + c + d + (e + f)
    ensures a + b + c + d + (e + f) == a + b + c + d + e + f
  {
  }

  // Round trip

  predicate Fits(s: seq<byte>) { |s| < 0x1_0000 }

  lemma FieldParsed(key: byte, s: seq<byte>, more: seq<byte>, h: Header)
    requires key != 0x65 && Fits(s)
    ensures ParseFields(FieldBytes(key, s) + more, h) == ParseFields(more, AddField(h, key, s))
  {
    var n := |s|;
    var t := FieldBytes(key, s) + more;
    Bytes16(n);
    hide Byte, Nat, AddField;
    assert t[0] == key && t[1] == Byte(n / 256) && t[2] == Byte(n);
    assert t[3..3 + n] == s && t[3 + n..] == more;
  }

  lemma Bytes16(n: nat)
    requires n < 0x1_0000
    ensures Length16(Byte(n / 256), Byte(n)) == n
  {
    hide Byte, Nat;
    ByteValue(n / 256);
    ByteValue(n);
  }

  lemma Bytes32(n: nat)
    requires n < 0x1_0000_0000
    ensures Length32(LengthBytes(n)) == n
  {
    hide Byte, Nat;
    ByteValue(n / 0x100_0000);
    ByteValue(n / 0x1_0000);
    ByteValue(n / 0x100);
    ByteValue(n);
    assert n / 0x100 / 0x100 == n / 0x1_0000 && n / 0x1_0000 / 0x100 == n / 0x100_0000;
    assert n == 0x100 * (n / 0x100) + n % 0x100;
    assert n / 0x100 == 0x100 * (n / 0x1_0000) + n / 0x100 % 0x100;
    assert n / 0x1_0000 == 0x100 * (n / 0x100_0000) + n / 0x1_0000 % 0x100;
  }

  lemma DataParsed(data: seq<byte>, extra: seq<byte>, h: Header)
    requires |data| < 0x1_0000_0000
    ensures ParseFields(DataField(data) + extra, h) == Complete(h, data, extra != [])
  {
    Bytes32(|data|);
    AllReversedTwice(data);
    var rest := LengthBytes(|data|) + AllReversed(data) + extra;
    assert DataField(data) + extra == [0x65] + rest;
    LengthFirst(LengthBytes(|data|), AllReversed(data), extra);
    hide LengthBytes, AllReversed, Length32, DataField;
    assert ([0x65] + rest)[1..] == rest;
  }

  lemma LengthFirst(len: seq<byte>, raw: seq<byte>, extra: seq<byte>)
    requires |len| == 4 && Length32(len) == |raw|
    ensures var u := len + raw + extra; |u| >= 4 && Length32(u) == |raw| && u[4..4 + |raw|] == raw
  {
    var u := len + raw + extra;
    assert u[0] == len[0] && u[1] == len[1] && u[2] == len[2] && u[3] == len[3];
    hide Nat;
  }

  /** A file whose fields fit their 16-bit lengths is read back as it was written, behind what the reader already
      held. */
  lemma FileParsed(h: Header, data: seq<byte>, before: Header)
    requires Fits(h.ncd) && Fits(h.part) && Fits(h.date) && Fits(h.dtime) && |data| < 0x1_0000_0000
    ensures ParseFile(FileBytes(h, data), before) ==
      Complete(Header(before.ncd + h.ncd, before.part + h.part, before.date + h.date, before.dtime + h.dtime),
        data, false)
  {
    FilePieces(h, data);
    var d := DataField(data);
    var f2, f3, f4 := FieldBytes(0x62, h.part), FieldBytes(0x63, h.date), FieldBytes(0x64, h.dtime);
    var h1 := AddField(before, 0x61, h.ncd);
    var h2 := AddField(h1, 0x62, h.part);
    var h3 := AddField(h2, 0x63, h.date);
    var h4 := AddField(h3, 0x64, h.dtime);
    hide FieldBytes, DataField, ParseFields, FileBytes, HeaderBytes;
    FieldParsed(0x61, h.ncd, f2 + (f3 + (f4 + d)), before);
    FieldParsed(0x62, h.part, f3 + (f4 + d), h1);
    FieldParsed(0x63, h.date, f4 + d, h2);
    FieldParsed(0x64, h.dtime, d, h3);
    DataParsed(data, [], h4);
    assert d + [] == d;
  }

  lemma FilePieces(h: Header, data: seq<byte>)
    ensures |FileBytes(h, data)| >= 13
    ensures FileBytes(h, data)[13..] == FieldBytes(0x61, h.ncd) +
      (FieldBytes(0x62, h.part) + (FieldBytes(0x63, h.date) + (FieldBytes(0x64, h.dtime) + DataField(data))))
  {
    hide FieldBytes, DataField;
    assert FileBytes(h, data)[13..] == HeaderBytes(h) + DataField(data);
    FiveParts(FieldBytes(0x61, h.ncd), FieldBytes(0x62, h.part), FieldBytes(0x63, h.date), FieldBytes(0x64, h.dtime),
      DataField(data));
  }

  lemma FiveParts<T>(a: seq<T>, b: seq<T>, c: seq<T>, d: seq<T>, e: seq<T>)
    ensures a + (b + (c + d)) + e == a + (b + (c + (d + e)))
  {
  }

  // Clipping

  /** get_bit: beyond the data every bit is one. */
  function GetBit(data: seq<byte>, idx: nat): bool { if idx / 8 >= |data| then true else Bit(data[idx / 8], idx % 8) }

  /** Cutting data at `n` changes no bit exactly when only bytes 0xff are cut off. */
  lemma BitsKept(data: seq<byte>, n: nat)
    requires n <= |data|
    ensures (forall idx: nat :: GetBit(data[..n], idx) == GetBit(data, idx)) <==>
      forall k :: n <= k < |data| ==> data[k] == 0xFF
  {
    if forall k :: n <= k < |data| ==> data[k] == 0xFF {
      forall idx: nat ensures GetBit(data[..n], idx) == GetBit(data, idx) {
        OnesOf(idx % 8);
      }
    } else if forall idx: nat :: GetBit(data[..n], idx) == GetBit(data, idx) {
      var k :| n <= k < |data| && data[k] != 0xFF;
      forall i: nat | i < 8 ensures Bit(data[k], i) == Bit(0xFF, i) {
        assert (8 * k + i) / 8 == k && (8 * k + i) % 8 == i;
        assert GetBit(data[..n], 8 * k + i) == GetBit(data, 8 * k + i);
        OnesOf(i);
      }
      BytesAgree(data[k], 0xFF);
      assert false;
    }
  }

  lemma OnesOf(i: nat)
    requires i < 8
    ensures Bit(0xFF, i)
  {
  }

  ghost predicate SameBits(a: seq<byte>, b: seq<byte>) { forall idx: nat :: GetBit(a, idx) == GetBit(b, idx) }

  lemma ClippedBits(data: seq<byte>, n: nat)
    requires n <= |data| && forall k :: n <= k < |data| ==> data[k] == 0xFF
    ensures SameBits(data[..n], data)
  {
    BitsKept(data, n);
    hide GetBit;
  }
}
