/** What the reader of Intel HEX lines makes of every record, and what the writer's records look like, digit by digit.
    Here the value of a byte is its number, and texts are spelled out. */
module IntelHexRecords {
  import opened Bits
  import opened IntelHex
  import opened IntelHexRoundTrip
  import opened Octets
  import opened Sequences

  // Digits

  /** Printed digits are upper case, and lower case is read as well. */
  lemma DigitsAre(n: byte)
    requires n < 16
    ensures HexDigit(n) == "0123456789ABCDEF"[n]
    ensures HexValue("0123456789ABCDEF"[n]) == n && HexValue("0123456789abcdef"[n]) == n
  {
  }

  lemma HexAre(c: char)
    ensures IsHex(c) <==> c in "0123456789ABCDEFabcdef"
  {
  }

  /** Two digits for each byte, the high one first. */
  ghost predicate Spells(t: string, bytes: seq<byte>) {
    && |t| == 2 * |bytes|
    && forall k :: 0 <= k < |bytes| ==>
      t[2 * k] == "0123456789ABCDEF"[Num(bytes[k]) / 16] && t[2 * k + 1] == "0123456789ABCDEF"[Num(bytes[k]) % 16]
  }

  lemma HalvesAre(b: byte)
    ensures Num(b >> 4) == Num(b) / 16 && Num(b & 0x0F) == Num(b) % 16 && b >> 4 < 16 && b & 0x0F < 16
  {
  }

  lemma {:induction false} TextSpells(bytes: seq<byte>)
    ensures Spells(HexText(bytes), bytes)
  {
    if bytes != [] {
      TextSpells(bytes[1..]);
      HalvesAre(bytes[0]);
      DigitsAre(bytes[0] >> 4);
      DigitsAre(bytes[0] & 0x0F);
      var t, more := HexText(bytes), HexText(bytes[1..]);
      hide HexDigit, HexText;
      forall k | 0 <= k < |bytes|
        ensures t[2 * k] == "0123456789ABCDEF"[Num(bytes[k]) / 16]
          && t[2 * k + 1] == "0123456789ABCDEF"[Num(bytes[k]) % 16] {
        if k > 0 {
          assert t[2 * k] == more[2 * (k - 1)] && t[2 * k + 1] == more[2 * (k - 1) + 1];
          assert bytes[k] == bytes[1..][k - 1];
        }
      }
    }
  }

  // Checksums

  function Sum(bytes: seq<byte>): nat { if bytes == [] then 0 else Num(bytes[0]) + Sum(bytes[1..]) }

  lemma {:induction false} SumIs(sum: nat, bytes: seq<byte>)
    requires sum < 256
    ensures SumOn(sum, bytes) == (sum + Sum(bytes)) % 256
    decreases |bytes|
  {
    if bytes != [] {
      var b: nat := Num(bytes[0]);
      AddIs(sum, bytes[0]);
      SumUnfold(sum, bytes);
      hide *;
      SumIs((sum + b) % 256, bytes[1..]);
      Carried(sum + b, Sum(bytes[1..]));
    }
  }

  lemma AddIs(sum: nat, b: byte)
    ensures Add(sum, b) == (sum + Num(b)) % 256
  {
    NumIs(b);
    hide Nat;
  }

  lemma SumUnfold(sum: nat, bytes: seq<byte>)
    requires bytes != []
    ensures SumOn(sum, bytes) == SumOn(Add(sum, bytes[0]), bytes[1..])
    ensures Sum(bytes) == Num(bytes[0]) + Sum(bytes[1..])
  {
    hide Add;
  }

  lemma Carried(a: nat, b: nat)
    ensures (a % 256 + b) % 256 == (a + b) % 256
  {
  }

  lemma {:induction false} SumConcat(a: seq<byte>, b: seq<byte>)
    ensures Sum(a + b) == Sum(a) + Sum(b)
  {
    if a == [] {
      assert a + b == b;
    } else {
      assert (a + b)[1..] == a[1..] + b && (a + b)[0] == a[0];
      var n: nat := Num(a[0]);
      SumConcat(a[1..], b);
      SumUnfold(0, a);
      SumUnfold(0, a + b);
      hide *;
    }
  }

  // Records that are written

  /** A record: a colon, its bytes, and one that makes their sum a multiple of 256. */
  ghost predicate IsRecord(line: string, bytes: seq<byte>) {
    exists check: byte :: line != "" && line[0] == ':' && Spells(line[1..], bytes + [check]) &&
      Sum(bytes + [check]) % 256 == 0
  }

  lemma RecordIs(bytes: seq<byte>)
    ensures IsRecord(Record(bytes), bytes)
  {
    hide Check, Spells, Sum, Total;
    var c := Check(bytes);
    HexTextPrefix(bytes, [c]);
    assert HexText([c]) == Hex2(c) + HexText([]) == Hex2(c);
    hide HexText, Hex2;
    assert Record(bytes)[1..] == HexText(bytes + [c]);
    TextSpells(bytes + [c]);
    CheckCancels(bytes);
    SumIsTotal(bytes + [c]);
    SumIs(0, bytes + [c]);
  }

  /** The bytes of the record at `i`: the count, the low 16 bits of the address, type 0 and the data. */
  lemma DataBytesAre(data: seq<byte>, i: nat)
    requires i < |data|
    ensures var b, left := DataBytes(data, i), |data| - i;
      && |b| == 4 + (if left < 16 then left else 16)
      && Num(b[0]) == (if left < 15 then left else 16) && 256 * Num(b[1]) + Num(b[2]) == i % 0x10000 && b[3] == 0
      && b[4..] == data[i..i + if left < 16 then left else 16]
  {
    var left := |data| - i;
    var count, hi, lo := if left < 0x0F then Byte(left) else 0x10, Byte(i / 256), Byte(i);
    CountRead(left);
    LowBytesRead(i);
    NumIs(count);
    NumIs(hi);
    NumIs(lo);
    hide Byte, Nat;
    var b := DataBytes(data, i);
    assert b[0] == count && b[1] == hi && b[2] == lo && b[3] == 0;
  }

  lemma AddressBytesAre(base: nat)
    requires base < 0x10000
    ensures var b := AddressBytes(base);
      |b| == 6 && b[..4] == [2, 0, 0, 4] && 256 * Num(b[4]) + Num(b[5]) == base
  {
    LowBytesRead(base);
    SmallBase(base);
    NumIs(Byte(base / 256));
    NumIs(Byte(base));
    hide Byte, Nat;
  }

  /** The last line of every file. */
  lemma EndLineIs()
    ensures Record(END) == ":00000001FF"
  {
    assert HexText(END) == Hex2(0) + (Hex2(0) + (Hex2(0) + (Hex2(1) + "")));
    assert Hex2(0) == "00" && Hex2(1) == "01" && Hex2(0xFF) == "FF";
    hide HexText, Hex2;
    EndCheck();
  }

  lemma EndCheck()
    ensures Check(END) == 0xFF
  {
    hide *;
    CheckIs(END);
    SumIsTotal(END);
    SumIs(0, END);
    EndSum();
    OnesByte();
  }

  lemma CheckIs(bytes: seq<byte>)
    ensures Check(bytes) == Byte(255 - Total(bytes) + 1)
  {
    hide Byte, Total;
  }

  lemma OnesByte()
    ensures Byte(255) == 0xFF
  {
    ByteValue(255);
    NumIs(0xFF);
    assert Num(0xFF) == 255;
    hide *;
    NatInjective(Byte(255), 0xFF);
  }

  lemma EndSum()
    ensures Sum(END) == 1
  {
    assert Sum([1]) == 1 && Sum([0, 1]) == 1;
    assert END[1..] == [0, 0, 1] && [0, 0, 1][1..] == [0, 1];
  }

  // Records that are read

  /** A bit of a number. */
  function BitOf(n: nat, j: nat): nat
    decreases j
  {
    if j == 0 then n % 2 else BitOf(n / 2, j - 1)
  }

  lemma {:induction false} BitOrIs(a: nat, b: nat, j: nat)
    ensures BitOf(BitOr(a, b), j) == if BitOf(a, j) == 1 || BitOf(b, j) == 1 then 1 else 0
    decreases j
  {
    BitOrHalves(a, b);
    if j > 0 { BitOrIs(a / 2, b / 2, j - 1); }
  }

  lemma BitOrHalves(a: nat, b: nat)
    ensures BitOr(a, b) / 2 == BitOr(a / 2, b / 2)
    ensures BitOr(a, b) % 2 == if a % 2 == 1 || b % 2 == 1 then 1 else 0
  {
  }

  /** A line with these bytes and nothing else. */
  function Line(bytes: seq<byte>): string { ":" + HexText(bytes) }

  lemma LineDigits(bytes: seq<byte>)
    requires |bytes| >= 4
    ensures var line := Line(bytes); |line| == 2 * |bytes| + 1 && Plain(line) && Signature(line)
  {
    TextDigits(bytes);
    hide HexText;
    var line := Line(bytes);
    forall i | 0 <= i < 2 * |bytes| ensures IsHex(line[1..][i]) { }
    forall i | 0 <= i < |line| ensures !Special(line[i]) {
      if i > 0 { assert IsHex(line[1..][i - 1]); }
    }
  }

  /** The reader finds count, address and type in the first four bytes, and goes on with the rest. */
  lemma HeadRead(h0: byte, h1: byte, h2: byte, h3: byte, more: seq<byte>, st: State, stale: byte)
    ensures ReadLine(Line([h0, h1, h2, h3] + more), st, stale) ==
      ReadBody(h3, Num(h0), 256 * Num(h1) + Num(h2), HexText(more), Sum([h0, h1, h2, h3]) % 256, st, stale)
  {
    var line := Line([h0, h1, h2, h3] + more);
    hide *;
    LineDigits([h0, h1, h2, h3] + more);
    HexTextPrefix([h0, h1, h2, h3], more);
    LineText([h0, h1, h2, h3] + more);
    FourFields(h0, h1, h2, h3, HexText(more), line);
    NumIs(h0);
    NumIs(h1);
    NumIs(h2);
    HeadSum(h0, h1, h2, h3);
    FieldsThere(line, h0, h1, h2, h3, st, stale);
  }

  lemma LineText(bytes: seq<byte>)
    ensures Line(bytes) == ":" + HexText(bytes)
  {
  }

  lemma HeadSum(h0: byte, h1: byte, h2: byte, h3: byte)
    ensures Add(Add(Add(Add(0, h0), h1), h2), h3) == Sum([h0, h1, h2, h3]) % 256
  {
    HeaderSum(h0, h1, h2, h3, []);
    assert [h0, h1, h2, h3] + [] == [h0, h1, h2, h3];
    hide Add, Total, Sum;
    SumIsTotal([h0, h1, h2, h3]);
    SumIs(0, [h0, h1, h2, h3]);
  }

  lemma FieldsThere(line: string, h0: byte, h1: byte, h2: byte, h3: byte, st: State, stale: byte)
    requires Plain(line) && Signature(line) && |line| >= 9
    requires Scan2(line[1..]) == Some(h0) && Scan2(line[3..]) == Some(h1) && Scan2(line[5..]) == Some(h2)
    requires Scan2(line[7..]) == Some(h3)
    ensures ReadLine(line, st, stale) ==
      ReadBody(h3, Nat(h0), 256 * Nat(h1) + Nat(h2), line[9..], Add(Add(Add(Add(0, h0), h1), h2), h3), st, stale)
  {
    hide ReadBody, Scan2, Nat, Add, Digits;
  }

  /** The end of a record: its last byte must make the sum a multiple of 256. */
  lemma VerifyIs(check: byte, sum: nat, st: State, stale: byte)
    requires sum < 256
    ensures Verify(HexText([check]), sum, st, stale)
      == if (sum + Num(check)) % 256 == 0 then Next(st) else Stop(Refused(3))
  {
    assert HexText([check]) == Hex2(check) + HexText([]) == Hex2(check) + "";
    hide HexText;
    Hex2Scanned(check, "");
    NumIs(check);
    Complement(check, sum);
    hide Hex2, Scan2, Nat;
  }

  lemma Complement(check: byte, sum: nat)
    requires sum < 256
    ensures Num(check) == (256 - sum) % 256 <==> (sum + Num(check)) % 256 == 0
  {
    var c: nat := Num(check);
    assert c < 256;
    if sum + c >= 256 { assert (sum + c) % 256 == sum + c - 256; }
  }

  /** What the checksum decides. */
  function Checked(bytes: seq<byte>, st: State): Step { if Sum(bytes) % 256 == 0 then Next(st) else Stop(Refused(3)) }

  lemma SumSoFar(head: seq<byte>, body: seq<byte>, check: byte)
    ensures SumOn(Sum(head) % 256, body) == Sum(head + body) % 256
    ensures (Sum(head + body) % 256 + Num(check)) % 256 == Sum(head + body + [check]) % 256
  {
    hide *;
    SumIs(Sum(head) % 256, body);
    SumConcat(head, body);
    SumConcat(head + body, [check]);
    LastSum(check);
    Carried(Sum(head), Sum(body));
    Carried(Sum(head + body), Num(check));
  }

  lemma LastSum(check: byte)
    ensures Sum([check]) == Num(check)
  {
    SumUnfold(0, [check]);
    assert [check][1..] == [];
  }

  /** A data record: the bytes are put at the address, whose upper half stays what it was. */
  lemma DataRecordRead(count: byte, hi: byte, lo: byte, body: seq<byte>, check: byte, st: State, stale: byte)
    requires Num(count) == |body|
    requires st.full - st.full % 0x10000 + 256 * Num(hi) + Num(lo) + |body| <= |st.buf|
    ensures
      var at := st.full - st.full % 0x10000 + 256 * Num(hi) + Num(lo);
      var all := [count, hi, lo, 0] + body + [check];
      ReadLine(Line(all), st, stale)
      == Checked(all, State(at + |body|, st.buf[..at] + body + st.buf[at + |body|..]))
  {
    hide *;
    var address := 256 * Num(hi) + Num(lo);
    var head := [count, hi, lo, 0];
    assert head + body + [check] == head + (body + [check]);
    HeadRead(count, hi, lo, 0, body + [check], st, stale);
    var at := st.full - st.full % 0x10000 + address;
    DataBodyRead(address, at, head, body, check, st, stale);
    StoredIs(st.buf, at, body);
  }

  lemma DataBodyRead(address: nat, at: nat, head: seq<byte>, body: seq<byte>, check: byte, st: State, stale: byte)
    requires at == st.full - st.full % 0x10000 + address && at + |body| <= |st.buf|
    ensures ReadBody(0, |body|, address, HexText(body + [check]), Sum(head) % 256, st, stale)
      == Checked(head + body + [check], State(at + |body|, Stored(st.buf, at, body)))
  {
    hide *;
    var next := State(at + |body|, Stored(st.buf, at, body));
    HexTextPrefix(body, [check]);
    SumSoFar(head, body, check);
    BytesLoaded(body, HexText([check]), State(at, st.buf), Sum(head) % 256);
    LoadIs(|body|, address, HexText(body + [check]), Sum(head) % 256, st, stale);
    VerifyIs(check, Sum(head + body) % 256, next, stale);
    CheckedIs(head + body + [check], next);
  }

  lemma CheckedIs(bytes: seq<byte>, st: State)
    ensures Checked(bytes, st) == if Sum(bytes) % 256 == 0 then Next(st) else Stop(Refused(3))
  {
    hide Sum;
  }

  lemma StoredIs(buf: seq<byte>, at: nat, bytes: seq<byte>)
    requires at + |bytes| <= |buf|
    ensures Stored(buf, at, bytes) == buf[..at] + bytes + buf[at + |bytes|..]
  {
  }

  lemma LoadIs(count: nat, address: nat, t: string, sum: nat, st: State, stale: byte)
    ensures
      var at := st.full - st.full % 0x10000 + address;
      ReadBody(0, count, address, t, sum, st, stale) ==
        match LoadBytes(t, count, State(at, st.buf), sum)
        case None => Stop(Undefined)
        case Some(r) => Verify(r.rest, r.sum, r.st, stale)
  {
    hide LoadBytes, Verify;
  }

  /** The end record hands out what is in front of the address; its checksum is not looked at. */
  lemma EndRecordRead(count: byte, hi: byte, lo: byte, body: seq<byte>, st: State, stale: byte)
    requires st.full <= |st.buf|
    ensures ReadLine(Line([count, hi, lo, 1] + body), st, stale) == Stop(Loaded(st.buf[..st.full]))
  {
    HeadRead(count, hi, lo, 1, body, st, stale);
    hide ReadLine, Line, HexText, Sum;
  }

  /** The address behind an extended address record with the number `upper`: for a linear one (type 4) `upper` times
      64 KB and the low half as it was, for a segment (type 2) the bits of 16 times `upper` set in the low half. Nothing
      changes where the address has that upper part already. */
  ghost predicate Rebased(kind: byte, upper: nat, full: nat, next: nat) {
    if kind == 4 then next == upper * 0x10000 + full % 0x10000
    else if full / 16 == upper then next == full
    else forall j: nat :: BitOf(next, j) == 1 <==> BitOf(full % 0x10000, j) == 1 || BitOf(upper * 16, j) == 1
  }

  lemma BaseIs(kind: byte, upper: nat, full: nat)
    requires kind == 2 || kind == 4
    ensures Rebased(kind, upper, full, NewBase(kind, upper, full))
  {
    if kind == 2 {
      forall j: nat ensures BitOf(BitOr(full % 0x10000, upper * 16), j) == 1
          <==> BitOf(full % 0x10000, j) == 1 || BitOf(upper * 16, j) == 1 {
        BitOrIs(full % 0x10000, upper * 16, j);
      }
    }
    hide BitOf, BitOr;
  }

  lemma AddressRecordRead(kind: byte, hi: byte, lo: byte, upper: seq<byte>, check: byte, st: State, stale: byte)
    returns (next: nat)
    requires (kind == 2 || kind == 4) && |upper| == 2
    ensures Rebased(kind, 256 * Num(upper[0]) + Num(upper[1]), st.full, next)
    ensures
      var all := [2, hi, lo, kind] + upper + [check];
      ReadLine(Line(all), st, stale) == Checked(all, st.(full := next))
  {
    assert Num(2) == 2;
    hide *;
    var head := [2, hi, lo, kind];
    assert head + upper + [check] == head + (upper + [check]);
    HeadRead(2, hi, lo, kind, upper + [check], st, stale);
    next := NewBase(kind, 256 * Num(upper[0]) + Num(upper[1]), st.full);
    BaseIs(kind, 256 * Num(upper[0]) + Num(upper[1]), st.full);
    AddressBodyRead(kind, 256 * Num(hi) + Num(lo), head, upper, check, st, stale);
  }

  lemma AddressBodyRead(kind: byte, address: nat, head: seq<byte>, upper: seq<byte>, check: byte, st: State,
                        stale: byte)
    requires (kind == 2 || kind == 4) && |upper| == 2
    ensures ReadBody(kind, 2, address, HexText(upper + [check]), Sum(head) % 256, st, stale)
      == Checked(head + upper + [check],
                 st.(full := NewBase(kind, 256 * Num(upper[0]) + Num(upper[1]), st.full)))
  {
    hide *;
    var next := st.(full := NewBase(kind, 256 * Num(upper[0]) + Num(upper[1]), st.full));
    HexTextPrefix(upper, [check]);
    assert upper == [upper[0], upper[1]];
    AddressText(upper[0], upper[1], HexText([check]));
    SumSoFar(head, upper, check);
    NumIs(upper[0]);
    NumIs(upper[1]);
    TwoSummed(Sum(head) % 256, upper);
    BaseRead(kind, address, HexText(upper + [check]), Sum(head) % 256, st, stale);
    VerifyIs(check, Sum(head + upper) % 256, next, stale);
    CheckedIs(head + upper + [check], next);
  }

  lemma BaseRead(kind: byte, address: nat, t: string, sum: nat, st: State, stale: byte)
    requires (kind == 2 || kind == 4) && Digits(t, 4) && |t| >= 4 && Scan2(t).Some? && Scan2(t[2..]).Some?
    ensures
      var hi, lo := Scan2(t).value, Scan2(t[2..]).value;
      ReadBody(kind, 2, address, t, sum, st, stale)
      == Verify(t[4..], Add(Add(sum, hi), lo), st.(full := NewBase(kind, 256 * Nat(hi) + Nat(lo), st.full)), stale)
  {
    hide Verify, Scan2, Add, NewBase, Nat, Digits;
  }

  lemma TwoSummed(sum: nat, two: seq<byte>)
    requires |two| == 2
    ensures Add(Add(sum, two[0]), two[1]) == SumOn(sum, two)
  {
    hide Add;
    assert two[1..][0] == two[1] && two[1..][1..] == [];
    assert SumOn(Add(Add(sum, two[0]), two[1]), []) == Add(Add(sum, two[0]), two[1]);
    assert SumOn(Add(sum, two[0]), two[1..]) == SumOn(Add(Add(sum, two[0]), two[1]), []);
  }

  /** Start address records are passed over. */
  lemma StartRecordRead(kind: byte, count: byte, hi: byte, lo: byte, body: seq<byte>, check: byte, st: State,
                        stale: byte)
    requires Num(count) == |body| && (kind == 3 || (kind == 5 && |body| == 4))
    ensures
      var all := [count, hi, lo, kind] + body + [check];
      ReadLine(Line(all), st, stale) == Checked(all, st)
  {
    hide *;
    var head := [count, hi, lo, kind];
    assert head + body + [check] == head + (body + [check]);
    HeadRead(count, hi, lo, kind, body + [check], st, stale);
    StartBodyRead(kind, 256 * Num(hi) + Num(lo), head, body, check, st, stale);
  }

  lemma StartBodyRead(kind: byte, address: nat, head: seq<byte>, body: seq<byte>, check: byte, st: State, stale: byte)
    requires kind == 3 || (kind == 5 && |body| == 4)
    ensures ReadBody(kind, |body|, address, HexText(body + [check]), Sum(head) % 256, st, stale)
      == Checked(head + body + [check], st)
  {
    hide *;
    TextDigits(body + [check]);
    EightDigits(HexText(body + [check]), 2 * |body + [check]|);
    HexTextPrefix(body, [check]);
    SumSoFar(head, body, check);
    BytesSkipped(body, HexText([check]), Sum(head) % 256);
    StartIs(kind, |body|, address, HexText(body + [check]), Sum(head) % 256, st, stale);
    VerifyIs(check, Sum(head + body) % 256, st, stale);
    CheckedIs(head + body + [check], st);
  }

  lemma EightDigits(t: string, n: nat)
    requires Digits(t, n)
    ensures n >= 8 ==> Digits(t, 8)
  {
    hide IsHex;
  }

  lemma StartIs(kind: byte, count: nat, address: nat, t: string, sum: nat, st: State, stale: byte)
    requires kind == 3 || (kind == 5 && count == 4 && Digits(t, 8))
    ensures ReadBody(kind, count, address, t, sum, st, stale) ==
      match SkipBytes(t, count, sum)
      case None => Stop(Undefined)
      case Some(r) => Verify(r.1, r.0, st, stale)
  {
    hide SkipBytes, Verify, Digits;
  }

  lemma {:induction false} BytesSkipped(bytes: seq<byte>, rest: string, sum: nat)
    ensures SkipBytes(HexText(bytes) + rest, |bytes|, sum) == Some((SumOn(sum, bytes), rest))
    decreases |bytes|
  {
    if bytes == [] {
      assert HexText(bytes) + rest == rest;
    } else {
      var b, more := bytes[0], bytes[1..];
      HexTextSplit(bytes, rest);
      Hex2Scanned(b, HexText(more) + rest);
      hide HexText, Hex2, Scan2, Drop, Add;
      BytesSkipped(more, rest, Add(sum, b));
    }
  }

  /** Any other type is refused. */
  lemma OtherRecordRead(count: byte, hi: byte, lo: byte, kind: byte, body: seq<byte>, st: State, stale: byte)
    requires kind > 5
    ensures ReadLine(Line([count, hi, lo, kind] + body), st, stale) == Stop(Refused(2))
  {
    HeadRead(count, hi, lo, kind, body, st, stale);
    hide ReadLine, Line, HexText, Sum;
  }
}
