/** Reading Intel HEX lines back: which data survive. */
module IntelHexRoundTrip {
  import opened Bits
  import opened IntelHex
  import opened Octets

  lemma Hex2Scanned(b: byte, rest: string)
    ensures Scan2(Hex2(b) + rest) == Some(b) && Drop(Hex2(b) + rest, 2) == rest
  {
    DigitValue(b >> 4);
    DigitValue(b & 0x0F);
    hide HexDigit, HexValue, IsHex;
    var t := Hex2(b) + rest;
    assert t[0] == HexDigit(b >> 4) && t[1] == HexDigit(b & 0x0F);
    assert ((b >> 4) << 4) | (b & 0x0F) == b;
  }

  lemma DigitValue(n: byte)
    requires n < 16
    ensures IsHex(HexDigit(n)) && HexValue(HexDigit(n)) == n
  {
  }

  /** Buffer contents after bytes were written from an address on. */
  function Stored(buf: seq<byte>, at: nat, bytes: seq<byte>): (r: seq<byte>)
    requires at + |bytes| <= |buf|
    ensures |r| == |buf|
  {
    buf[..at] + bytes + buf[at + |bytes|..]
  }

  /** The running checksum after more bytes. */
  function SumOn(sum: nat, bytes: seq<byte>): nat
    decreases |bytes|
  {
    if bytes == [] then sum else SumOn(Add(sum, bytes[0]), bytes[1..])
  }

  lemma {:induction false} SumOnConcat(sum: nat, a: seq<byte>, b: seq<byte>)
    ensures SumOn(sum, a + b) == SumOn(SumOn(sum, a), b)
    decreases |a|
  {
    if a == [] {
      assert a + b == b;
    } else {
      assert (a + b)[1..] == a[1..] + b;
      SumOnConcat(Add(sum, a[0]), a[1..], b);
    }
  }

  lemma {:induction false} SumIsTotal(bytes: seq<byte>)
    ensures SumOn(0, bytes) == Total(bytes)
    decreases |bytes|
  {
    if bytes != [] {
      var n := |bytes| - 1;
      SumIsTotal(bytes[..n]);
      SumOnConcat(0, bytes[..n], [bytes[n]]);
      assert bytes[..n] + [bytes[n]] == bytes;
      assert SumOn(Total(bytes[..n]), [bytes[n]]) == Add(Total(bytes[..n]), bytes[n]);
    }
  }

  lemma {:induction false} BytesLoaded(bytes: seq<byte>, rest: string, st: State, sum: nat)
    requires st.full + |bytes| <= |st.buf|
    ensures LoadBytes(HexText(bytes) + rest, |bytes|, st, sum) ==
      Some(Read(State(st.full + |bytes|, Stored(st.buf, st.full, bytes)), SumOn(sum, bytes), rest))
    decreases |bytes|
  {
    if bytes == [] {
      assert HexText(bytes) + rest == rest && Stored(st.buf, st.full, bytes) == st.buf;
    } else {
      var b, more := bytes[0], bytes[1..];
      HexTextSplit(bytes, rest);
      StoredSplit(st.buf, st.full, bytes);
      assert SumOn(sum, bytes) == SumOn(Add(sum, b), more);
      hide *;
      ByteLoaded(b, HexText(more) + rest, |more|, st, sum);
      BytesLoaded(more, rest, State(st.full + 1, st.buf[st.full := b]), Add(sum, b));
    }
  }

  lemma HexTextSplit(bytes: seq<byte>, rest: string)
    requires bytes != []
    ensures HexText(bytes) + rest == Hex2(bytes[0]) + (HexText(bytes[1..]) + rest)
  {
  }

  lemma StoredSplit(buf: seq<byte>, at: nat, bytes: seq<byte>)
    requires bytes != [] && at + |bytes| <= |buf|
    ensures Stored(buf, at, bytes) == Stored(buf[at := bytes[0]], at + 1, bytes[1..])
  {
    assert buf[..at] + bytes == buf[at := bytes[0]][..at + 1] + bytes[1..];
    assert buf[at + |bytes|..] == buf[at := bytes[0]][at + 1 + |bytes[1..]|..];
  }

  lemma ByteLoaded(b: byte, tail: string, count: nat, st: State, sum: nat)
    requires st.full < |st.buf|
    ensures LoadBytes(Hex2(b) + tail, count + 1, st, sum) ==
      LoadBytes(tail, count, State(st.full + 1, st.buf[st.full := b]), Add(sum, b))
  {
    Hex2Scanned(b, tail);
    hide Scan2, Drop, Hex2, Add;
  }

  // Records

  /** The fields of a record with four leading bytes, as the reader finds them. */
  lemma FieldsRead(h0: byte, h1: byte, h2: byte, h3: byte, more: seq<byte>)
    ensures var bytes := [h0, h1, h2, h3] + more; var line := Record(bytes);
      && Plain(line) && Signature(line) && |line| > 8 && line[9..] == HexText(more) + Hex2(Check(bytes))
      && Scan2(line[1..]) == Some(h0) && Scan2(line[3..]) == Some(h1) && Scan2(line[5..]) == Some(h2)
        && Scan2(line[7..]) == Some(h3)
  {
    var bytes := [h0, h1, h2, h3] + more;
    var end := HexText(more) + Hex2(Check(bytes));
    HexTextPrefix([h0, h1, h2, h3], more);
    hide Check;
    var line := Record(bytes);
    RecordDigits(bytes);
    FourFields(h0, h1, h2, h3, end, line);
  }

  /** A record is a colon and hexadecimal digits. */
  lemma RecordDigits(bytes: seq<byte>)
    ensures var line := Record(bytes);
      |line| == 2 * |bytes| + 3 && line[0] == ':' && Plain(line) && Digits(line[1..], 2 * |bytes| + 2)
  {
    TextDigits(bytes);
    TextDigits([Check(bytes)]);
    assert HexText([Check(bytes)]) == Hex2(Check(bytes));
    hide Hex2, HexText, Check;
    var line := Record(bytes);
    forall i | 0 <= i < 2 * |bytes| + 2 ensures IsHex(line[1..][i]) { }
    forall i | 0 <= i < |line| ensures !Special(line[i]) {
      if i > 0 { assert IsHex(line[1..][i - 1]); }
    }
  }

  lemma {:induction false} TextDigits(bytes: seq<byte>)
    ensures Digits(HexText(bytes), 2 * |bytes|)
  {
    if bytes != [] {
      TextDigits(bytes[1..]);
      DigitValue(bytes[0] >> 4);
      DigitValue(bytes[0] & 0x0F);
      hide HexDigit, IsHex;
      forall i | 0 <= i < 2 * |bytes| ensures IsHex(HexText(bytes)[i]) {
        if i >= 2 { assert HexText(bytes)[i] == HexText(bytes[1..])[i - 2]; }
      }
    }
  }

  lemma {:induction false} HexTextPrefix(a: seq<byte>, b: seq<byte>)
    ensures HexText(a + b) == HexText(a) + HexText(b)
  {
    if a == [] {
      assert a + b == b;
    } else {
      assert (a + b)[1..] == a[1..] + b;
      HexTextPrefix(a[1..], b);
    }
  }

  lemma FourFields(h0: byte, h1: byte, h2: byte, h3: byte, end: string, line: string)
    requires line == ":" + (HexText([h0, h1, h2, h3]) + end)
    ensures |line| >= 9 && line[0] == ':' && line[9..] == end
    ensures Scan2(line[1..]) == Some(h0) && Scan2(line[3..]) == Some(h1) && Scan2(line[5..]) == Some(h2)
    ensures Scan2(line[7..]) == Some(h3)
  {
    assert HexText([h0, h1, h2, h3]) == Hex2(h0) + HexText([h1, h2, h3]);
    assert HexText([h1, h2, h3]) == Hex2(h1) + HexText([h2, h3]);
    assert HexText([h2, h3]) == Hex2(h2) + HexText([h3]);
    assert HexText([h3]) == Hex2(h3) + HexText([]) == Hex2(h3);
    hide HexText;
    var t3 := Hex2(h3) + end;
    var t2 := Hex2(h2) + t3;
    var t1 := Hex2(h1) + t2;
    assert line == ":" + (Hex2(h0) + t1);
    Hex2Scanned(h0, t1);
    Hex2Scanned(h1, t2);
    Hex2Scanned(h2, t3);
    Hex2Scanned(h3, end);
    hide Hex2, Scan2;
    assert line[1..] == Hex2(h0) + t1 && line[3..] == t1 && line[5..] == t2 && line[7..] == t3 && line[9..] == end;
  }

  /** The sum of a record's bytes and its checksum is accepted. */
  lemma Verified(bytes: seq<byte>, st: State, stale: byte)
    ensures Verify(Hex2(Check(bytes)), Total(bytes), st, stale) == Next(st)
  {
    hide Hex2, Scan2, Total, Byte, Nat;
    var c := Check(bytes);
    assert Hex2(c) + "" == Hex2(c);
    Hex2Scanned(c, "");
    ByteValue(255 - Total(bytes) + 1);
    TotalRange(bytes);
  }

  lemma HeaderSum(h0: byte, h1: byte, h2: byte, h3: byte, more: seq<byte>)
    ensures SumOn(Add(Add(Add(Add(0, h0), h1), h2), h3), more) == Total([h0, h1, h2, h3] + more)
  {
    SumIsTotal([h0, h1, h2, h3] + more);
    SumOnConcat(0, [h0, h1, h2, h3], more);
    hide Add;
    assert SumOn(Add(Add(Add(0, h0), h1), h2), [h3]) == Add(Add(Add(Add(0, h0), h1), h2), h3);
    assert SumOn(Add(Add(0, h0), h1), [h2, h3]) == SumOn(Add(Add(Add(0, h0), h1), h2), [h3]);
    assert SumOn(Add(0, h0), [h1, h2, h3]) == SumOn(Add(Add(0, h0), h1), [h2, h3]);
  }

  /** A data record whose count is right. */
  lemma DataRead(count: byte, hi: byte, lo: byte, chunk: seq<byte>, st: State, stale: byte)
    requires Nat(count) == |chunk| && 256 * Nat(hi) + Nat(lo) == st.full % 0x10000 && st.full + |chunk| <= |st.buf|
    ensures ReadLine(Record([count, hi, lo, 0] + chunk), st, stale)
      == Next(State(st.full + |chunk|, Stored(st.buf, st.full, chunk)))
  {
    var bytes := [count, hi, lo, 0] + chunk;
    FieldsRead(count, hi, lo, 0, chunk);
    hide Record, Scan2, Plain, Digits;
    SameAddress(st.full);
    var sum := Add(Add(Add(Add(0, count), hi), lo), 0);
    assert st.(full := st.full) == st;
    BytesLoaded(chunk, Hex2(Check(bytes)), st, sum);
    HeaderSum(count, hi, lo, 0, chunk);
    Verified(bytes, State(st.full + |chunk|, Stored(st.buf, st.full, chunk)), stale);
    hide HexText, LoadBytes, Stored, Hex2, Check, Total, Add, Nat, Low16, Verify;
  }

  lemma SameAddress(full: nat)
    ensures Low16(full % 0x10000, full) == full
  {
  }

  /** The address record before each 64 KB of data. */
  lemma AddressRead(st: State, stale: byte)
    requires st.full % 0x10000 == 0 && st.full < 0x1_0000_0000
    ensures ReadLine(Record(AddressBytes(st.full / 0x10000)), st, stale) == Next(st)
  {
    hide *;
    var hi, lo := AddressShape(st.full);
    BaseRead(hi, lo, st, stale);
  }

  lemma AddressShape(full: nat) returns (hi: byte, lo: byte)
    requires full < 0x1_0000_0000
    ensures AddressBytes(full / 0x10000) == [0x02, 0, 0, 0x04] + [hi, lo] && 256 * Nat(hi) + Nat(lo) == full / 0x10000
  {
    var base := full / 0x10000;
    assert base < 0x10000;
    hi, lo := BaseShape(base);
  }

  lemma BaseShape(base: nat) returns (hi: byte, lo: byte)
    requires base < 0x10000
    ensures AddressBytes(base) == [0x02, 0, 0, 0x04] + [hi, lo] && 256 * Nat(hi) + Nat(lo) == base
  {
    hide Byte, Nat;
    hi, lo := Byte(base / 256), Byte(base);
    LowBytesRead(base);
    SmallBase(base);
    assert [0x02, 0, 0, 0x04] + [hi, lo] == AddressBytes(base);
  }

  lemma SmallBase(base: nat)
    requires base < 0x10000
    ensures base % 0x10000 == base
  {
  }

  lemma BaseRead(hi: byte, lo: byte, st: State, stale: byte)
    requires 256 * Nat(hi) + Nat(lo) == st.full / 0x10000
    ensures ReadLine(Record([0x02, 0, 0, 0x04] + [hi, lo]), st, stale) == Next(st)
  {
    var bytes := [0x02, 0, 0, 0x04] + [hi, lo];
    hide Nat, Byte;
    FieldsRead(0x02, 0, 0, 0x04, [hi, lo]);
    hide Record;
    AddressText(hi, lo, Hex2(Check(bytes)));
    hide HexText, Scan2;
    BaseSum(hi, lo);
    Verified(bytes, st, stale);
    hide Hex2, Check, Total, Add, Verify;
    assert st.(full := st.full) == st;
  }

  lemma BaseSum(hi: byte, lo: byte)
    ensures Add(Add(Add(Add(Add(Add(0, 0x02), 0), 0), 0x04), hi), lo) == Total([0x02, 0, 0, 0x04] + [hi, lo])
  {
    HeaderSum(0x02, 0, 0, 0x04, [hi, lo]);
    hide Add, Total;
    var sum := Add(Add(Add(Add(0, 0x02), 0), 0), 0x04);
    assert [hi, lo][1..] == [lo] && [lo][1..] == [];
    assert SumOn(sum, [hi, lo]) == SumOn(Add(sum, hi), [lo]) == Add(Add(sum, hi), lo);
  }

  lemma AddressText(hi: byte, lo: byte, end: string)
    ensures var rest := HexText([hi, lo]) + end;
      Digits(rest, 4) && Scan2(rest) == Some(hi) && Scan2(rest[2..]) == Some(lo) && rest[4..] == end
  {
    TextDigits([hi, lo]);
    hide IsHex;
    assert HexText([hi, lo]) == Hex2(hi) + HexText([lo]);
    assert HexText([lo]) == Hex2(lo) + HexText([]) == Hex2(lo);
    hide HexText;
    var rest := Hex2(hi) + Hex2(lo) + end;
    assert rest == Hex2(hi) + (Hex2(lo) + end);
    Hex2Scanned(hi, Hex2(lo) + end);
    Hex2Scanned(lo, end);
    hide Hex2, Scan2;
    assert rest[2..] == Hex2(lo) + end && rest[4..] == end;
  }

  lemma EndRead(st: State, stale: byte)
    requires st.full <= |st.buf|
    ensures ReadLine(Record(END), st, stale) == Stop(Loaded(st.buf[..st.full]))
  {
    FieldsRead(0, 0, 0, 0x01, []);
    assert END == [0, 0, 0, 0x01] + [];
    hide Record, Scan2, HexText, Hex2, Check;
  }

  /** The data before the next record are in the buffer. */
  ghost predicate Reached(data: seq<byte>, i: nat, st: State) {
    && |data| <= |st.buf| && st.full == (if i < |data| then i else |data|)
    && st.buf[..st.full] == data[..st.full]
  }

  /** The bytes of the record at `i`. */
  function Chunk(data: seq<byte>, i: nat): (c: seq<byte>)
    requires i < |data|
    ensures |c| == if |data| - i < 16 then |data| - i else 16
  {
    if |data| - i < 16 then data[i..] else data[i..i + 16]
  }

  /** A data record brings the reader to the next one, unless it is the last one with 15 bytes. */
  lemma DataLineRead(data: seq<byte>, i: nat, st: State, stale: byte)
    requires i < |data| < 0x1_0000_0000 && Reached(data, i, st) && |data| - i != 15
    ensures var next := State(st.full + |Chunk(data, i)|, Stored(st.buf, st.full, Chunk(data, i)));
      ReadLine(Record(DataBytes(data, i)), st, stale) == Next(next) && Reached(data, i + 16, next)
  {
    var chunk := Chunk(data, i);
    ReachedNext(data, i, st);
    assert st.full == i && st.full + |chunk| <= |st.buf|;
    hide *;
    var count, hi, lo := DataShape(data, i);
    DataRead(count, hi, lo, chunk, st, stale);
  }

  lemma ReachedNext(data: seq<byte>, i: nat, st: State)
    requires i < |data| && Reached(data, i, st)
    ensures st.full + |Chunk(data, i)| <= |st.buf|
    ensures Reached(data, i + 16, State(st.full + |Chunk(data, i)|, Stored(st.buf, st.full, Chunk(data, i))))
  {
    StoredPrefix(st.buf, data, i, Chunk(data, i));
    hide Stored;
  }

  lemma DataShape(data: seq<byte>, i: nat) returns (count: byte, hi: byte, lo: byte)
    requires i < |data| && |data| - i != 15
    ensures DataBytes(data, i) == [count, hi, lo, 0] + Chunk(data, i)
    ensures Nat(count) == |Chunk(data, i)| && 256 * Nat(hi) + Nat(lo) == i % 0x10000
  {
    count, hi, lo := if |data| - i < 0x0F then Byte(|data| - i) else 0x10, Byte(i / 256), Byte(i);
    CountRead(|data| - i);
    LowBytesRead(i);
    hide Byte, Nat;
  }

  lemma CountRead(left: nat)
    requires left > 0
    ensures Nat(if left < 0x0F then Byte(left) else 0x10) == if left < 15 then left else 16
  {
    if left < 15 {
      ByteValue(left);
      hide Byte, Nat;
    }
  }

  lemma LowBytesRead(i: nat)
    ensures 256 * Nat(Byte(i / 256)) + Nat(Byte(i)) == i % 0x10000
  {
    ByteValue(i / 256);
    ByteValue(i);
    hide Byte, Nat;
    assert i / 256 / 256 == i / 0x10000;
  }

  lemma StoredPrefix(buf: seq<byte>, data: seq<byte>, i: nat, chunk: seq<byte>)
    requires i + |chunk| <= |data| <= |buf| && chunk == data[i..i + |chunk|] && buf[..i] == data[..i]
    ensures Stored(buf, i, chunk)[..i + |chunk|] == data[..i + |chunk|]
  {
    assert Stored(buf, i, chunk)[..i + |chunk|] == buf[..i] + chunk;
  }

  /** All records up to the end. */
  lemma {:induction false} LinesRead(data: seq<byte>, i: nat, st: State, stale: nat -> byte)
    requires i % 16 == 0 && |data| < 0x1_0000_0000 && Reached(data, i, st) && |data| % 16 != 15
    ensures ReadLines(Lines(data, i), st, stale) == Loaded(data)
    decreases |data| - i
  {
    assert |data| <= |st.buf| && (i < |data| ==> st.full == i);
    hide *;
    if i >= |data| {
      EndReached(data, i, st, stale);
    } else {
      if i % 0x10000 == 0 { AddressReadAnyway(st); }
      LeftOver(|data|, i);
      DataLineRead(data, i, st, stale(LinesLeft(data, i)));
      var next := State(st.full + |Chunk(data, i)|, Stored(st.buf, st.full, Chunk(data, i)));
      LinesRead(data, i + 16, next, stale);
      LinesSplit(data, i, st, stale, next);
    }
  }

  lemma EndReached(data: seq<byte>, i: nat, st: State, stale: nat -> byte)
    requires i >= |data| && Reached(data, i, st)
    ensures ReadLines(Lines(data, i), st, stale) == Loaded(data)
  {
    EndRead(st, stale(1));
    assert Lines(data, i) == [Record(END)];
    assert st.buf[..st.full] == data;
    hide Record, ReadLine;
  }

  lemma LeftOver(n: nat, i: nat)
    requires i % 16 == 0 && i < n && n % 16 != 15
    ensures n - i != 15 && (i + 16) % 16 == 0
  {
  }

  /** The lines that are left at a data record. */
  function LinesLeft(data: seq<byte>, i: nat): nat { 1 + |Lines(data, i + 16)| }

  lemma AddressReadAnyway(st: State)
    requires st.full % 0x10000 == 0 && st.full < 0x1_0000_0000
    ensures forall b :: ReadLine(Record(AddressBytes(st.full / 0x10000)), st, b) == Next(st)
  {
    forall b ensures ReadLine(Record(AddressBytes(st.full / 0x10000)), st, b) == Next(st) { AddressRead(st, b); }
  }

  /** One round of the writer, read back. */
  lemma LinesSplit(data: seq<byte>, i: nat, st: State, stale: nat -> byte, next: State)
    requires i < |data|
    requires i % 0x10000 == 0 ==> forall b :: ReadLine(Record(AddressBytes(i / 0x10000)), st, b) == Next(st)
    requires ReadLine(Record(DataBytes(data, i)), st, stale(LinesLeft(data, i))) == Next(next)
    ensures ReadLines(Lines(data, i), st, stale) == ReadLines(Lines(data, i + 16), next, stale)
  {
    hide *;
    AddressSkipped(data, i, st, stale);
    FirstLine([Record(DataBytes(data, i))], Lines(data, i + 16), st, stale);
    LeftIs(data, i);
  }

  lemma LeftIs(data: seq<byte>, i: nat)
    ensures LinesLeft(data, i) == 1 + |Lines(data, i + 16)|
  {
  }

  lemma FirstLine(first: seq<string>, more: seq<string>, st: State, stale: nat -> byte)
    requires |first| == 1
    ensures ReadLines(first + more, st, stale) ==
      match ReadLine(first[0], st, stale(1 + |more|))
      case Stop(outcome) => outcome
      case Next(next) => ReadLines(more, next, stale)
  {
    hide ReadLine;
    assert (first + more)[0] == first[0] && (first + more)[1..] == more;
  }

  /** The address record, where there is one, changes nothing. */
  lemma AddressSkipped(data: seq<byte>, i: nat, st: State, stale: nat -> byte)
    requires i < |data|
    requires i % 0x10000 == 0 ==> forall b :: ReadLine(Record(AddressBytes(i / 0x10000)), st, b) == Next(st)
    ensures ReadLines(Lines(data, i), st, stale)
      == ReadLines([Record(DataBytes(data, i))] + Lines(data, i + 16), st, stale)
  {
    hide *;
    var rest := [Record(DataBytes(data, i))] + Lines(data, i + 16);
    LinesAre(data, i, rest);
    if i % 0x10000 == 0 { FirstLine([Record(AddressBytes(i / 0x10000))], rest, st, stale); }
  }

  lemma LinesAre(data: seq<byte>, i: nat, rest: seq<string>)
    requires i < |data| && rest == [Record(DataBytes(data, i))] + Lines(data, i + 16)
    ensures Lines(data, i) == if i % 0x10000 == 0 then [Record(AddressBytes(i / 0x10000))] + rest else rest
  {
    hide Record, DataBytes, AddressBytes;
  }

  /** A last record with 15 bytes claims 16: the reader takes the checksum for the sixteenth and finds none then. */
  lemma ShortLineRead(data: seq<byte>, i: nat, st: State, stale: byte)
    requires i < |data| < 0x1_0000_0000 && Reached(data, i, st) && |data| - i == 15 && |data| < |st.buf|
    ensures match ReadLine(Record(DataBytes(data, i)), st, stale)
      case Next(next) => next.full == |data| + 1 && |next.buf| == |st.buf|
      case Stop(outcome) => outcome == Refused(3)
  {
    var chunk := data[i..];
    LowBytesRead(i);
    assert DataBytes(data, i) == [0x10, Byte(i / 256), Byte(i), 0] + chunk;
    assert Nat(0x10) == 16;
    hide Byte, Nat, Record, ReadLine, DataBytes;
    OverrunRead(Byte(i / 256), Byte(i), chunk, st, stale);
  }

  lemma OverrunRead(hi: byte, lo: byte, chunk: seq<byte>, st: State, stale: byte)
    requires |chunk| == 15 && Nat(0x10) == 16 && 256 * Nat(hi) + Nat(lo) == st.full % 0x10000 && st.full + 15 < |st.buf|
    ensures match ReadLine(Record([0x10, hi, lo, 0] + chunk), st, stale)
      case Next(next) => next.full == st.full + 16 && |next.buf| == |st.buf|
      case Stop(outcome) => outcome == Refused(3)
  {
    var bytes := [0x10, hi, lo, 0] + chunk;
    FieldsRead(0x10, hi, lo, 0, chunk);
    hide Nat, Byte, Record, Scan2, ReadBody;
    var sum := Add(Add(Add(Add(0, 0x10), hi), lo), 0);
    OverrunLoaded(chunk, Check(bytes), sum, st, stale);
  }

  lemma OverrunLoaded(chunk: seq<byte>, c: byte, sum: nat, st: State, stale: byte)
    requires |chunk| == 15 && st.full + 15 < |st.buf|
    ensures match ReadBody(0, 16, st.full % 0x10000, HexText(chunk) + Hex2(c), sum, st, stale)
      case Next(next) => next.full == st.full + 16 && |next.buf| == |st.buf|
      case Stop(outcome) => outcome == Refused(3)
  {
    SameAddress(st.full);
    assert st.(full := st.full) == st;
    var more := chunk + [c];
    ChecksumText(chunk, c);
    BytesLoaded(more, "", st, sum);
    VerifyShape("", SumOn(sum, more), State(st.full + 16, Stored(st.buf, st.full, more)), stale);
    hide HexText, Hex2, Add, Low16, LoadBytes, Verify, Stored, SumOn;
  }

  lemma ChecksumText(chunk: seq<byte>, c: byte)
    ensures HexText(chunk) + Hex2(c) == HexText(chunk + [c]) + ""
  {
    HexTextPrefix(chunk, [c]);
    assert HexText([c]) == Hex2(c) + HexText([]) == Hex2(c);
  }

  lemma VerifyShape(s: string, sum: nat, st: State, stale: byte)
    ensures Verify(s, sum, st, stale) == Next(st) || Verify(s, sum, st, stale) == Stop(Refused(3))
  {
    hide Scan2, Nat;
  }

  /** Not what was written, but an error or one byte more. */
  predicate Spoilt(outcome: Outcome, data: seq<byte>) {
    outcome == Refused(3) || (outcome.Loaded? && |outcome.bytes| == |data| + 1)
  }

  lemma {:induction false} ShortLinesRead(data: seq<byte>, i: nat, st: State, stale: nat -> byte)
    requires i % 16 == 0 && i < |data| < 0x1_0000_0000 && Reached(data, i, st) && |data| % 16 == 15 && |data| < |st.buf|
    ensures Spoilt(ReadLines(Lines(data, i), st, stale), data)
    decreases |data| - i
  {
    if i % 0x10000 == 0 { AddressReadAnyway(st); }
    hide Record, ReadLine, DataBytes, AddressBytes, ReadLines, Lines, Stored;
    if |data| - i == 15 {
      LastLineRead(data, i, st, stale);
    } else {
      DataLineRead(data, i, st, stale(LinesLeft(data, i)));
      var next := State(st.full + |Chunk(data, i)|, Stored(st.buf, st.full, Chunk(data, i)));
      LeftLonger(|data|, i);
      ShortLinesRead(data, i + 16, next, stale);
      LinesSplit(data, i, st, stale, next);
    }
  }

  lemma LeftLonger(n: nat, i: nat)
    requires i % 16 == 0 && i < n && n % 16 == 15 && n - i != 15
    ensures i + 16 < n && (i + 16) % 16 == 0
  {
  }

  lemma LastLineRead(data: seq<byte>, i: nat, st: State, stale: nat -> byte)
    requires |data| - i == 15 && |data| < 0x1_0000_0000 && Reached(data, i, st) && |data| < |st.buf|
    requires i % 0x10000 == 0 ==> forall b :: ReadLine(Record(AddressBytes(i / 0x10000)), st, b) == Next(st)
    ensures Spoilt(ReadLines(Lines(data, i), st, stale), data)
  {
    ShortLineRead(data, i, st, stale(LinesLeft(data, i)));
    hide *;
    match ReadLine(Record(DataBytes(data, i)), st, stale(LinesLeft(data, i))) {
      case Next(next) =>
        LinesSplit(data, i, st, stale, next);
        EndAfter(data, i, next, stale);
      case Stop(outcome) =>
        LinesStop(data, i, st, stale);
    }
  }

  lemma EndAfter(data: seq<byte>, i: nat, next: State, stale: nat -> byte)
    requires |data| - i == 15 && next.full == |data| + 1 <= |next.buf|
    ensures Spoilt(ReadLines(Lines(data, i + 16), next, stale), data)
  {
    assert Lines(data, i + 16) == [Record(END)];
    EndRead(next, stale(1));
    hide Record, ReadLine;
  }

  lemma LinesStop(data: seq<byte>, i: nat, st: State, stale: nat -> byte)
    requires i < |data| && ReadLine(Record(DataBytes(data, i)), st, stale(LinesLeft(data, i))).Stop?
    requires i % 0x10000 == 0 ==> forall b :: ReadLine(Record(AddressBytes(i / 0x10000)), st, b) == Next(st)
    ensures ReadLines(Lines(data, i), st, stale) ==
      ReadLine(Record(DataBytes(data, i)), st, stale(LinesLeft(data, i))).outcome
  {
    hide *;
    AddressSkipped(data, i, st, stale);
    FirstLine([Record(DataBytes(data, i))], Lines(data, i + 16), st, stale);
    LeftIs(data, i);
  }

  /** Data written and read back survive exactly when their length does not leave 15 bytes for the last record, the one
      number of bytes that the writer mislabels. This holds for every content of the buffer and, line by line, of the
      variable that the reader leaves unset. */
  lemma RoundTrip(data: seq<byte>, buf: seq<byte>, stale: nat -> byte)
    requires |data| < 0x1_0000_0000 && |data| < |buf|
    ensures var outcome := ReadLines(Lines(data, 0), State(0, buf), stale);
      if |data| % 16 == 15 then Spoilt(outcome, data) else outcome == Loaded(data)
  {
    if |data| % 16 == 15 {
      ShortLinesRead(data, 0, State(0, buf), stale);
    } else {
      LinesRead(data, 0, State(0, buf), stale);
    }
  }

  /** The number of characters of a text file with line ends of two characters. */
  function TextSize(lines: seq<string>): nat {
    if lines == [] then 0 else |lines[0]| + 2 + TextSize(lines[1..])
  }

  /** Half the size of the file is room enough for the data. */
  lemma {:induction false} RoomEnough(data: seq<byte>, i: nat)
    ensures TextSize(Lines(data, i)) / 2 > if i < |data| then |data| - i else 0
    decreases |data| - i
  {
    if i >= |data| {
      assert Lines(data, i) == [Record(END)];
      hide Check;
      assert |Record(END)| >= 8;
    } else {
      RoomEnough(data, i + 16);
      SizeOfLines(data, i);
      hide Check, Byte;
      assert |Record(DataBytes(data, i))| >= 8 + 2 * |Chunk(data, i)|;
    }
  }

  lemma SizeOfLines(data: seq<byte>, i: nat)
    requires i < |data|
    ensures TextSize(Lines(data, i)) >= |Record(DataBytes(data, i))| + 2 + TextSize(Lines(data, i + 16))
  {
    hide Record, DataBytes, AddressBytes, Check;
    var more, r := Lines(data, i + 16), Record(DataBytes(data, i));
    assert ([r] + more)[1..] == more;
    assert TextSize([r] + more) == |r| + 2 + TextSize(more);
    if i % 0x10000 == 0 {
      var a := Record(AddressBytes(i / 0x10000));
      assert Lines(data, i) == [a] + ([r] + more);
      assert ([a] + ([r] + more))[1..] == [r] + more;
    } else {
      assert Lines(data, i) == [r] + more;
    }
  }
}
