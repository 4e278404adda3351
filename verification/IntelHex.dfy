/** Intel HEX records as bitfile.cpp writes and reads them. */
module IntelHex {
  import opened Bits
  import opened Octets

  // Hexadecimal text

  function HexDigit(n: byte): char {
    if n == 0 then '0' else if n == 1 then '1' else if n == 2 then '2' else if n == 3 then '3' else if n == 4 then '4'
    else if n == 5 then '5' else if n == 6 then '6' else if n == 7 then '7' else if n == 8 then '8'
    else if n == 9 then '9'
    else if n == 10 then 'A' else if n == 11 then 'B' else if n == 12 then 'C' else if n == 13 then 'D'
    else if n == 14 then 'E' else 'F'
  }

  predicate IsHex(c: char) { '0' <= c <= '9' || 'A' <= c <= 'F' || 'a' <= c <= 'f' }

  function HexValue(c: char): byte {
    if c == '0' then 0 else if c == '1' then 1 else if c == '2' then 2 else if c == '3' then 3 else if c == '4' then 4
    else if c == '5' then 5 else if c == '6' then 6 else if c == '7' then 7 else if c == '8' then 8
    else if c == '9' then 9
    else if c == 'A' || c == 'a' then 10 else if c == 'B' || c == 'b' then 11 else if c == 'C' || c == 'c' then 12
    else if c == 'D' || c == 'd' then 13 else if c == 'E' || c == 'e' then 14 else 15
  }

  /** "%02X" */
  function Hex2(b: byte): (t: string)
    ensures |t| == 2
  {
    [HexDigit(b >> 4), HexDigit(b & 0x0F)]
  }

  function HexText(bytes: seq<byte>): (t: string)
    ensures |t| == 2 * |bytes|
  {
    if bytes == [] then "" else Hex2(bytes[0]) + HexText(bytes[1..])
  }

  /** The text from a position on; nothing behind the end. */
  function Drop(s: string, n: nat): string { if n <= |s| then s[n..] else "" }

  /** sscanf with "%2x": one or two hexadecimal digits, or nothing. */
  function Scan2(s: string): Option<byte> {
    if s == "" || !IsHex(s[0]) then None
    else if |s| == 1 || !IsHex(s[1]) then Some(HexValue(s[0]))
    else Some((HexValue(s[0]) << 4) | HexValue(s[1]))
  }

  predicate Digits(s: string, n: nat) { |s| >= n && forall i :: 0 <= i < n ==> IsHex(s[i]) }

  /** Characters for which sscanf has other rules: white space, signs, and the x of a prefix. */
  predicate Special(c: char) {
    || c == ' ' || c == '\t' || c == '\n' || c == '\r' || c == '\U{0B}' || c == '\U{0C}'
    || c == '+' || c == '-' || c == 'x' || c == 'X'
  }

  predicate Plain(s: string) { forall i :: 0 <= i < |s| ==> !Special(s[i]) }

  // Records

  /** Addition in an unsigned char. */
  function Add(sum: nat, b: byte): nat { (sum + Nat(b)) % 256 }

  function Total(bytes: seq<byte>): nat
  {
    if bytes == [] then 0 else Add(Total(bytes[..|bytes| - 1]), bytes[|bytes| - 1])
  }

  /** The checksum of a record: with it, the bytes of the record add up to zero (section 2 of the Intel HEX
      specification). */
  function Check(bytes: seq<byte>): byte { Byte(255 - Total(bytes) + 1) }

  lemma CheckCancels(bytes: seq<byte>)
    ensures Total(bytes + [Check(bytes)]) == 0
  {
    TotalAppend(bytes, Check(bytes));
    ByteValue(255 - Total(bytes) + 1);
    TotalRange(bytes);
    hide Byte, Nat, Total;
  }

  lemma TotalAppend(bytes: seq<byte>, b: byte)
    ensures Total(bytes + [b]) == Add(Total(bytes), b)
  {
    assert (bytes + [b])[..|bytes|] == bytes;
    hide Add;
  }

  lemma TotalRange(bytes: seq<byte>)
    ensures 0 <= Total(bytes) < 256
  {
  }

  function Record(bytes: seq<byte>): string { ":" + HexText(bytes) + Hex2(Check(bytes)) }

  /** The bytes of the data record for `data[i..]`, with the length that the writer puts in front. */
  function DataBytes(data: seq<byte>, i: nat): seq<byte>
    requires i < |data|
  {
    var left := |data| - i;
    [if left < 0x0F then Byte(left) else 0x10, Byte(i / 256), Byte(i), 0]
      + (if left < 16 then data[i..] else data[i..i + 16])
  }

  function AddressBytes(base: nat): seq<byte> { [0x02, 0, 0, 0x04, Byte(base / 256), Byte(base)] }

  const END: seq<byte> := [0, 0, 0, 0x01]

  /** The lines of a file from position `i` on, a multiple of 16. */
  function Lines(data: seq<byte>, i: nat): seq<string>
    decreases |data| - i
  {
    if i >= |data| then [Record(END)]
    else
      (if i % 0x10000 == 0 then [Record(AddressBytes(i / 0x10000))] else []) + [Record(DataBytes(data, i))]
        + Lines(data, i + 16)
  }

  // Reading

  /** The address counter and the buffer of the reader. */
  datatype State = State(full: nat, buf: seq<byte>)

  /** Undefined stands for a line behind whose signature digits are missing or special characters stand, or an address
      outside the buffer. */
  datatype Outcome = Loaded(bytes: seq<byte>) | Refused(code: int) | Undefined

  datatype Step = Next(st: State) | Stop(outcome: Outcome)

  datatype Read = Read(st: State, sum: nat, rest: string)

  /** `count` bytes from the text into the buffer. */
  function LoadBytes(s: string, count: nat, st: State, sum: nat): Option<Read>
    decreases count
  {
    if count == 0 then Some(Read(st, sum, s))
    else
      match Scan2(s)
      case None => None
      case Some(v) =>
        if st.full >= |st.buf| then None
        else LoadBytes(Drop(s, 2), count - 1, State(st.full + 1, st.buf[st.full := v]), Add(sum, v))
  }

  /** `count` bytes that only count for the checksum. */
  function SkipBytes(s: string, count: nat, sum: nat): Option<(nat, string)>
    decreases count
  {
    if count == 0 then Some((sum, s))
    else
      match Scan2(s)
      case None => None
      case Some(v) => SkipBytes(Drop(s, 2), count - 1, Add(sum, v))
  }

  function BitOr(a: nat, b: nat): nat
    decreases a + b
  {
    if a == 0 then b else if b == 0 then a
    else (if a % 2 == 1 || b % 2 == 1 then 1 else 0) + 2 * BitOr(a / 2, b / 2)
  }

  function Low16(address: nat, full: nat): nat { full - full % 0x10000 + address }

  /** The end of a record: the checksum, or whatever was in the variable when there is none. */
  function Verify(s: string, sum: nat, st: State, stale: byte): Step {
    var checksum := match Scan2(s) case Some(v) => v case None => stale;
    if Nat(checksum) != (256 - sum) % 256 then Stop(Refused(3)) else Next(st)
  }

  /** A colon and at least seven hexadecimal digits: what the scan of count, address and type takes. */
  predicate Signature(line: string) { |line| >= 8 && line[0] == ':' && Digits(line[1..], 7) }

  function ReadLine(line: string, st: State, stale: byte): Step {
    if line == "" || line[0] != ':' then Stop(Refused(1))
    else if !Plain(line) then Stop(Undefined)
    else if !Signature(line) then Stop(Refused(1))
    else if |line| == 8 then Stop(Undefined)
    else
      var count, hi, lo, kind := Field(line, 1), Field(line, 3), Field(line, 5), Field(line, 7);
      ReadBody(kind, Nat(count), 256 * Nat(hi) + Nat(lo), line[9..],
        Add(Add(Add(Add(0, count), hi), lo), kind), st, stale)
  }

  /** The digits at a position of a line. */
  function Field(line: string, at: nat): byte
    requires 0 < at < 8 && Signature(line)
  {
    assert line[at..][0] == line[1..][at - 1];
    Scan2(line[at..]).value
  }

  /** A line behind its type. */
  function ReadBody(kind: byte, count: nat, address: nat, rest: string, sum: nat, st: State, stale: byte): Step {
    if kind == 0 then
      match LoadBytes(rest, count, st.(full := Low16(address, st.full)), sum)
      case None => Stop(Undefined)
      case Some(r) => Verify(r.rest, r.sum, r.st, stale)
    else if kind == 1 then
      if st.full <= |st.buf| then Stop(Loaded(st.buf[..st.full])) else Stop(Undefined)
    else if kind == 2 || kind == 4 then
      if !Digits(rest, 4) then Stop(Undefined)
      else
        assert rest[2..][0] == rest[2];
        var uhi, ulo := Scan2(rest).value, Scan2(rest[2..]).value;
        var upper := 256 * Nat(uhi) + Nat(ulo);
        Verify(rest[4..], Add(Add(sum, uhi), ulo), st.(full := NewBase(kind, upper, st.full)), stale)
    else if kind == 5 && !Digits(rest, 8) then Stop(Undefined)
    else if kind == 3 || kind == 5 then
      match SkipBytes(rest, if kind == 3 then count else 4, sum)
      case None => Stop(Undefined)
      case Some(r) => Verify(r.1, r.0, st, stale)
    else Stop(Refused(2))
  }

  /** The address after an extended segment (2) or linear (4) address record. */
  function NewBase(kind: byte, upper: nat, full: nat): nat {
    if kind == 4 then (if full / 0x10000 != upper then full % 0x10000 + upper * 0x10000 else full)
    else if full / 16 != upper then BitOr(full % 0x10000, upper * 16) else full
  }

  /** `stale(n)` is what the variable for the checksum holds, uninitialised, when `n` lines are left. */
  function ReadLines(lines: seq<string>, st: State, stale: nat -> byte): Outcome {
    if lines == [] then Refused(4)
    else
      match ReadLine(lines[0], st, stale(|lines|))
      case Stop(outcome) => outcome
      case Next(next) => ReadLines(lines[1..], next, stale)
  }
}
