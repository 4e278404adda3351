/** Loading and saving configuration files (bitfile.cpp). */
module BitFile {
  import opened BitFormat
  import opened Bits
  import opened Division
  import opened IntelHex
  import opened IntelHexRoundTrip
  import opened Octets

  datatype Style = StyleBit | StyleBin | StyleBpi | StyleMcs | StyleIhex

  datatype Saved = Binary(bytes: seq<byte>) | Text(lines: seq<string>) | Nothing

  /** A file that is open for reading. */
  class ByteFile {
    const bytes: seq<byte>
    var pos: nat
    var eof: bool

    ghost predicate Valid()
      reads this
    {
      pos <= |bytes|
    }

    ghost function Rest(): seq<byte>
      requires Valid()
      reads this
    {
      bytes[pos..]
    }

    constructor (bytes: seq<byte>)
      ensures Valid() && Rest() == bytes && !eof && this.bytes == bytes
    {
      this.bytes, pos, eof := bytes, 0, false;
    }

    /** One byte; at the end of the file the variable keeps what was in it. */
    method ReadByte(stale: byte) returns (b: byte)
      requires Valid()
      modifies this
      ensures Valid()
      ensures if old(Rest()) == [] then eof && b == stale && Rest() == []
        else eof == old(eof) && b == old(Rest())[0] && Rest() == old(Rest())[1..]
    {
      if pos == |bytes| {
        eof := true;
        return stale;
      }
      b := bytes[pos];
      pos := pos + 1;
    }
  }

  class BitFile {
    var ncdFilename: seq<byte>
    var partName: seq<byte>
    var date: seq<byte>
    var dtime: seq<byte>
    var length: nat
    var buffer: array<byte>
    var rlength: nat
    var error: bool

    ghost predicate Valid()
      reads this
    {
      length <= buffer.Length && length < 0x1_0000_0000
    }

    /** The loaded data. */
    ghost function Data(): seq<byte>
      requires Valid()
      reads this, buffer
    {
      buffer[..length]
    }

    ghost function Fields(): Header
      reads this
    {
      Header(ncdFilename, partName, date, dtime)
    }

    /** The object holds what was read; data behind the end are reported. */
    ghost predicate LoadedAs(p: Parsed, reported: bool)
      requires p.Complete?
      reads this, buffer
    {
      && Fields() == p.h && length == |p.data| <= buffer.Length && buffer[..length] == p.data
      && error == (reported || p.extra)
    }

    constructor ()
      ensures Valid() && Data() == [] && Fields() == Header([], [], [], []) && rlength == 0 && !error && fresh(buffer)
    {
      ncdFilename, partName, date, dtime := [], [], [], [];
      length, rlength, error := 0, 0, false;
      buffer := new byte[0];
    }

    /** A field: its length and its bytes, which are added to `field`. */
    method ReadField(field: seq<byte>, file: ByteFile) returns (out: seq<byte>)
      requires file.Valid()
      modifies file
      ensures file.Valid()
      ensures var s := old(file.Rest());
        if |s| < 2 || |s| < 2 + Length16(s[0], s[1]) then file.eof
        else
          var n := Length16(s[0], s[1]);
          file.eof == old(file.eof) && out == field + s[2..2 + n] && file.Rest() == s[2 + n..]
    {
      var t0: byte, t1: byte := *, *;
      t0 := file.ReadByte(t0);
      t1 := file.ReadByte(t1);
      var len := Length16(t0, t1);
      hide Length16;
      out := ReadBytes(field, len, file);
    }

    method ReadBytes(field: seq<byte>, len: nat, file: ByteFile) returns (out: seq<byte>)
      requires file.Valid()
      modifies file
      ensures file.Valid()
      ensures var s := old(file.Rest());
        if |s| < len then file.eof
        else file.eof == old(file.eof) && out == field + s[..len] && file.Rest() == s[len..]
    {
      ghost var s := file.Rest();
      out := field;
      var i := 0;
      while i < len
        invariant 0 <= i <= len && file.Valid()
        invariant if |s| < i then file.eof
          else file.eof == old(file.eof) && out == field + s[..i] && file.Rest() == s[i..]
      {
        var b: byte := *;
        b := file.ReadByte(b);
        if |s| > i { OneByteMore(field, s, i); }
        out := out + [b];
        i := i + 1;
      }
    }

    /** The data field: a length and that many bytes, each with its bits reversed. Failure stands for the exception. */
    method ProcessData(file: ByteFile) returns (ok: bool)
      requires file.Valid()
      modifies file, this`length, this`buffer, this`error
      ensures file.Valid() && fresh(buffer) && length <= buffer.Length
      ensures var p := if old(file.eof) then Truncated else ParseData(old(file.Rest()), Fields());
        ok == p.Complete? && (ok ==> LoadedAs(p, old(error)))
    {
      ghost var s := file.Rest();
      ReadLength(file);
      ghost var data := file.Rest();
      ReadData(file);
      hide Length32;
      if file.eof { return false; }
      var t: byte := *;
      t := file.ReadByte(t);
      if !file.eof {
        error := true;
      }
      assert |s| >= 4 && data == s[4..] && buffer[..length] == AllReversed(s[4..4 + length]);
      return true;
    }

    /** The loop over the data bytes. */
    method ReadData(file: ByteFile)
      requires file.Valid()
      modifies file, this`buffer
      ensures file.Valid() && fresh(buffer) && buffer.Length == length
      ensures var s := old(file.Rest());
        if old(file.eof) || |s| < length then file.eof
        else !file.eof && file.Rest() == s[length..] && buffer[..length] == AllReversed(s[..length])
    {
      ghost var s, ended := file.Rest(), file.eof;
      buffer := new byte[length];
      var i := 0;
      while i < length && !file.eof
        invariant 0 <= i <= length && file.Valid() && fresh(buffer) && buffer.Length == length
        invariant if ended || |s| < i then file.eof
          else !file.eof && file.Rest() == s[i..] && forall k :: 0 <= k < i ==> buffer[k] == BitReversed(s[k])
      {
        hide BitReversed;
        var b: byte := *;
        b := file.ReadByte(b);
        buffer[i] := BitReversed(b);
        i := i + 1;
      }
      hide BitReversed;
    }

    method ReadLength(file: ByteFile)
      requires file.Valid()
      modifies file, this`length
      ensures file.Valid()
      ensures var s := old(file.Rest());
        if old(file.eof) || |s| < 4 then file.eof else !file.eof && length == Length32(s) && file.Rest() == s[4..]
    {
      ghost var s := file.Rest();
      var t0: byte, t1: byte, t2: byte, t3: byte := *, *, *, *;
      t0 := file.ReadByte(t0);
      t1 := file.ReadByte(t1);
      t2 := file.ReadByte(t2);
      t3 := file.ReadByte(t3);
      hide Nat;
      length := Length32([t0, t1, t2, t3]);
    }

    /** Load a .bit file: 0, or 2 when the file ends before its data do. */
    method ReadBitfile(file: ByteFile) returns (r: int)
      requires file.Valid() && file.pos == 0 && !file.eof && Valid()
      modifies file, this
      ensures file.Valid()
      ensures var p := ParseFile(file.bytes, old(Fields()));
        if p.Complete? then r == 0 && LoadedAs(p, old(error)) else r == 2
    {
      assert file.Rest() == file.bytes;
      SkipPreamble(file);
      r := ReadFields(file);
    }

    method SkipPreamble(file: ByteFile)
      requires file.Valid() && !file.eof
      modifies file
      ensures file.Valid()
      ensures var s := old(file.Rest()); if |s| < 13 then file.eof else !file.eof && file.Rest() == s[13..]
    {
      ghost var s := file.Rest();
      for i := 0 to 13
        invariant file.Valid() && if |s| < i then file.eof else !file.eof && file.Rest() == s[i..]
      {
        var b: byte := *;
        b := file.ReadByte(b);
      }
    }

    /** The loop over the fields. */
    method ReadFields(file: ByteFile) returns (r: int)
      requires file.Valid()
      modifies file, this
      ensures file.Valid()
      ensures var p := if old(file.eof) then Truncated else ParseFields(old(file.Rest()), old(Fields()));
        if p.Complete? then r == 0 && LoadedAs(p, old(error)) else r == 2
    {
      ghost var result := if file.eof then Truncated else ParseFields(file.Rest(), Fields());
      var key: byte := *;
      while !file.eof
        invariant file.Valid() && error == old(error)
        invariant result == if file.eof then Truncated else ParseFields(file.Rest(), Fields())
        decreases !file.eof, |file.Rest()|
      {
        var done, ok;
        key, done, ok := ReadOne(key, file);
        if done { return if ok then 0 else 2; }
      }
      return 2;
    }

    /** One field; the data field is the last. */
    method ReadOne(last: byte, file: ByteFile) returns (key: byte, done: bool, ok: bool)
      requires file.Valid() && !file.eof
      modifies file, this
      ensures file.Valid()
      ensures !done ==> error == old(error) && (!file.eof ==> |file.Rest()| < |old(file.Rest())|)
      ensures done || ParseFields(old(file.Rest()), old(Fields()))
        == (if file.eof then Truncated else ParseFields(file.Rest(), Fields()))
      ensures done ==> ok == ParseFields(old(file.Rest()), old(Fields())).Complete?
      ensures done && ok ==> LoadedAs(ParseFields(old(file.Rest()), old(Fields())), old(error))
    {
      ghost var s, h := file.Rest(), Fields();
      FirstField(s, h);
      hide *;
      done, ok := false, false;
      key := file.ReadByte(last);
      if key == 0x65 {
        done := true;
        ok := ProcessData(file);
      } else {
        ReadOther(key, file, s, h);
      }
    }

    /** A field that is not the data field; `s` began with its key unless the file had ended. */
    method ReadOther(key: byte, file: ByteFile, ghost s: seq<byte>, ghost h: Header)
      requires file.Valid() && key != 0x65 && h == Fields()
      requires if s == [] then file.eof else !file.eof && key == s[0] && file.Rest() == s[1..]
      modifies file, this`ncdFilename, this`partName, this`date, this`dtime
      ensures file.Valid()
      ensures !file.eof ==> |file.Rest()| < |s|
      ensures ParseFields(s, h) == if file.eof then Truncated else ParseFields(file.Rest(), Fields())
    {
      FirstField(s, h);
      hide *;
      ghost var t := file.Rest();
      ReadNamedField(key, file);
      if s != [] && !file.eof {
        assert |t| >= 2 + Length16(t[0], t[1]);
      }
    }

    /** Read a field into the string that its key names. */
    method ReadNamedField(key: byte, file: ByteFile)
      requires file.Valid()
      modifies file, this`ncdFilename, this`partName, this`date, this`dtime
      ensures file.Valid()
      ensures var s := old(file.Rest());
        if |s| < 2 || |s| < 2 + Length16(s[0], s[1]) then file.eof
        else var n := Length16(s[0], s[1]);
          file.eof == old(file.eof) && file.Rest() == s[2 + n..]
            && Fields() == AddField(old(Fields()), key, s[2..2 + n])
    {
      hide Length16;
      if key == 0x61 {
        ncdFilename := ReadField(ncdFilename, file);
      } else if key == 0x62 {
        partName := ReadField(partName, file);
      } else if key == 0x63 {
        date := ReadField(date, file);
      } else if key == 0x64 {
        dtime := ReadField(dtime, file);
      } else {
        var dummy := ReadField([], file);
      }
    }

    /** Read Intel HEX lines: 0 at the end record, or the code of the first bad line. The buffer is half the size of the
        file. `stale` is what the reader's variable for the checksum holds on lines that have none. */
    method ReadMcsFile(lines: seq<string>, size: nat, stale: nat -> byte) returns (r: int, ghost start: seq<byte>)
      requires forall buf :: |buf| == size / 2 ==> ReadLines(lines, State(0, buf), stale) != Undefined
      modifies this`length, this`buffer
      ensures fresh(buffer)
      ensures |start| == size / 2
      ensures match ReadLines(lines, State(0, start), stale)
        case Loaded(bytes) => r == 0 && length == |bytes| <= buffer.Length && buffer[..length] == bytes
        case Refused(code) => r == code
        case Undefined => false
    {
      hide ReadLines, ReadLine;
      length := size / 2;
      buffer := new byte[length];
      start := buffer[..];
      ghost var result := ReadLines(lines, State(0, start), stale);
      var full := 0;
      var n := 0;
      assert lines[0..] == lines;
      while n < |lines|
        invariant n <= |lines| && buffer.Length == |start| && fresh(buffer)
        invariant ReadLines(lines[n..], State(full, buffer[..]), stale) == result
      {
        var done;
        NextLine(lines, n, State(full, buffer[..]), stale);
        full, done, r := ReadRecord(lines[n], full, stale(|lines| - n));
        if done { return; }
        n := n + 1;
      }
      NoLines(State(full, buffer[..]), stale);
      assert lines[n..] == [];
      r := 4;
    }

    /** The reader does what a step says: it goes on, or it is done with a result. */
    ghost predicate Follows(step: Step, full: nat, done: bool, r: int)
      reads this, buffer
    {
      match step
      case Next(st) => !done && st == State(full, buffer[..])
      case Stop(Loaded(bytes)) => done && r == 0 && length == |bytes| <= buffer.Length && buffer[..length] == bytes
      case Stop(Refused(code)) => done && r == code
      case Stop(Undefined) => false
    }

    /** One line. */
    method ReadRecord(line: string, full: nat, stale: byte) returns (full': nat, done: bool, r: int)
      requires ReadLine(line, State(full, buffer[..]), stale) != Stop(Undefined)
      modifies this`length, buffer
      ensures Follows(ReadLine(line, State(full, old(buffer[..])), stale), full', done, r)
    {
      LineBody(line, State(full, buffer[..]), stale);
      hide *;
      if !Signature(line) {
        Rejected(State(full, buffer[..]));
        return full, true, 1;
      }
      var count, hi, lo, kind := Field(line, 1), Field(line, 3), Field(line, 5), Field(line, 7);
      var address, sum := 256 * Nat(hi) + Nat(lo), Add(Add(Add(Add(0, count), hi), lo), kind);
      full', done, r := ReadBehind(line, kind, Nat(count), address, sum, full, stale);
    }

    lemma Rejected(st: State)
      requires st.buf == buffer[..]
      ensures Follows(Stop(Refused(1)), st.full, true, 1)
    {
    }

    /** The switch over the type of a record. */
    method ReadBehind(line: string, kind: byte, count: nat, address: nat, before: nat, full: nat, stale: byte)
      returns (full': nat, done: bool, r: int)
      requires |line| >= 9
      requires ReadBody(kind, count, address, line[9..], before, State(full, buffer[..]), stale) != Stop(Undefined)
      modifies this`length, buffer
      ensures Follows(ReadBody(kind, count, address, line[9..], before, State(full, old(buffer[..])), stale),
        full', done, r)
    {
      hide HexValue, Nat, Add, NewBase, Low16, Verify, LoadBytes, SkipBytes, Scan2;
      full', done, r := full, false, 3;
      if kind == 0 {
        var sum, pos;
        full', sum, pos := ReadDataBytes(line, count, Low16(address, full), before);
        done := CheckSum(line[pos..], sum, State(full', buffer[..]), stale);
      } else if kind == 1 {
        length := full;
        return full, true, 0;
      } else if kind == 2 || kind == 4 {
        var rest := line[9..];
        assert rest[2..][0] == rest[2];
        var uhi, ulo := ScanByte(rest), ScanByte(rest[2..]);
        full' := NewBase(kind, 256 * Nat(uhi) + Nat(ulo), full);
        done := CheckSum(rest[4..], Add(Add(before, uhi), ulo), State(full', buffer[..]), stale);
      } else if kind == 3 || kind == 5 {
        var sum, pos := SkipDataBytes(line, if kind == 3 then count else 4, before);
        done := CheckSum(line[pos..], sum, State(full, buffer[..]), stale);
      } else {
        return full, true, 2;
      }
    }

    /** The loop over the bytes of a data record. */
    method ReadDataBytes(line: string, count: nat, at: nat, before: nat) returns (full: nat, sum: nat, pos: nat)
      requires |line| >= 9 && LoadBytes(line[9..], count, State(at, buffer[..]), before).Some?
      modifies buffer
      ensures pos <= |line|
      ensures LoadBytes(line[9..], count, State(at, old(buffer[..])), before)
        == Some(Read(State(full, buffer[..]), sum, line[pos..]))
    {
      full, sum, pos := at, before, 9;
      var left := count;
      ghost var result := LoadBytes(line[9..], count, State(at, buffer[..]), before);
      while left > 0
        invariant pos <= |line| && result == LoadBytes(line[pos..], left, State(full, buffer[..]), sum)
      {
        hide HexValue, Add;
        ghost var rest, st := line[pos..], State(full, buffer[..]);
        var value := Scan2(line[pos..]).value;
        buffer[full] := value;
        sum := Add(sum, value);
        pos := if pos + 2 <= |line| then pos + 2 else |line|;
        full := full + 1;
        left := left - 1;
        assert line[pos..] == Drop(rest, 2);
      }
    }

    /** The text styles of readFile; MCS files hold every byte with its bits reversed. */
    method ReadTextFile(style: Style, lines: seq<string>, size: nat, stale: nat -> byte)
      returns (r: int, ghost start: seq<byte>)
      requires style == StyleMcs || style == StyleIhex
      requires forall buf :: |buf| == size / 2 ==> ReadLines(lines, State(0, buf), stale) != Undefined
      modifies this`length, this`buffer
      ensures fresh(buffer) && |start| == size / 2
      ensures match ReadLines(lines, State(0, start), stale)
        case Loaded(bytes) => r == 0 && length == |bytes| <= buffer.Length
          && buffer[..length] == if style == StyleMcs then AllReversed(bytes) else bytes
        case Refused(code) => r == code
        case Undefined => false
    {
      r, start := ReadMcsFile(lines, size, stale);
      if style == StyleMcs && r == 0 && length <= buffer.Length {
        ReverseBuffer();
      }
    }

    method ReverseBuffer()
      requires length <= buffer.Length
      modifies buffer
      ensures buffer[..length] == AllReversed(old(buffer[..length]))
    {
      hide BitReversed;
      for i := 0 to length
        invariant forall k :: 0 <= k < i ==> buffer[k] == BitReversed(old(buffer[k]))
        invariant forall k :: i <= k < buffer.Length ==> buffer[k] == old(buffer[k])
      {
        buffer[i] := BitReversed(buffer[i]);
      }
    }

    /** The length to store: without the 0xff bytes at the end, but at least one byte. */
    method Clip() returns (clip: nat)
      requires Valid() && length > 0
      ensures 1 <= clip <= length && (clip == 1 || buffer[clip - 1] != 0xFF)
      ensures forall k :: clip <= k < length ==> buffer[k] == 0xFF
    {
      clip := length - 1;
      while buffer[clip] == 0xFF && clip > 0
        invariant 0 <= clip < length && forall k :: clip < k < length ==> buffer[k] == 0xFF
      {
        clip := clip - 1;
      }
      clip := clip + 1;
    }

    /** Fill in what is missing of the header. A missing time also replaces the date. */
    method SetNCDFields(device: seq<byte>, today: seq<byte>, now: seq<byte>)
      modifies this`ncdFilename, this`partName, this`date, this`dtime
      ensures Fields() == Filled(old(Fields()), device, today, now)
    {
      if ncdFilename == [] {
        ncdFilename := PROGRAM + [0];
      }
      if partName == [] {
        partName := device + [0];
      }
      if dtime == [] {
        date := today + [0];
      }
      if dtime == [] {
        dtime := now + [0];
      }
    }

    /** Save the data. An explicit length turns off clipping. */
    method SaveAs(style: Style, device: seq<byte>, today: seq<byte>, now: seq<byte>) returns (clip: nat, saved: Saved)
      requires Valid() && rlength <= length
      modifies this`ncdFilename, this`partName, this`date, this`dtime
      ensures Valid() && clip <= length
      ensures length == 0 ==> clip == 0 && saved == Nothing && Fields() == old(Fields())
      ensures length > 0 ==> Fields() == Filled(old(Fields()), device, today, now)
      ensures length > 0 ==> clip > 0 && saved == SavedForm(style, Fields(), buffer[..clip])
      ensures length > 0 && style == StyleBit && Fits(ncdFilename) && Fits(partName) && Fits(date) && Fits(dtime) ==>
        saved.Binary? && LaidOut(saved.bytes, Fields(), buffer[..clip])
      ensures length > 0 ==> if rlength > 0 then clip == rlength else
        (clip == 1 || buffer[clip - 1] != 0xFF) && forall k :: clip <= k < length ==> buffer[k] == 0xFF
    {
      if length <= 0 { return 0, Nothing; }
      hide Filled, SavedForm;
      SetNCDFields(device, today, now);
      clip := Clip();
      if rlength > 0 {
        clip := rlength;
      }
      saved := Save(style, clip);
      BitLaidOut(style, Fields(), buffer[..clip]);
    }

    method Save(style: Style, clip: nat) returns (saved: Saved)
      requires Valid() && clip <= length
      ensures saved == SavedForm(style, Fields(), buffer[..clip])
    {
      match style {
        case StyleBit =>
          var bytes := SaveBytes(clip, true);
          var h := Header(ncdFilename, partName, date, dtime);
          saved := Binary(PREAMBLE + (HeaderBytes(h) + ([0x65] + LengthBytes(clip) + bytes)));
        case StyleBin =>
          var bytes := SaveBytes(clip, true);
          saved := Binary(bytes);
        case StyleBpi =>
          var bytes := SaveBytes(clip, false);
          saved := Binary(bytes);
        case StyleMcs | StyleIhex =>
          var lines := SaveLines(clip, style == StyleMcs);
          saved := Text(lines);
      }
    }

    /** The loop over the data bytes. */
    method SaveBytes(clip: nat, reverse: bool) returns (bytes: seq<byte>)
      requires Valid() && clip <= length
      ensures bytes == if reverse then AllReversed(buffer[..clip]) else buffer[..clip]
    {
      bytes := [];
      for i := 0 to clip
        invariant |bytes| == i && forall k :: 0 <= k < i ==>
          bytes[k] == (if reverse then BitReversed(buffer[k]) else buffer[k])
      {
        hide BitReversed;
        bytes := bytes + [if reverse then BitReversed(buffer[i]) else buffer[i]];
      }
      hide BitReversed;
    }

    /** The Intel HEX records. */
    method SaveLines(clip: nat, reverse: bool) returns (lines: seq<string>)
      requires Valid() && clip <= length
      ensures lines == Lines(if reverse then AllReversed(buffer[..clip]) else buffer[..clip], 0)
    {
      hide Lines, BitReversed;
      ghost var data := if reverse then AllReversed(buffer[..clip]) else buffer[..clip];
      assert forall i :: 0 <= i < clip ==> buffer[..clip][i] == buffer[i];
      lines := SaveRecords(clip, reverse, data);
    }

    method SaveRecords(clip: nat, reverse: bool, ghost data: seq<byte>) returns (lines: seq<string>)
      requires clip == |data| <= buffer.Length
      requires forall i :: 0 <= i < clip ==> data[i] == if reverse then BitReversed(buffer[i]) else buffer[i]
      ensures lines == Lines(data, 0)
    {
      hide *;
      ghost var k := 0;    // where the current record starts
      var base := -1;
      var buf := "";
      lines := [];
      Unstarted(data);
      NoBase();
      for i := 0 to clip
        invariant base == BaseBefore(i) && Progress(data, lines, buf, i, k)
      {
        var b := buffer[i];
        if reverse {
          b := BitReversed(b);
        }
        lines, buf, base, k := SaveByte(b, i, clip, lines, buf, base, data, k);
      }
      var last := EndLine();
      Finished(data, lines, buf, clip, k, last);
      lines := lines + [last];
    }
  }

  lemma NextLine(lines: seq<string>, n: nat, st: State, stale: nat -> byte)
    requires n < |lines|
    ensures ReadLines(lines[n..], st, stale) ==
      match ReadLine(lines[n], st, stale(|lines| - n))
      case Stop(outcome) => outcome
      case Next(next) => ReadLines(lines[n + 1..], next, stale)
  {
    hide ReadLine;
    assert lines[n..][0] == lines[n] && lines[n..][1..] == lines[n + 1..];
  }

  lemma NoLines(st: State, stale: nat -> byte)
    ensures ReadLines([], st, stale) == Refused(4)
  {
  }

  lemma LineBody(line: string, st: State, stale: byte)
    requires ReadLine(line, st, stale) != Stop(Undefined)
    ensures !Signature(line) ==> ReadLine(line, st, stale) == Stop(Refused(1))
    ensures Signature(line) ==> |line| >= 9
    ensures !Signature(line) || ReadLine(line, st, stale) ==
      var count, hi, lo, kind := Field(line, 1), Field(line, 3), Field(line, 5), Field(line, 7);
      ReadBody(kind, Nat(count), 256 * Nat(hi) + Nat(lo), line[9..],
        Add(Add(Add(Add(0, count), hi), lo), kind), st, stale)
  {
    hide Field, Nat, Add, ReadBody;
  }

  function ScanByte(s: string): (b: byte)
    requires s != "" && IsHex(s[0])
    ensures Scan2(s) == Some(b)
  {
    Scan2(s).value
  }

  /** The loop over bytes that only count for the checksum. */
  method SkipDataBytes(line: string, count: nat, before: nat) returns (sum: nat, pos: nat)
    requires |line| >= 9 && SkipBytes(line[9..], count, before).Some?
    ensures pos <= |line| && SkipBytes(line[9..], count, before) == Some((sum, line[pos..]))
  {
    sum, pos := before, 9;
    var left := count;
    while left > 0
      invariant pos <= |line| && SkipBytes(line[9..], count, before) == SkipBytes(line[pos..], left, sum)
    {
      hide HexValue, Add;
      ghost var rest := line[pos..];
      sum := Add(sum, Scan2(line[pos..]).value);
      pos := if pos + 2 <= |line| then pos + 2 else |line|;
      left := left - 1;
      assert line[pos..] == Drop(rest, 2);
    }
  }

  /** Compare the checksum of a line with the sum of its bytes. */
  method CheckSum(rest: string, sum: nat, ghost st: State, stale: byte) returns (bad: bool)
    ensures Verify(rest, sum, st, stale) == if bad then Stop(Refused(3)) else Next(st)
  {
    hide Nat, Scan2;
    var checksum := match Scan2(rest) case Some(v) => v case None => stale;
    bad := Nat(checksum) != (256 - sum) % 256;
  }

  method EndLine() returns (line: string)
    ensures line == Record(END)
  {
    EndText();
    var sum := TextChecksum("00000001", END);
    RecordText("00000001", END, sum);
    hide Record;
    line := ":" + "00000001" + Hex2(sum);
  }

  /** One round of the loop over the data: byte `b` at position `i`. */
  method SaveByte(b: byte, i: nat, clip: nat, lines: seq<string>, buf: string, base: int, ghost data: seq<byte>,
                  ghost k: nat)
    returns (lines': seq<string>, buf': string, base': int, ghost k': nat)
    requires i < clip == |data| && b == data[i] && Progress(data, lines, buf, i, k)
    requires base == BaseBefore(i)
    ensures base' == BaseBefore(i + 1) && Progress(data, lines', buf', i + 1, k')
  {
    Underway(data, lines, buf, i, k);
    NextBase(i);
    hide *;
    lines', buf', base', k' := lines, buf, base, k;
    if base' != i / 0x10000 {
      base' := i / 0x10000;
      var address := AddressLine(base');
      lines' := lines' + [address];
    }
    Opened(data, lines, lines', i, k);
    if i % 16 == 0 {
      buf' := StartRecord(i, clip, data);
    }
    Appended(data, k, i);
    buf' := buf' + Hex2(b);
    if i % 16 == 15 || i == clip - 1 {
      WholeRecord(data, k, i);
      var sum := TextChecksum(buf', DataBytes(data, k));
      RecordText(buf', DataBytes(data, k), sum);
      NowClosed(data, lines', buf', i, k);
      lines' := lines' + [":" + buf' + Hex2(sum)];
      k' := k + 16;
    } else {
      StillOpen(data, lines', buf', i, k);
    }
  }

  lemma Underway(data: seq<byte>, lines: seq<string>, buf: string, i: nat, k: nat)
    requires i < |data| && Progress(data, lines, buf, i, k)
    ensures k % 16 == 0 && k <= i < k + 16 && (k == i <==> i % 16 == 0)
    ensures k < i ==> buf == HexText(DataBytes(data, k)[..4 + i - k])
    ensures if k < i then lines + [Record(DataBytes(data, k))] + Lines(data, k + 16) == Lines(data, 0)
      else lines + Lines(data, k) == Lines(data, 0)
  {
    hide Record, DataBytes, HexText, Lines;
  }

  lemma StillOpen(data: seq<byte>, lines: seq<string>, buf: string, i: nat, k: nat)
    requires k % 16 == 0 && k <= i < k + 16 && i + 1 < |data| && i % 16 != 15
    requires |DataBytes(data, k)| >= 4 + i - k + 1 && buf == HexText(DataBytes(data, k)[..4 + i - k + 1])
    requires lines + [Record(DataBytes(data, k))] + Lines(data, k + 16) == Lines(data, 0)
    ensures Progress(data, lines, buf, i + 1, k)
  {
    hide Record, DataBytes, HexText, Lines;
    assert 4 + (i + 1) - k == 4 + i - k + 1;
  }

  lemma NowClosed(data: seq<byte>, lines: seq<string>, buf: string, i: nat, k: nat)
    requires k % 16 == 0 && k <= i < |data|
    requires k + 16 == i + 1 || (i + 1 == |data| && k + 16 >= i + 1)
    requires lines + [Record(DataBytes(data, k))] + Lines(data, k + 16) == Lines(data, 0)
    ensures Progress(data, lines + [Record(DataBytes(data, k))], buf, i + 1, k + 16)
  {
    hide Record, DataBytes, HexText, Lines;
  }

  /** ":02000004" with the upper half of the address. */
  method AddressLine(base: nat) returns (line: string)
    ensures line == Record(AddressBytes(base))
  {
    AddressHex(base);
    var buf := "02000004" + (Hex2(Byte(base / 256)) + Hex2(Byte(base)));
    var sum := TextChecksum(buf, AddressBytes(base));
    line := ":" + buf + Hex2(sum);
  }

  /** Length, address and type of a data record. */
  method StartRecord(i: nat, clip: nat, ghost data: seq<byte>) returns (buf: string)
    requires i < clip == |data|
    ensures buf == HexText(DataBytes(data, i)[..4])
  {
    StartHex(data, i);
    if clip - i < 0x0F {
      buf := Hex2(Byte(clip - i));
    } else {
      buf := "10";
    }
    buf := buf + (Hex2(Byte(i / 256)) + (Hex2(Byte(i)) + "00"));
  }

  /** The checksum of a record in text form. */
  method TextChecksum(buf: string, ghost bytes: seq<byte>) returns (sum: byte)
    requires buf == HexText(bytes)
    ensures sum == Check(bytes)
  {
    hide Byte, Add, Scan2, Hex2;
    var total := 0;
    var i := 0;
    ghost var n := 0;
    while i < |buf|
      invariant i == 2 * n && n <= |bytes| && buf[i..] == HexText(bytes[n..]) && total == Total(bytes[..n])
    {
      NextPair(bytes, n);
      var val := Scan2(buf[i..]).value;
      total := Add(total, val);
      i, n := i + 2, n + 1;
    }
    assert bytes[..n] == bytes;
    TotalRange(bytes);
    sum := Byte(255 - total + 1);
  }

  lemma NextPair(bytes: seq<byte>, n: nat)
    requires n < |bytes|
    ensures Scan2(HexText(bytes[n..])) == Some(bytes[n]) && HexText(bytes[n..])[2..] == HexText(bytes[n + 1..])
    ensures Total(bytes[..n + 1]) == Add(Total(bytes[..n]), bytes[n])
  {
    hide Add;
    var rest := bytes[n..];
    assert HexText(rest) == Hex2(bytes[n]) + HexText(bytes[n + 1..]) by { assert rest[1..] == bytes[n + 1..]; }
    Hex2Scanned(bytes[n], HexText(bytes[n + 1..]));
    hide HexText;
    assert bytes[..n + 1][..n] == bytes[..n];
  }

  lemma AddressHex(base: nat)
    ensures HexText(AddressBytes(base)) == "02000004" + (Hex2(Byte(base / 256)) + Hex2(Byte(base)))
  {
    hide Byte;
    var hi, lo := Byte(base / 256), Byte(base);
    HexTextPrefix([0x02, 0, 0, 0x04], [hi, lo]);
    assert HexText([0x02, 0, 0, 0x04]) == "02000004" by { FourBytes(0x02, 0, 0, 0x04); }
    assert HexText([hi, lo]) == Hex2(hi) + Hex2(lo) by { TwoBytesText(hi, lo); }
    assert AddressBytes(base) == [0x02, 0, 0, 0x04] + [hi, lo];
    hide HexText, Hex2, AddressBytes;
  }

  lemma TwoBytesText(a: byte, b: byte)
    ensures HexText([a, b]) == Hex2(a) + Hex2(b)
  {
    hide Hex2;
    assert HexText([b]) == Hex2(b) + HexText([]) == Hex2(b);
    assert HexText([a, b]) == Hex2(a) + HexText([b]);
  }

  lemma FourBytes(a: byte, b: byte, c: byte, d: byte)
    ensures HexText([a, b, c, d]) == Hex2(a) + (Hex2(b) + (Hex2(c) + Hex2(d)))
  {
    hide Hex2;
    TwoBytesText(c, d);
    assert HexText([b, c, d]) == Hex2(b) + HexText([c, d]);
    assert HexText([a, b, c, d]) == Hex2(a) + HexText([b, c, d]);
  }

  lemma StartHex(data: seq<byte>, i: nat)
    requires i < |data|
    ensures |DataBytes(data, i)| > 4 && HexText(DataBytes(data, i)[..4]) ==
      (if |data| - i < 0x0F then Hex2(Byte(|data| - i)) else "10") + (Hex2(Byte(i / 256)) + (Hex2(Byte(i)) + "00"))
  {
    hide Byte;
    var left := |data| - i;
    var count := if left < 0x0F then Byte(left) else 0x10;
    assert DataBytes(data, i)[..4] == [count, Byte(i / 256), Byte(i), 0];
    FourBytes(count, Byte(i / 256), Byte(i), 0);
    assert Hex2(0) == "00" && Hex2(0x10) == "10";
    hide Hex2, HexText, DataBytes;
  }

  lemma EndText()
    ensures "00000001" == HexText(END)
  {
    FourBytes(0, 0, 0, 0x01);
    assert Hex2(0) == "00" && Hex2(0x01) == "01";
    hide HexText;
  }

  /** The value of `base` before the byte at `i`. */
  function BaseBefore(i: nat): int { if i == 0 then -1 else (i - 1) / 0x10000 }

  lemma NextBase(i: nat)
    ensures BaseBefore(i) != i / 0x10000 <==> i % 0x10000 == 0
    ensures BaseBefore(i + 1) == i / 0x10000
    ensures i % 0x10000 == 0 ==> i % 16 == 0
  {
    var q, r := i / 0x10000, i % 0x10000;
    if r > 0 {
      DivUnique(i - 1, 0x10000, q, r - 1);
    } else {
      DivUnique(i - 1, 0x10000, q - 1, 0xFFFF);
      DivUnique(i, 16, 0x1000 * q, 0);
    }
  }

  /** The address record, if there is one, comes before the record at `i`. */
  lemma Opened(data: seq<byte>, lines: seq<string>, lines': seq<string>, i: nat, k: nat)
    requires i < |data| && k % 16 == 0 && k <= i < k + 16 && (k == i <==> i % 16 == 0)
    requires lines' == lines + if i % 0x10000 == 0 then [Record(AddressBytes(i / 0x10000))] else []
    requires if k < i then lines + [Record(DataBytes(data, k))] + Lines(data, k + 16) == Lines(data, 0)
      else lines + Lines(data, k) == Lines(data, 0)
    ensures lines' + [Record(DataBytes(data, k))] + Lines(data, k + 16) == Lines(data, 0)
  {
    hide Record, DataBytes, AddressBytes;
    NextBase(i);
    if k == i {
      var r := [Record(DataBytes(data, k))];
      if i % 0x10000 == 0 {
        assert Lines(data, k) == [Record(AddressBytes(i / 0x10000))] + r + Lines(data, k + 16);
      } else {
        assert Lines(data, k) == [] + r + Lines(data, k + 16);
        assert lines' == lines;
      }
    } else {
      assert lines' == lines;
    }
  }

  lemma Appended(data: seq<byte>, k: nat, i: nat)
    requires k <= i < |data| && i < k + 16
    ensures |DataBytes(data, k)| >= 4 + i - k + 1
    ensures HexText(DataBytes(data, k)[..4 + i - k]) + Hex2(data[i]) == HexText(DataBytes(data, k)[..4 + i - k + 1])
  {
    hide Byte, Hex2;
    var d, n := DataBytes(data, k), 4 + i - k;
    assert d[n] == data[i];
    hide DataBytes;
    HexTextPrefix(d[..n], [d[n]]);
    assert d[..n] + [d[n]] == d[..n + 1];
    assert HexText([d[n]]) == Hex2(d[n]) + HexText([]) == Hex2(d[n]);
  }

  lemma WholeRecord(data: seq<byte>, k: nat, i: nat)
    requires k % 16 == 0 && k <= i < |data| && i < k + 16 && (i % 16 == 15 || i == |data| - 1)
    ensures 4 + i - k + 1 == |DataBytes(data, k)| && DataBytes(data, k)[..4 + i - k + 1] == DataBytes(data, k)
    ensures k + 16 == i + 1 || (i + 1 == |data| && k + 16 >= i + 1)
  {
    hide Byte;
  }

  lemma RecordText(buf: string, bytes: seq<byte>, sum: byte)
    requires buf == HexText(bytes) && sum == Check(bytes)
    ensures ":" + buf + Hex2(sum) == Record(bytes)
  {
  }

  lemma Finished(data: seq<byte>, lines: seq<string>, buf: string, i: nat, k: nat, last: string)
    requires Progress(data, lines, buf, i, k) && i == |data| && last == Record(END)
    ensures lines + [last] == Lines(data, 0)
  {
    hide Record, DataBytes, AddressBytes;
    assert Lines(data, k) == [Record(END)];
  }

  /** The record in `buf` starts at `k` and ends before `i`; when it is complete, `k` is where the next one starts. */
  ghost predicate Progress(data: seq<byte>, lines: seq<string>, buf: string, i: nat, k: nat) {
    && k % 16 == 0 && i <= |data|
    && if k < i && i < |data| then
         i < k + 16 && buf == HexText(DataBytes(data, k)[..4 + i - k])
         && lines + [Record(DataBytes(data, k))] + Lines(data, k + 16) == Lines(data, 0)
       else
         lines + Lines(data, k) == Lines(data, 0) && (k == i || (i == |data| && k >= i))
  }

  lemma NoBase()
    ensures BaseBefore(0) == -1
  {
  }

  lemma Unstarted(data: seq<byte>)
    ensures Progress(data, [], "", 0, 0)
  {
    assert [] + Lines(data, 0) == Lines(data, 0);
  }

  const PROGRAM: seq<byte> := [0x58, 0x43, 0x33, 0x53, 0x50, 0x52, 0x4f, 0x47]    // XC3SPROG

  function Filled(h: Header, device: seq<byte>, today: seq<byte>, now: seq<byte>): Header {
    Header(if h.ncd == [] then [0x58, 0x43, 0x33, 0x53, 0x50, 0x52, 0x4F, 0x47, 0] else h.ncd,
           if h.part == [] then device + [0] else h.part,
           if h.dtime == [] then today + [0] else h.date, if h.dtime == [] then now + [0] else h.dtime)
  }

  function SavedForm(style: Style, h: Header, data: seq<byte>): Saved {
    match style
    case StyleBit => Binary(FileBytes(h, data))
    case StyleBin => Binary(AllReversed(data))
    case StyleBpi => Binary(data)
    case StyleMcs => Text(Lines(AllReversed(data), 0))
    case StyleIhex => Text(Lines(data, 0))
  }

  lemma BitLaidOut(style: Style, h: Header, data: seq<byte>)
    requires |data| < 0x1_0000_0000
    ensures style == StyleBit && Fits(h.ncd) && Fits(h.part) && Fits(h.date) && Fits(h.dtime) ==>
      SavedForm(style, h, data).Binary? && LaidOut(SavedForm(style, h, data).bytes, h, data)
  {
    hide FileBytes, LaidOut, Fits;
    if style == StyleBit && Fits(h.ncd) && Fits(h.part) && Fits(h.date) && Fits(h.dtime) { FileIsLaidOut(h, data); }
  }

  /** Save as .bit and load into a new object: this works whenever there are data, keeps all header fields that fit
      their 16-bit lengths, and get_bit gives the same for every index. */
  method SaveAndLoadBit(b: BitFile, device: seq<byte>, today: seq<byte>, now: seq<byte>) returns (c: BitFile, r: int)
    requires b.Valid() && b.rlength == 0
    requires
      var h := Filled(b.Fields(), device, today, now);
      Fits(h.ncd) && Fits(h.part) && Fits(h.date) && Fits(h.dtime)
    modifies b`ncdFilename, b`partName, b`date, b`dtime
    ensures r == 0 <==> b.length > 0
    ensures r == 0 ==> c.Valid() && c.Fields() == b.Fields() && !c.error
    ensures r == 0 ==> SameBits(c.Data(), b.Data())
  {
    hide Filled, FileBytes, ParseFile, SameBits, Fits, SavedForm;
    var clip, saved := b.SaveAs(StyleBit, device, today, now);
    if b.length > 0 {
      assert b.Data()[..clip] == b.buffer[..clip];
      SavedParsed(b.Fields(), b.Data(), clip);
    } else {
      NoFile(Header([], [], [], []));
    }
    c, r := LoadNew(if saved.Binary? then saved.bytes else []);
  }

  /** Load a file into a new object. */
  method LoadNew(bytes: seq<byte>) returns (c: BitFile, r: int)
    ensures
      var p := ParseFile(bytes, Header([], [], [], []));
      (if p.Complete? then r == 0 && c.Fields() == p.h && c.error == p.extra else r == 2)
        && (p.Complete? && |p.data| < 0x1_0000_0000 ==> c.Valid() && c.Data() == p.data)
  {
    hide ParseFile;
    c := new BitFile();
    var file := new ByteFile(bytes);
    r := c.ReadBitfile(file);
  }

  /** What the loader makes of a saved file. */
  lemma SavedParsed(h: Header, data: seq<byte>, clip: nat)
    requires Fits(h.ncd) && Fits(h.part) && Fits(h.date) && Fits(h.dtime)
    requires clip <= |data| < 0x1_0000_0000 && forall k :: clip <= k < |data| ==> data[k] == 0xFF
    ensures SavedForm(StyleBit, h, data[..clip]) == Binary(FileBytes(h, data[..clip]))
    ensures ParseFile(FileBytes(h, data[..clip]), Header([], [], [], [])) == Complete(h, data[..clip], false)
    ensures SameBits(data[..clip], data)
  {
    FileParsed(h, data[..clip], Header([], [], [], []));
    Unfilled(h);
    ClippedBits(data, clip);
    hide FileBytes, ParseFile, SameBits, Fits;
  }

  lemma Unfilled(h: Header)
    ensures Header([] + h.ncd, [] + h.part, [] + h.date, [] + h.dtime) == h
  {
  }

  lemma NoFile(h: Header)
    ensures ParseFile([], h) == Truncated
  {
  }

  /** Save as MCS or IHEX and load in the same style: the clipped data come back exactly when their length does not
      leave 15 bytes for the last record. */
  method SaveAndLoadText(b: BitFile, style: Style, device: seq<byte>, today: seq<byte>, now: seq<byte>,
                         stale: nat -> byte)
    returns (c: BitFile, r: int, clip: nat)
    requires b.Valid() && b.rlength <= b.length && b.length > 0 && (style == StyleMcs || style == StyleIhex)
    modifies b`ncdFilename, b`partName, b`date, b`dtime
    ensures 0 < clip <= b.length <= b.buffer.Length
    ensures (r == 0 && c.length <= c.buffer.Length && c.buffer[..c.length] == b.buffer[..clip]) <==> clip % 16 != 15
  {
    hide Filled, ReadLines, Lines, TextSize, Spoilt;
    var saved;
    clip, saved := b.SaveAs(style, device, today, now);
    ghost var data := if style == StyleMcs then AllReversed(b.buffer[..clip]) else b.buffer[..clip];
    var lines := saved.lines;
    assert lines == Lines(data, 0) && |data| == clip;
    RoomEnough(data, 0);
    var size := TextSize(lines);
    forall buf: seq<byte> | |buf| == size / 2 ensures ReadLines(lines, State(0, buf), stale) != Undefined {
      RoundTrip(data, buf, stale);
      SpoiltDefined(ReadLines(lines, State(0, buf), stale), data);
    }
    c := new BitFile();
    ghost var start;
    r, start := c.ReadTextFile(style, lines, size, stale);
    RoundTrip(data, start, stale);
    SpoiltDefined(ReadLines(lines, State(0, start), stale), data);
    AllReversedTwice(b.buffer[..clip]);
  }

  lemma SpoiltDefined(outcome: Outcome, data: seq<byte>)
    ensures Spoilt(outcome, data) ==> outcome != Undefined
    ensures Spoilt(outcome, data) && outcome.Loaded? ==> |outcome.bytes| != |data|
    ensures Spoilt(outcome, data) && outcome.Refused? ==> outcome.code == 3
  {
  }

  /** A field counted from its key and from its length. */
  lemma FieldInside(s: seq<byte>, n: nat)
    requires |s| >= 3
    ensures var t := s[1..];
      t[0] == s[1] && t[1] == s[2]
        && (|s| >= 3 + n ==> |t| >= 2 + n && s[3..3 + n] == t[2..2 + n] && s[3 + n..] == t[2 + n..])
  {
    if |s| >= 3 + n {
      assert forall k :: 3 <= k < |s| ==> s[k] == s[1..][k - 1];
      assert s[3..3 + n] == s[1..][2..2 + n];
    }
  }

  /** One step of the reader. */
  lemma FirstField(s: seq<byte>, h: Header)
    ensures s == [] ==> ParseFields(s, h) == Truncated
    ensures s != [] && s[0] == 0x65 ==> ParseFields(s, h) == ParseData(s[1..], h)
    ensures s != [] && s[0] != 0x65 ==> ParseFields(s, h) == var t := s[1..];
      if |t| < 2 || |t| < 2 + Length16(t[0], t[1]) then Truncated
      else var n := Length16(t[0], t[1]); ParseFields(t[2 + n..], AddField(h, s[0], t[2..2 + n]))
  {
    hide ParseData, AddField, Length16;
    if |s| >= 3 { FieldInside(s, Length16(s[1], s[2])); }
  }

  lemma OneByteMore(field: seq<byte>, s: seq<byte>, i: nat)
    requires i < |s|
    ensures field + s[..i] + [s[i]] == field + s[..i + 1] && s[i..][0] == s[i] && s[i..][1..] == s[i + 1..]
  {
  }

}
