/** Reading from an FTDI chip (ftdi.c and ftdi_stream.c): two status bytes are stripped from every USB packet, and bytes
    that a call did not ask for wait in the read buffer for the next one. */
module FtdiRead {
  import opened Bits
  import opened Sequences

  /** What a bulk transfer delivers. */
  datatype Transfer = Arrived(bytes: seq<byte>) | Failed(code: int)

  /** The bytes of a transfer without the two status bytes that start every packet. */
  function Payload(t: seq<byte>, packetSize: nat): (r: seq<byte>)
    requires packetSize > 2
    ensures |r| <= |t| && (|t| > 2 ==> 0 < |r| <= |t| - 2) && (|t| <= 2 ==> r == [])
    decreases |t|
  {
    if |t| <= 2 then []
    else if |t| <= packetSize then t[2..]
    else t[2..packetSize] + Payload(t[packetSize..], packetSize)
  }

  /** The payloads of a run of transfers, in order. */
  function Payloads(ts: seq<Transfer>, packetSize: nat): seq<byte>
    requires packetSize > 2
  {
    if ts == [] then [] else Payloads(ts[..|ts| - 1], packetSize) + PayloadIn(ts[|ts| - 1], packetSize)
  }

  function PayloadIn(t: Transfer, packetSize: nat): seq<byte>
    requires packetSize > 2
  {
    if t.Arrived? then Payload(t.bytes, packetSize) else []
  }

  lemma PayloadOfPacket(t: seq<byte>, packetSize: nat)
    requires packetSize > 2 && |t| >= packetSize
    ensures Payload(t, packetSize) == t[2..packetSize] + Payload(t[packetSize..], packetSize)
  {
    if |t| == packetSize { assert t[2..] == t[2..packetSize] + []; }
  }

  /** What the chip sends for `data`: packets of two status bytes and up to packetSize - 2 bytes of data, of which only
      the last may be short. */
  function Frame(data: seq<byte>, status: seq<byte>, packetSize: nat): seq<byte>
    requires packetSize > 2 && |status| == 2
    decreases |data|
  {
    if |data| <= packetSize - 2 then status + data
    else status + data[..packetSize - 2] + Frame(data[packetSize - 2..], status, packetSize)
  }

  lemma FirstPacket(status: seq<byte>, first: seq<byte>, more: seq<byte>)
    requires |status| == 2
    ensures (status + first + more)[2..2 + |first|] == first && (status + first + more)[2 + |first|..] == more
  {
  }

  lemma {:induction false} PayloadOfFrame(data: seq<byte>, status: seq<byte>, packetSize: nat)
    requires packetSize > 2 && |status| == 2
    ensures Payload(Frame(data, status, packetSize), packetSize) == data
    decreases |data|
  {
    var t := Frame(data, status, packetSize);
    if |data| <= packetSize - 2 {
      assert t[2..] == data;
    } else {
      var first, rest := data[..packetSize - 2], data[packetSize - 2..];
      FirstPacket(status, first, Frame(rest, status, packetSize));
      hide Frame, Payload;
      PayloadOfFrame(rest, status, packetSize);
      PayloadOfPacket(t, packetSize);
      assert first + rest == data;
    }
  }

  lemma {:induction false} PayloadsConcat(a: seq<Transfer>, b: seq<Transfer>, p: nat)
    requires p > 2
    ensures Payloads(a + b, p) == Payloads(a, p) + Payloads(b, p)
    decreases |b|
  {
    if b == [] {
      assert a + b == a;
    } else {
      var n := |b| - 1;
      PayloadsConcat(a, b[..n], p);
      assert (a + b)[..|a + b| - 1] == a + b[..n];
      Regroup(Payloads(a, p), Payloads(b[..n], p), PayloadIn(b[n], p));
    }
  }

  class FtdiContext {
    const packetSize: nat          // max_packet_size
    const readbuffer: array<byte>  // readbuffer_chunksize bytes
    var offset: nat                // readbuffer_offset
    var remaining: nat             // readbuffer_remaining
    var open: bool                 // usb_dev is not NULL

    // The chip: the transfers that are still to come. A read that finds none times out with nothing.
    var incoming: seq<Transfer>

    ghost predicate Valid()
      reads this
    {
      && (packetSize == 0 || packetSize > 2)
      && offset + remaining <= readbuffer.Length
      && forall k :: 0 <= k < |incoming| ==> match incoming[k]
           case Arrived(bytes) => |bytes| <= readbuffer.Length
           case Failed(code) => code < 0
    }

    /** The bytes that wait for the next call. */
    ghost function Leftover(): seq<byte>
      requires Valid()
      reads this, readbuffer
    {
      readbuffer[offset..offset + remaining]
    }

    constructor (packetSize: nat, chunksize: nat, incoming: seq<Transfer>)
      requires packetSize == 0 || packetSize > 2
      requires forall k :: 0 <= k < |incoming| ==> match incoming[k]
        case Arrived(bytes) => |bytes| <= chunksize
        case Failed(code) => code < 0
      ensures Valid() && Leftover() == [] && this.incoming == incoming && open
      ensures this.packetSize == packetSize && fresh(readbuffer)
    {
      this.packetSize := packetSize;
      this.incoming := incoming;
      readbuffer := new byte[chunksize];
      offset, remaining, open := 0, 0, true;
    }

    /** One bulk transfer into the start of the read buffer; `took` is what it takes from the incoming transfers. */
    method BulkTransfer() returns (ret: int, actual: nat, ghost took: seq<Transfer>)
      requires Valid()
      modifies this`incoming, readbuffer
      ensures Valid() && old(incoming) == took + incoming
      ensures if took == [] then ret == 0 && actual == 0 && incoming == []
        else |took| == 1 && match took[0]
          case Arrived(bytes) => ret == 0 && actual == |bytes| <= readbuffer.Length && readbuffer[..actual] == bytes
          case Failed(code) => ret == code < 0 && actual == 0
    {
      ret, actual, took := 0, 0, [];
      if incoming != [] {
        took := [incoming[0]];
        match incoming[0] {
          case Arrived(bytes) =>
            forall k | 0 <= k < |bytes| {
              readbuffer[k] := bytes[k];
            }
            actual := |bytes|;
            assert readbuffer[..actual] == bytes;
          case Failed(code) =>
            ret := code;
        }
        incoming := incoming[1..];
      }
    }

    /** memcpy from the waiting bytes, which start at `offset`, to the caller's buffer. */
    method CopyOut(buf: array<byte>, at: nat, n: nat)
      requires buf != readbuffer && at + n <= buf.Length && offset + n <= readbuffer.Length
      modifies buf
      ensures buf[..at] == old(buf[..at]) && buf[at + n..] == old(buf[at + n..])
      ensures buf[at..at + n] == readbuffer[offset..offset + n]
      ensures buf[..at + n] == old(buf[..at]) + readbuffer[offset..offset + n]
    {
      forall k | 0 <= k < n {
        buf[at + k] := readbuffer[offset + k];
      }
    }

    method Memmove(dst: nat, src: nat, n: nat)
      requires dst + n <= readbuffer.Length && src + n <= readbuffer.Length
      modifies readbuffer
      ensures readbuffer[dst..dst + n] == old(readbuffer[src..src + n])
      ensures readbuffer[..dst] == old(readbuffer[..dst]) && readbuffer[dst + n..] == old(readbuffer[dst + n..])
    {
      forall k | 0 <= k < n {
        readbuffer[dst + k] := readbuffer[src + k];
      }
    }

    /** Move the data of the packet whose data start at `src` down to `dst`, behind the data already in place. */
    method MovePacket(dst: nat, src: nat, n: nat, ghost t: seq<byte>)
      requires packetSize > 2 && src >= 2 && InPlace(readbuffer[..], t, dst, src - 2, packetSize)
      requires 0 < n && src + n <= |t| && (n == packetSize - 2 || (n < packetSize - 2 && src + n == |t|))
      modifies readbuffer
      ensures InPlace(readbuffer[..], t, dst + n, src + n, packetSize)
    {
      hide Payload;
      ghost var was := readbuffer[..];
      Memmove(dst, src, n);
      PacketMoved(was, readbuffer[..], t, dst, src, n, packetSize);
    }

    /** Strip the status bytes of a transfer of `actual > 2` bytes in place: the data of every packet are moved down
        over the status bytes before them. The data then start at `offset`. */
    method StripStatus(actual: nat) returns (len: nat)
      requires packetSize > 2 && offset == 0 && 2 < actual <= readbuffer.Length
      modifies this`offset, readbuffer
      ensures offset == 2 && 2 + len <= actual
      ensures readbuffer[2..2 + len] == Payload(old(readbuffer[..actual]), packetSize)
    {
      offset := offset + 2;
      len := actual - 2;
      if len > packetSize - 2 {
        Whole(actual, packetSize);
        len := Compact(actual, actual / packetSize, actual % packetSize);
      } else {
        OnePacket(readbuffer[..actual], packetSize);
      }
    }

    /** The moves of the whole packets of a transfer of more than one packet; the data of the first stay in place. */
    method MovePackets(chunks: nat, ghost t: seq<byte>)
      requires packetSize > 2 && offset == 2 && chunks >= 1
      requires InPlace(readbuffer[..], t, packetSize, packetSize, packetSize) && Times(packetSize, chunks) <= |t|
      modifies readbuffer
      ensures InPlace(readbuffer[..], t, 2 + Times(packetSize - 2, chunks), Times(packetSize, chunks), packetSize)
    {
      hide *;
      TimesOne(packetSize);
      var i := 1;
      while i < chunks
        invariant 1 <= i <= chunks
        invariant InPlace(readbuffer[..], t, 2 + Times(packetSize - 2, i), Times(packetSize, i), packetSize)
      {
        TimesStep(packetSize, i, chunks);
        var dst, src := offset + Times(packetSize - 2, i), offset + Times(packetSize, i);
        MovePacket(dst, src, packetSize - 2, t);
        assert dst + (packetSize - 2) == 2 + Times(packetSize - 2, i + 1);
        assert src + (packetSize - 2) == Times(packetSize, i + 1);
        i := i + 1;
      }
    }

    /** The moves for a transfer of more than one packet. */
    method Compact(actual: nat, chunks: nat, remains: nat) returns (len: nat)
      requires packetSize > 2 && offset == 2 && packetSize < actual <= readbuffer.Length
      requires chunks >= 1 && remains < packetSize && Times(packetSize, chunks) + remains == actual
      modifies readbuffer
      ensures 2 + len <= actual
      ensures readbuffer[2..2 + len] == Payload(old(readbuffer[..actual]), packetSize)
    {
      hide *;
      ghost var t := readbuffer[..actual];
      TimesLess(packetSize, chunks);
      assert readbuffer[..][..actual] == t;
      FirstInPlace(readbuffer[..], t, packetSize);
      MovePackets(chunks, t);
      len := actual - 2;
      if remains > 2 {
        MovePacket(offset + Times(packetSize - 2, chunks), offset + Times(packetSize, chunks), remains - 2, t);
        len := len - 2 * chunks;
        AllInPlace(readbuffer[..], t, 2 + len, actual, packetSize);
      } else {
        len := len - (2 * (chunks - 1) + remains);
        AllInPlace(readbuffer[..], t, 2 + len, Times(packetSize, chunks), packetSize);
      }
    }

    /** Strip a transfer of `actual > 2` bytes and hand its data out behind the first `at` bytes of `buf`; what does not
        fit into `size` bytes waits in the read buffer. */
    method Deliver(buf: array<byte>, at: nat, size: nat, actual: nat) returns (end: nat)
      requires Valid() && packetSize > 2 && offset == 0 && remaining == 0 && 2 < actual <= readbuffer.Length
      requires at < size <= buf.Length && buf != readbuffer
      modifies this`offset, this`remaining, readbuffer, buf
      ensures Valid() && at < end <= size && buf[size..] == old(buf[size..]) && (end < size ==> Leftover() == [])
      ensures buf[..end] + Leftover() == old(buf[..at]) + Payload(old(readbuffer[..actual]), packetSize)
    {
      hide Payload;
      var len := StripStatus(actual);
      assert len > 0;
      end := HandOut(buf, at, size, len);
    }

    /** Copy the `len` bytes at `offset` to the caller as far as they fit; the others wait. */
    method HandOut(buf: array<byte>, at: nat, size: nat, len: nat) returns (end: nat)
      requires Valid() && remaining == 0 && 0 < len && offset + len <= readbuffer.Length
      requires at < size <= buf.Length && buf != readbuffer
      modifies this`offset, this`remaining, buf
      ensures Valid() && at < end <= size && buf[size..] == old(buf[size..]) && (end < size ==> Leftover() == [])
      ensures buf[..end] + Leftover() == old(buf[..at]) + old(readbuffer[offset..offset + len])
    {
      if at + len <= size {
        ghost var head := buf[..at];
        CopyOut(buf, at, len);
        end := at + len;
        Unpadded(buf[..end], Leftover());
      } else {
        end := HandOutPart(buf, at, size, len);
      }
    }

    method HandOutPart(buf: array<byte>, at: nat, size: nat, len: nat) returns (end: nat)
      requires Valid() && remaining == 0 && offset + len <= readbuffer.Length
      requires at < size <= buf.Length && size < at + len && buf != readbuffer
      modifies this`offset, this`remaining, buf
      ensures Valid() && end == size && buf[size..] == old(buf[size..])
      ensures buf[..end] + Leftover() == old(buf[..at]) + old(readbuffer[offset..offset + len])
    {
      ghost var head, data := buf[..at], readbuffer[offset..offset + len];
      var part := size - at;
      Divided(readbuffer[..], offset, part, len);
      CopyOut(buf, at, part);
      offset := offset + part;
      remaining := len - part;
      end := size;
      Cut(head, data, part);
    }

    /** Serve a request from the bytes that wait. */
    method FromWaiting(buf: array<byte>, size: nat)
      requires Valid() && size <= remaining && size <= buf.Length && buf != readbuffer
      modifies this`offset, this`remaining, buf
      ensures Valid() && remaining == old(remaining) - size
      ensures buf[..size] + Leftover() == old(Leftover()) && buf[size..] == old(buf[size..])
    {
      ghost var left, first := Leftover(), readbuffer[offset..offset + size];
      CopyOut(buf, 0, size);
      remaining := remaining - size;
      offset := offset + size;
      assert left == first + Leftover();
    }

    /** Fill `buf` with up to `size` bytes: first the bytes that wait, then as many transfers as it takes. */
    method ReadData(buf: array<byte>, size: nat) returns (r: int, ghost took: seq<Transfer>)
      requires Valid() && size <= buf.Length && buf != readbuffer
      modifies this`offset, this`remaining, this`incoming, readbuffer, buf
      ensures Valid() && old(incoming) == took + incoming
      ensures buf[size..] == old(buf[size..])
      ensures !open || packetSize == 0 ==>
        r == (if !open then -666 else -1) && took == [] && Leftover() == old(Leftover()) && buf[..] == old(buf[..])
      ensures open && packetSize > 2 ==> Served(old(Leftover()), took, incoming, buf[..size], r, Leftover(), packetSize)
    {
      if !open { return -666, []; }
      if packetSize == 0 { return -1, []; }
      if size <= remaining {
        FromWaiting(buf, size);
        return size, [];
      }
      r, took := ReadTransfers(buf, size);
    }

    /** The part of a read that uses transfers. */
    method ReadTransfers(buf: array<byte>, size: nat) returns (r: int, ghost took: seq<Transfer>)
      requires Valid() && packetSize > 2 && remaining < size <= buf.Length && buf != readbuffer
      modifies this`offset, this`remaining, this`incoming, readbuffer, buf
      ensures Valid() && old(incoming) == took + incoming
      ensures buf[size..] == old(buf[size..])
      ensures Served(old(Leftover()), took, incoming, buf[..size], r, Leftover(), packetSize)
    {
      hide Payload, Payloads, PayloadIn, Served, Going;
      ghost var left, piece := Leftover(), [];
      var at, actual, ret := 0, 1, 0;
      if remaining != 0 {
        CopyOut(buf, 0, remaining);
        at := at + remaining;
      }
      took := [];
      Start(buf[..at], left, packetSize);
      while at < size && actual > 0
        invariant at < size && actual > 0 && Valid() && old(incoming) == took + incoming
        invariant buf[size..] == old(buf[size..])
        invariant Going(left, took, buf[..at], packetSize)
        decreases size - at
      {
        var end;
        ret, actual, end, piece := Transferred(buf, at, size, left, took);
        Regroup(took, piece, incoming);
        took := took + piece;
        if ret < 0 { return ret, took; }
        at := end;
        if actual <= 2 || at == size { return at, took; }
      }
      return -127, took;
    }

    /** One round of the loop of a read. */
    method Transferred(buf: array<byte>, at: nat, size: nat, ghost left: seq<byte>, ghost took: seq<Transfer>)
      returns (ret: int, actual: nat, end: nat, ghost piece: seq<Transfer>)
      requires Valid() && packetSize > 2 && at < size <= buf.Length && buf != readbuffer
      requires Going(left, took, buf[..at], packetSize)
      modifies this`offset, this`remaining, this`incoming, readbuffer, buf
      ensures Valid() && old(incoming) == piece + incoming && buf[size..] == old(buf[size..]) && end <= size
      ensures if ret < 0 || actual <= 2 || end == size then
          Served(left, took + piece, incoming, buf[..size], if ret < 0 then ret else end, Leftover(), packetSize)
        else
          at < end && Going(left, took + piece, buf[..end], packetSize)
    {
      hide Payload, Payloads, PayloadIn, Served, Going;
      end := at;
      remaining, offset := 0, 0;
      ghost var was := buf[..at];
      ret, actual, piece := BulkTransfer();
      assert Leftover() == [];
      TakeTake(buf[..], at, size);
      if ret < 0 {
        Failing(left, took, piece, incoming, buf[..size], at, packetSize);
      } else if actual <= 2 {
        Drained(left, took, piece, incoming, buf[..size], at, packetSize);
      } else {
        ghost var t := readbuffer[..actual];
        end := Deliver(buf, at, size, actual);
        TakeTake(buf[..], end, size);
        Fed(left, took, piece, incoming, was, t, buf[..size], end, Leftover(), packetSize);
      }
    }
  }

  /** No more transfers were taken than it needs to have `size` bytes. */
  ghost predicate Needed(left: seq<byte>, took: seq<Transfer>, size: nat, p: nat)
    requires p > 2
  {
    took != [] ==> |left + Payloads(took[..|took| - 1], p)| < size
  }

  /** What a read that finds `left` waiting and takes the transfers `took` leaves in `out`, the caller's buffer up to
      the requested size, and in the read buffer, `rest`. On success everything is handed out or waits, in order, and
      a short read means that the last transfer brought nothing or none came. After a failed transfer everything was
      already in the caller's buffer, but the caller is not told how much: it is lost. No transfer is taken that is
      not needed. */
  ghost predicate Served(left: seq<byte>, took: seq<Transfer>, more: seq<Transfer>, out: seq<byte>, r: int,
                         rest: seq<byte>, p: nat)
    requires p > 2
  {
    var stream := left + Payloads(took, p);
    && Needed(left, took, |out|, p)
    && if r >= 0 then
         && r <= |out| && out[..r] + rest == stream
         && (r < |out| ==> rest == [] && (more == [] || (took != [] && PayloadIn(took[|took| - 1], p) == [])))
       else
         took != [] && took[|took| - 1] == Failed(r) && rest == [] && |stream| <= |out| && out[..|stream|] == stream
  }

  /** The state of a read between two transfers. */
  ghost predicate Going(left: seq<byte>, took: seq<Transfer>, got: seq<byte>, p: nat)
    requires p > 2
  {
    got == left + Payloads(took, p)
  }

  lemma Start(got: seq<byte>, left: seq<byte>, p: nat)
    requires p > 2 && got == left
    ensures Going(left, [], got, p)
  {
  }

  lemma PayloadsStep(took: seq<Transfer>, piece: seq<Transfer>, p: nat)
    requires p > 2 && |piece| <= 1
    ensures Payloads(took + piece, p) == Payloads(took, p) + (if piece == [] then [] else PayloadIn(piece[0], p))
  {
    if piece == [] {
      assert took + piece == took;
    } else {
      assert (took + piece)[..|took|] == took;
    }
  }

  lemma Failing(left: seq<byte>, took: seq<Transfer>, piece: seq<Transfer>, more: seq<Transfer>, out: seq<byte>,
                at: nat, p: nat)
    requires p > 2 && at < |out| && Going(left, took, out[..at], p) && |piece| == 1 && piece[0].Failed?
    requires piece[0].code < 0
    ensures Served(left, took + piece, more, out, piece[0].code, [], p)
  {
    PayloadsStep(took, piece, p);
    assert (took + piece)[..|took|] == took;
  }

  lemma Drained(left: seq<byte>, took: seq<Transfer>, piece: seq<Transfer>, more: seq<Transfer>, out: seq<byte>,
                at: nat, p: nat)
    requires p > 2 && at < |out| && Going(left, took, out[..at], p)
    requires if piece == [] then more == [] else (|piece| == 1 && piece[0].Arrived? && |piece[0].bytes| <= 2)
    ensures Served(left, took + piece, more, out, at, [], p)
  {
    PayloadsStep(took, piece, p);
    assert piece != [] ==> (took + piece)[..|took|] == took;
  }

  lemma Fed(left: seq<byte>, took: seq<Transfer>, piece: seq<Transfer>, more: seq<Transfer>, was: seq<byte>,
            t: seq<byte>, out: seq<byte>,
            at: nat, rest: seq<byte>, p: nat)
    requires p > 2 && |was| < at <= |out| && Going(left, took, was, p) && piece == [Arrived(t)]
    requires out[..at] + rest == was + Payload(t, p) && (at < |out| ==> rest == [])
    ensures if at
      == |out| then Served(left, took + piece, more, out, at, rest, p) else Going(left, took + piece, out[..at], p)
  {
    PayloadsStep(took, piece, p);
    assert (took + piece)[..|took|] == took;
    Regroup(left, Payloads(took, p), Payload(t, p));
  }

  lemma TakeTake<T>(s: seq<T>, a: nat, b: nat)
    requires a <= b <= |s|
    ensures s[..b][..a] == s[..a]
  {
  }

  lemma Divided(s: seq<byte>, from: nat, part: nat, len: nat)
    requires part <= len && from + len <= |s|
    ensures s[from..from + part] == s[from..from + len][..part]
    ensures s[from + part..from + len] == s[from..from + len][part..]
  {
  }

  lemma Cut(head: seq<byte>, data: seq<byte>, part: nat)
    requires part <= |data|
    ensures (head + data[..part]) + data[part..] == head + data
  {
  }

  /** The data of the packets before position `src` of the transfer are in place up to `dst`, and what comes after is
      still as it arrived. */
  ghost predicate InPlace(buf: seq<byte>, t: seq<byte>, dst: nat, src: nat, p: nat)
    requires p > 2
  {
    && 2 <= dst <= src <= |t| <= |buf|
    && buf[src..|t|] == t[src..]
    && buf[2..dst] + Payload(t[src..], p) == Payload(t, p)
  }

  lemma FirstInPlace(buf: seq<byte>, t: seq<byte>, p: nat)
    requires 2 < p <= |t| <= |buf| && buf[..|t|] == t
    ensures InPlace(buf, t, p, p, p)
  {
    PayloadOfPacket(t, p);
    hide Payload;
    Sliced(buf, t, 2, p);
    Sliced(buf, t, p, |t|);
  }

  lemma AllInPlace(buf: seq<byte>, t: seq<byte>, dst: nat, src: nat, p: nat)
    requires p > 2 && InPlace(buf, t, dst, src, p) && |t| - src <= 2
    ensures dst <= |t| && buf[2..dst] == Payload(t, p)
  {
    NoPayload(t[src..], p);
  }

  lemma PacketMoved(was: seq<byte>, now: seq<byte>, t: seq<byte>, dst: nat, src: nat, n: nat, p: nat)
    requires p > 2 && src >= 2 && InPlace(was, t, dst, src - 2, p)
    requires 0 < n && src + n <= |t| && (n == p - 2 || (n < p - 2 && src + n == |t|))
    requires |now| == |was| && now[dst..dst + n] == was[src..src + n]
    requires now[..dst] == was[..dst] && now[dst + n..] == was[dst + n..]
    ensures InPlace(now, t, dst + n, src + n, p)
  {
    PacketPayload(t, src, n, p);
    hide Payload;
    Moved(was, now, t, dst, src, n);
    Regroup(was[2..dst], t[src..src + n], Payload(t[src + n..], p));
  }

  lemma Sliced(buf: seq<byte>, t: seq<byte>, from: nat, to: nat)
    requires from <= to <= |t| <= |buf| && buf[..|t|] == t
    ensures buf[from..to] == t[from..to]
  {
    assert forall k :: from <= k < to ==> t[k] == buf[..|t|][k] == buf[k];
  }

  lemma Moved(was: seq<byte>, now: seq<byte>, t: seq<byte>, dst: nat, src: nat, n: nat)
    requires 2 <= dst <= src - 2 && src + n <= |t| <= |was| == |now| && was[src - 2..|t|] == t[src - 2..]
    requires now[dst..dst + n] == was[src..src + n]
    requires now[..dst] == was[..dst] && now[dst + n..] == was[dst + n..]
    ensures now[2..dst + n] == was[2..dst] + t[src..src + n]
    ensures now[src + n..|t|] == t[src + n..]
  {
    assert forall k :: src - 2 <= k < |t| ==> was[k] == was[src - 2..|t|][k - src + 2];
    assert forall k :: dst + n <= k < |now| ==> now[k] == now[dst + n..][k - dst - n];
    assert forall k :: 0 <= k < dst ==> now[k] == now[..dst][k] == was[..dst][k];
    forall k | dst <= k < dst + n ensures now[k] == t[src..src + n][k - dst] {
      var j := src + (k - dst);
      assert now[k] == now[dst..dst + n][k - dst] == was[src..src + n][k - dst] == was[j];
      assert was[j] == was[src - 2..|t|][j - src + 2] == t[src - 2..][j - src + 2] == t[j];
    }
    assert |now[2..dst + n]| == |was[2..dst] + t[src..src + n]|;
  }

  lemma PacketPayload(t: seq<byte>, src: nat, n: nat, p: nat)
    requires p > 2 && 2 <= src && 0 < n && src + n <= |t| && (n == p - 2 || (n < p - 2 && src + n == |t|))
    ensures Payload(t[src - 2..], p) == t[src..src + n] + Payload(t[src + n..], p)
  {
    var u := t[src - 2..];
    if n == p - 2 {
      PayloadOfPacket(u, p);
      assert u[2..p] == t[src..src + n] && u[p..] == t[src + n..];
    }
  }

  function Times(a: nat, b: nat): nat { a * b }

  lemma Whole(n: nat, p: nat)
    requires p > 0
    ensures Times(p, n / p) + n % p == n && n % p < p && (n > p ==> n / p >= 1)
  {
  }

  lemma TimesOne(p: nat)
    requires p > 2
    ensures Times(p, 1) == p && Times(p - 2, 1) == p - 2
  {
  }

  lemma TimesLess(p: nat, n: nat)
    requires p > 2 && n >= 1
    ensures Times(p, n) >= p && Times(p - 2, n) == Times(p, n) - 2 * n
  {
  }

  lemma TimesStep(p: nat, i: nat, n: nat)
    requires p > 2 && i < n
    ensures Times(p, i + 1) == Times(p, i) + p <= Times(p, n)
    ensures Times(p - 2, i + 1) == Times(p - 2, i) + (p - 2)
  {
  }

  lemma NoPayload(t: seq<byte>, p: nat)
    requires p > 2 && |t| <= 2
    ensures Payload(t, p) == []
  {
  }

  lemma OnePacket(t: seq<byte>, p: nat)
    requires 2 < |t| <= p
    ensures Payload(t, p) == t[2..]
  {
  }
}
