/** The de-framer of the streaming read (ftdi_readstream_cb): the user's callback sees the data of one packet at a
    time. */
module FtdiStream {
  import opened Bits
  import opened Division
  import opened FtdiRead
  import opened Sequences

  /** One call of the user's callback: the length it is told and the bytes it may read. */
  datatype Call = Call(data: seq<byte>, length: int)

  function Data(calls: seq<Call>): seq<byte> {
    if calls == [] then [] else Data(calls[..|calls| - 1]) + calls[|calls| - 1].data
  }

  /** The k-th of n calls is told the length of its data, at most one packet's worth; a last packet of a single byte is
      announced as -1 bytes. */
  ghost predicate Told(c: Call, k: nat, n: nat, actual: nat, p: nat)
    requires p > 2
  {
    && |c.data| <= p - 2
    && if k == n - 1 && OddByte(actual, p) then c == Call([], -1) else c.length == |c.data|
  }

  /** The number of packets in a transfer of `length` bytes. */
  function PacketCount(length: nat, p: nat): (n: int)
    requires p > 2
  {
    (length + p - 1) / p
  }

  /** A transfer ends with a packet of one byte. */
  predicate OddByte(length: nat, p: nat)
    requires p > 2
  {
    length % p == 1
  }

  lemma Rounds(length: nat, p: nat)
    requires p > 2
    ensures length == 0 ==> PacketCount(length, p) == 0
    ensures 0 < length <= p ==> PacketCount(length, p) == 1 && (OddByte(length, p) <==> length == 1)
    ensures length > p ==> PacketCount(length, p) == PacketCount(length - p, p) + 1 > 1
    ensures length > p ==> (OddByte(length, p) <==> OddByte(length - p, p))
  {
    hide PacketCount, OddByte;
    if length > p {
      ManyRounds(length, p);
    } else if length > 0 {
      LastRound(length, p);
    } else {
      NoRound(p);
    }
  }

  lemma NoRound(p: nat)
    requires p > 2
    ensures PacketCount(0, p) == 0
  {
    DivUnique(p - 1, p, 0, p - 1);
  }

  lemma LastRound(length: nat, p: nat)
    requires 0 < length <= p && p > 2
    ensures PacketCount(length, p) == 1 && (OddByte(length, p) <==> length == 1)
  {
    DivUnique(length + p - 1, p, 1, length - 1);
    DivUnique(length, p, if length == p then 1 else 0, if length == p then 0 else length);
  }

  lemma ManyRounds(length: nat, p: nat)
    requires length > p > 2
    ensures PacketCount(length, p) == PacketCount(length - p, p) + 1 > 1
    ensures OddByte(length, p) <==> OddByte(length - p, p)
  {
    DivStep(length + p - 1, p);
    DivStep(length - p + p - 1, p);
    DivStep(length, p);
  }

  lemma {:induction false} FewPackets(length: nat, p: nat)
    requires p > 2
    ensures 0 <= PacketCount(length, p) <= length
  {
    Rounds(length, p);
    if length > p { FewPackets(length - p, p); }
  }

  /** After `calls`, the bytes from `ptr` on are left of transfer `t`; `total` payload bytes were counted. */
  ghost predicate Seen(calls: seq<Call>, t: seq<byte>, ptr: nat, total: int, p: nat)
    requires p > 2
  {
    && ptr <= |t| && |calls| + PacketCount(|t| - ptr, p) == PacketCount(|t|, p)
    && (ptr < |t| ==> OddByte(|t| - ptr, p) == OddByte(|t|, p))
    && Data(calls) + Payload(t[ptr..], p) == Payload(t, p)
    && total == |Data(calls)| - (if ptr == |t| && OddByte(|t|, p) then 1 else 0)
    && forall k :: 0 <= k < |calls| ==> Told(calls[k], k, PacketCount(|t|, p), |t|, p)
  }

  lemma Unseen(t: seq<byte>, p: nat)
    requires p > 2
    ensures Seen([], t, 0, 0, p)
  {
    Rounds(0, p);
    DivUnique(0, p, 0, 0);
    assert t[0..] == t && [] + Payload(t, p) == Payload(t, p);
  }

  lemma Packet(calls: seq<Call>, t: seq<byte>, ptr: nat, total: int, n: nat, c: Call, p: nat)
    requires p > 2 && Seen(calls, t, ptr, total, p) && 0 < n <= p && ptr + n <= |t| && (n == p || ptr + n == |t|)
    requires c == Call(if n > 2 then t[ptr + 2..ptr + n] else [], n - 2)
    ensures Seen(calls + [c], t, ptr + n, total + c.length, p)
  {
    hide Payload, Data, PacketCount, OddByte, Told;
    PacketData(calls, t, ptr, n, c, p);
    PacketNumber(|t| - ptr, n, p);
    assert |t| - (ptr + n) == |t| - ptr - n;
    assert |c.data| == (if n > 2 then n - 2 else 0);
    IsTold(c, |calls|, PacketCount(|t|, p), |t|, n, p);
  }

  lemma IsTold(c: Call, k: nat, count: nat, actual: nat, n: nat, p: nat)
    requires p > 2 && 0 < n <= p && c.length == n - 2 && |c.data| == (if n > 2 then n - 2 else 0)
    requires n == 1 <==> k == count - 1 && OddByte(actual, p)
    ensures Told(c, k, count, actual, p)
  {
    hide OddByte;
  }

  lemma PacketNumber(left: nat, n: nat, p: nat)
    requires p > 2 && 0 < n <= p && n <= left && (n == p || n == left)
    ensures PacketCount(left, p) == 1 + PacketCount(left - n, p)
    ensures n == left ==> PacketCount(left, p) == 1 && (OddByte(left, p) <==> n == 1)
    ensures n < left ==> PacketCount(left, p) > 1 && OddByte(left - n, p) == OddByte(left, p)
  {
    Rounds(left, p);
    Rounds(0, p);
  }

  lemma PacketData(calls: seq<Call>, t: seq<byte>, ptr: nat, n: nat, c: Call, p: nat)
    requires p > 2 && 0 < n <= p && ptr + n <= |t| && (n == p || ptr + n == |t|)
    requires Data(calls) + Payload(t[ptr..], p) == Payload(t, p)
    requires c.data == if n > 2 then t[ptr + 2..ptr + n] else []
    ensures Data(calls + [c]) + Payload(t[ptr + n..], p) == Payload(t, p)
    ensures |Data(calls + [c])| == |Data(calls)| + |c.data|
  {
    assert (calls + [c])[..|calls|] == calls;
    var u := t[ptr..];
    if n == p {
      PayloadOfPacket(u, p);
      assert u[2..p] == c.data && u[p..] == t[ptr + n..];
    } else {
      assert Payload(u, p) == c.data;
    }
    Regroup(Data(calls), c.data, Payload(t[ptr + n..], p));
  }

  class FtdiStreamState {
    const packetsize: nat
    var activity: nat
    var result: int
    var totalBytes: int

    constructor (packetsize: nat)
      ensures this.packetsize == packetsize && activity == 0 && result == 0 && totalBytes == 0
    {
      this.packetsize, activity, result, totalBytes := packetsize, 0, 0, 0;
    }

    /** A transfer ends. `replies` are the values that the user's callback returns, `resubmitted` the result of
        resubmission. The user sees the payload of the transfer in order; only the reply to the last packet decides
        whether the stream goes on. The byte count is exact unless the transfer ends with a packet of one byte. */
    method Callback(completed: bool, buffer: array<byte>, actual: nat, replies: int -> int, resubmitted: int)
      returns (calls: seq<Call>, freed: bool)
      requires packetsize > 2 && actual <= buffer.Length
      modifies this`activity, this`result, this`totalBytes
      ensures activity == old(activity) + 1
      ensures !completed ==> calls == [] && !freed && result == -1 && totalBytes == old(totalBytes)
      ensures completed ==> Data(calls) == Payload(buffer[..actual], packetsize)
      ensures completed ==>
        totalBytes == old(totalBytes) + |Data(calls)| - (if OddByte(actual, packetsize) then 1 else 0)
      ensures completed ==> |calls| == PacketCount(actual, packetsize)
      ensures forall k :: 0 <= k < |calls| ==> Told(calls[k], k, |calls|, actual, packetsize)
      ensures completed ==> freed == (calls != [] && replies(|calls| - 1) != 0)
      ensures completed ==> result == if freed then old(result) else resubmitted
    {
      activity := activity + 1;
      if !completed {
        result := LIBUSB_ERROR_IO;
        return [], false;
      }
      var res;
      calls, res := Deframe(buffer, actual, replies);
      if res != 0 {
        freed := true;
      } else {
        freed := false;
        result := resubmitted;
      }
    }

    /** One packet of a transfer `t`, of which `length` bytes are left from `ptr` on. */
    method NextPacket(buffer: array<byte>, ghost t: seq<byte>, ptr: nat, length: nat, ghost calls: seq<Call>)
      returns (c: Call, newPtr: nat, newLength: nat)
      requires packetsize > 2 && 0 < length && ptr + length == |t| <= buffer.Length && buffer[..|t|] == t
      modifies this`totalBytes
      ensures newPtr + newLength == |t|
      ensures forall total :: Seen(calls, t, ptr, total, packetsize) ==>
        Seen(calls + [c], t, newPtr, total + totalBytes - old(totalBytes), packetsize)
    {
      hide *;
      var packetLen := length;
      if packetLen > packetsize {
        packetLen := packetsize;
      }
      var payloadLen := packetLen - 2;
      totalBytes := totalBytes + payloadLen;
      var data := if payloadLen > 0 then buffer[ptr + 2..ptr + 2 + payloadLen] else [];
      c := Call(data, payloadLen);
      assert payloadLen > 0 ==> data == t[ptr + 2..ptr + packetLen] by {
        assert forall k :: 0 <= k < |t| ==> t[k] == buffer[..|t|][k] == buffer[k];
      }
      newPtr := ptr + packetLen;
      newLength := length - packetLen;
      forall total | Seen(calls, t, ptr, total, packetsize)
        ensures Seen(calls + [c], t, newPtr, total + payloadLen, packetsize)
      {
        Packet(calls, t, ptr, total, packetLen, c, packetsize);
      }
    }

    /** The loop over the packets of a transfer. */
    method Deframe(buffer: array<byte>, actual: nat, replies: int -> int) returns (calls: seq<Call>, res: int)
      requires packetsize > 2 && actual <= buffer.Length
      modifies this`totalBytes
      ensures Data(calls) == Payload(buffer[..actual], packetsize)
      ensures totalBytes == old(totalBytes) + |Data(calls)| - (if OddByte(actual, packetsize) then 1 else 0)
      ensures |calls| == PacketCount(actual, packetsize)
      ensures forall k :: 0 <= k < |calls| ==> Told(calls[k], k, |calls|, actual, packetsize)
      ensures res == if calls == [] then 0 else replies(|calls| - 1)
    {
      ghost var t := buffer[..actual];
      calls, res := [], 0;
      var ptr: nat, length: nat := 0, actual;
      var numPackets := (length + packetsize - 1) / packetsize;
      assert numPackets == PacketCount(actual, packetsize);
      FewPackets(actual, packetsize);
      Unseen(t, packetsize);
      hide Payload, Data, PacketCount, OddByte, Told, Seen;
      var i := 0;
      while i < numPackets
        invariant 0 <= i <= numPackets == PacketCount(|t|, packetsize) && |calls| == i && ptr + length == actual
        invariant Seen(calls, t, ptr, totalBytes - old(totalBytes), packetsize)
        invariant res == if i == 0 then 0 else replies(i - 1)
      {
        NotDone(calls, t, ptr, totalBytes - old(totalBytes), packetsize);
        var c;
        c, ptr, length := NextPacket(buffer, t, ptr, length, calls);
        calls := calls + [c];
        res := replies(i);
        i := i + 1;
      }
      AllSeen(calls, t, ptr, totalBytes - old(totalBytes), packetsize);
    }
  }

  lemma NotDone(calls: seq<Call>, t: seq<byte>, ptr: nat, total: int, p: nat)
    requires p > 2 && Seen(calls, t, ptr, total, p) && |calls| < PacketCount(|t|, p)
    ensures ptr < |t|
  {
    Rounds(|t| - ptr, p);
  }

  lemma AllSeen(calls: seq<Call>, t: seq<byte>, ptr: nat, total: int, p: nat)
    requires p > 2 && Seen(calls, t, ptr, total, p) && |calls| == PacketCount(|t|, p)
    ensures ptr == |t| && Data(calls) == Payload(t, p)
    ensures total == |Data(calls)| - (if OddByte(|t|, p) then 1 else 0)
    ensures forall k :: 0 <= k < |calls| ==> Told(calls[k], k, |calls|, |t|, p)
  {
    Rounds(|t| - ptr, p);
    FewPackets(|t| - ptr, p);
    hide PacketCount, OddByte;
    assert Data(calls) + [] == Data(calls);
  }

  const LIBUSB_ERROR_IO := -1
}
