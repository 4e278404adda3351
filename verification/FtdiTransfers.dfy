/** Runs of reads, and the asynchronous read (ftdi_read_data_submit_cb, ftdi_read_data_cb and
    ftdi_transfer_data_done). */
module FtdiTransfers {
  import opened Bits
  import opened FtdiRead
  import opened Sequences

  /** What a read returned, and what it left in the buffer up to the size that was asked for. */
  datatype Reading = Reading(r: int, out: seq<byte>)

  /** What waits in the read buffer, and the transfers to come. */
  datatype Moment = Moment(left: seq<byte>, incoming: seq<Transfer>)

  /** One read of `size` bytes, which takes the transfers `took`. */
  ghost predicate OneRead(a: Moment, size: nat, reading: Reading, took: seq<Transfer>, b: Moment, p: nat)
    requires p > 2
  {
    && |reading.out| == size && a.incoming == took + b.incoming
    && Served(a.left, took, b.incoming, reading.out, reading.r, b.left, p)
  }

  function Bytes(reading: Reading): seq<byte>
  {
    if 0 <= reading.r <= |reading.out| then reading.out[..reading.r] else []
  }

  function AllBytes(readings: seq<Reading>): seq<byte> {
    if readings == [] then [] else AllBytes(readings[..|readings| - 1]) + Bytes(readings[|readings| - 1])
  }

  /** Any run of reads of any sizes, up to the first that fails: `readings` are their results, and `trace` and `takes`
      say what waits between them and which transfers each takes. What they return and what still waits are the data
      of all transfers, in order; a failing read loses what it had already copied (`lost`) and nothing else. */
  method Reads(ftdi: FtdiContext, buf: array<byte>, sizes: seq<nat>)
    returns (readings: seq<Reading>, ghost lost: seq<byte>, ghost took: seq<Transfer>, ghost trace: seq<Moment>,
             ghost takes: seq<seq<Transfer>>)
    requires ftdi.Valid() && ftdi.packetSize > 2 && ftdi.open && buf != ftdi.readbuffer
    requires forall k :: 0 <= k < |sizes| ==> sizes[k] <= buf.Length
    modifies ftdi`offset, ftdi`remaining, ftdi`incoming, ftdi.readbuffer, buf
    ensures ftdi.Valid() && old(ftdi.incoming) == took + ftdi.incoming
    ensures |readings| <= |sizes| && |takes| == |readings| && |trace| == |readings| + 1
    ensures forall i :: 0 <= i < |readings| ==>
      OneRead(trace[i], sizes[i], readings[i], takes[i], trace[i + 1], ftdi.packetSize)
    ensures forall i :: 0 <= i < |readings| ==> (readings[i].r >= 0 || i == |readings| - 1)
    ensures |readings| < |sizes| ==> readings != [] && readings[|readings| - 1].r < 0
    ensures trace[0] == Moment(old(ftdi.Leftover()), old(ftdi.incoming))
    ensures trace[|readings|] == Moment(ftdi.Leftover(), ftdi.incoming)
    ensures AllBytes(readings) + lost + ftdi.Leftover() == old(ftdi.Leftover()) + Payloads(took, ftdi.packetSize)
    ensures lost != [] ==> readings != [] && readings[|readings| - 1].r < 0
  {
    hide *;
    readings, lost, took, takes := [], [], [], [];
    ghost var left := ftdi.Leftover();
    trace := [Moment(left, ftdi.incoming)];
    Begun(left, ftdi.packetSize);
    var failed := false;
    while |readings| < |sizes| && !failed
      invariant |readings| <= |sizes| && |takes| == |readings| && |trace| == |readings| + 1
      invariant ftdi.Valid() && ftdi.open && old(ftdi.incoming) == took + ftdi.incoming
      invariant trace[0] == Moment(left, old(ftdi.incoming))
      invariant trace[|readings|] == Moment(ftdi.Leftover(), ftdi.incoming)
      invariant forall i :: 0 <= i < |readings| ==>
        OneRead(trace[i], sizes[i], readings[i], takes[i], trace[i + 1], ftdi.packetSize)
      invariant forall i :: 0 <= i < |readings| ==> (readings[i].r >= 0 || (failed && i == |readings| - 1))
      invariant failed ==> readings != [] && readings[|readings| - 1].r < 0
      invariant AllBytes(readings) + lost + ftdi.Leftover() == left + Payloads(took, ftdi.packetSize)
      invariant lost != [] ==> failed
      decreases |sizes| - |readings|
    {
      ghost var waiting := Moment(ftdi.Leftover(), ftdi.incoming);
      var r;
      ghost var more;
      r, more := ftdi.ReadData(buf, sizes[|readings|]);
      var reading := Reading(r, buf[..sizes[|readings|]]);
      ghost var next := Moment(ftdi.Leftover(), ftdi.incoming);
      WasRead(waiting, reading, more, next, ftdi.packetSize);
      Regroup(took, more, ftdi.incoming);
      lost := NextRead(left, took, readings, waiting, more, next, reading, ftdi.packetSize);
      failed := r < 0;
      readings, took, takes, trace := readings + [reading], took + more, takes + [more], trace + [next];
    }
  }

  lemma WasRead(a: Moment, reading: Reading, took: seq<Transfer>, b: Moment, p: nat)
    requires p > 2 && a.incoming == took + b.incoming
    requires Served(a.left, took, b.incoming, reading.out, reading.r, b.left, p)
    ensures OneRead(a, |reading.out|, reading, took, b, p)
  {
    hide Served;
  }

  lemma Begun(left: seq<byte>, p: nat)
    requires p > 2
    ensures AllBytes([]) + [] + left == left + Payloads([], p)
  {
  }

  lemma NextRead(left: seq<byte>, took: seq<Transfer>, readings: seq<Reading>, a: Moment, more: seq<Transfer>,
                 b: Moment,
                 reading: Reading, p: nat) returns (lost: seq<byte>)
    requires p > 2 && AllBytes(readings) + [] + a.left == left + Payloads(took, p)
    requires OneRead(a, |reading.out|, reading, more, b, p)
    ensures AllBytes(readings + [reading]) + lost + b.left == left + Payloads(took + more, p)
    ensures reading.r >= 0 ==> lost == []
  {
    assert (readings + [reading])[..|readings|] == readings;
    assert AllBytes(readings + [reading]) == AllBytes(readings) + Bytes(reading);
    PayloadsConcat(took, more, p);
    hide Payloads, PayloadIn, AllBytes;
    var next := a.left + Payloads(more, p);
    Extended(AllBytes(readings), a.left, left, Payloads(took, p), Payloads(more, p));
    lost := if reading.r >= 0 then [] else next;
    Handed(AllBytes(readings), Bytes(reading), lost, b.left, next);
  }

  lemma Extended(got: seq<byte>, waiting: seq<byte>, left: seq<byte>, a: seq<byte>, b: seq<byte>)
    requires got + [] + waiting == left + a
    ensures got + (waiting + b) == left + (a + b)
  {
    assert got + [] == got;
    Regroup(left, a, b);
    Regroup(got, waiting, b);
  }

  lemma Handed(got: seq<byte>, out: seq<byte>, lost: seq<byte>, rest: seq<byte>, next: seq<byte>)
    requires if lost == [] then out + rest == next else out == rest == [] && lost == next
    ensures got + out + lost + rest == got + next
  {
  }

  class TransferControl {
    const buf: array<byte>
    const size: nat
    var offset: nat
    var completed: bool
    var transfer: bool    // a transfer was submitted

    constructor (buf: array<byte>, size: nat, offset: nat, completed: bool)
      ensures this.buf == buf && this.size == size && this.offset == offset
      ensures this.completed == completed && transfer == !completed
    {
      this.buf, this.size, this.offset, this.completed, transfer := buf, size, offset, completed, !completed;
    }
  }

  /** The request waits for a transfer; everything of `stream`, the bytes known so far, is in the caller's buffer. */
  ghost predicate InFlight(ftdi: FtdiContext, tc: TransferControl, stream: seq<byte>)
    reads ftdi, tc, tc.buf
  {
    && ftdi.Valid() && ftdi.packetSize > 2 && tc.buf != ftdi.readbuffer
    && ftdi.offset == 0 && ftdi.remaining == 0
    && !tc.completed && tc.offset < tc.size <= tc.buf.Length
    && tc.buf[..tc.offset] == stream
  }

  /** The request got the first `size` bytes of `stream` and the others wait, or a resubmission failed before that many
      bytes were there. */
  ghost predicate Completed(ftdi: FtdiContext, tc: TransferControl, stream: seq<byte>)
    reads ftdi, ftdi.readbuffer, tc, tc.buf
  {
    && ftdi.Valid() && tc.completed && tc.offset <= tc.size <= tc.buf.Length
    && tc.buf[..tc.offset] + ftdi.Leftover() == stream
    && (tc.offset < tc.size ==> ftdi.Leftover() == [])
  }

  /** Start an asynchronous read. `submits` tells whether libusb takes the transfer. */
  method ReadDataSubmit(ftdi: FtdiContext, buf: array<byte>, size: nat, submits: bool) returns (tc: TransferControl?)
    requires ftdi.Valid() && ftdi.packetSize > 2 && size <= buf.Length && buf != ftdi.readbuffer
    modifies ftdi`offset, ftdi`remaining, buf
    ensures ftdi.Valid() && buf[size..] == old(buf[size..])
    ensures tc == null <==> !ftdi.open || (old(ftdi.remaining) < size && !submits)
    ensures tc != null ==> fresh(tc) && tc.buf == buf && tc.size == size && tc.transfer == !tc.completed
    ensures tc != null ==> tc.completed == (size <= old(ftdi.remaining))
    ensures tc != null && tc.completed ==> tc.offset == size && Completed(ftdi, tc, old(ftdi.Leftover()))
    ensures tc != null && !tc.completed ==> InFlight(ftdi, tc, old(ftdi.Leftover()))
    ensures tc == null ==> ftdi.Leftover() == if ftdi.open then [] else old(ftdi.Leftover())
  {
    if !ftdi.open { return null; }
    if size <= ftdi.remaining {
      ftdi.FromWaiting(buf, size);
      tc := new TransferControl(buf, size, size, true);
      return;
    }
    var at := EmptyBuffer(ftdi, buf);
    if !submits { return null; }
    tc := new TransferControl(buf, size, at, false);
  }

  /** Everything that waits goes to the caller. */
  method EmptyBuffer(ftdi: FtdiContext, buf: array<byte>) returns (at: nat)
    requires ftdi.Valid() && ftdi.remaining <= buf.Length && buf != ftdi.readbuffer
    modifies ftdi`offset, ftdi`remaining, buf
    ensures ftdi.Valid() && ftdi.offset == 0 && ftdi.remaining == 0 && at == old(ftdi.remaining)
    ensures buf[..at] == old(ftdi.Leftover()) && buf[at..] == old(buf[at..])
  {
    at := 0;
    if ftdi.remaining != 0 {
      ftdi.CopyOut(buf, 0, ftdi.remaining);
      at := ftdi.remaining;
    }
    ftdi.remaining, ftdi.offset := 0, 0;
  }

  /** libusb reports a transfer of `actual` bytes; `resubmits` tells whether it would take another one. */
  method ReadDataCallback(ftdi: FtdiContext, tc: TransferControl, actual: nat, resubmits: bool, ghost stream: seq<byte>)
    requires InFlight(ftdi, tc, stream) && actual <= ftdi.readbuffer.Length
    modifies ftdi`offset, ftdi`remaining, ftdi.readbuffer, tc`offset, tc`completed, tc.buf
    ensures tc.buf[tc.size..] == old(tc.buf[tc.size..])
    ensures var now := stream + Payload(old(ftdi.readbuffer[..actual]), ftdi.packetSize);
      && (|now| >= tc.size ==> tc.offset == tc.size && Completed(ftdi, tc, now))
      && (|now| < tc.size && resubmits ==> InFlight(ftdi, tc, now))
      && (|now| < tc.size && !resubmits ==> Completed(ftdi, tc, now))
  {
    ghost var t := ftdi.readbuffer[..actual];
    if actual > 2 {
      hide Payload;
      var end := ftdi.Deliver(tc.buf, tc.offset, tc.size, actual);
      tc.offset := end;
      if ftdi.remaining == 0 { ftdi.offset := 0; }
      if end == tc.size {
        tc.completed := true;
        return;
      }
      Unpadded(tc.buf[..end], ftdi.Leftover());
    } else {
      NoPayload(t, ftdi.packetSize);
      Unpadded(stream, []);
    }
    if !resubmits {
      tc.completed := true;
      Unpadded(tc.buf[..tc.offset], ftdi.Leftover());
    }
  }

  /** Where a request stands once the bytes of `stream` are known. */
  ghost predicate Standing(ftdi: FtdiContext, tc: TransferControl, stream: seq<byte>)
    reads ftdi, ftdi.readbuffer, tc, tc.buf
  {
    if tc.completed then Completed(ftdi, tc, stream) else InFlight(ftdi, tc, stream)
  }

  /** What one call of the event loop does: it handles a transfer if one has ended, or it fails. An interrupted call
      is tried again. */
  datatype Handled = Event | Interrupted | Error(code: int)

  /** What ends the waiting: an error, and once the request is being cancelled also an interruption. */
  predicate Breaks(h: Handled, cancelled: bool) { h.Error? || (cancelled && h.Interrupted?) }

  /** Where a request stands after the transfers `took`, and which of them was the last. */
  ghost predicate Progress(ftdi: FtdiContext, tc: TransferControl, left: seq<byte>, took: seq<Transfer>,
                           accepts: seq<bool>)
    requires ftdi.packetSize > 2
    reads ftdi, ftdi.readbuffer, tc, tc.buf
  {
    && Standing(ftdi, tc, left + Payloads(took, ftdi.packetSize))
    && Needed(left, took, tc.size, ftdi.packetSize)
    && (tc.completed && tc.offset < tc.size ==> took != [] && |took| <= |accepts| && !accepts[|took| - 1])
  }

  predicate LastFailed(took: seq<Transfer>) { took != [] && took[|took| - 1].Failed? }

  /** Wait for a request: run the event loop, whose calls go as `loop` says, until the request completes. `accepts`
      says which resubmissions libusb takes. When a call fails, at `failedAt`, the request is cancelled, which takes
      more calls until it completes or one fails again; what was received stays with the caller and in the read buffer
      in any case. */
  method TransferDataDone(ftdi: FtdiContext, tc: TransferControl, loop: seq<Handled>, accepts: seq<bool>,
                          ghost left: seq<byte>)
    returns (ret: int, calls: nat, ghost failedAt: int, ghost took: seq<Transfer>)
    requires Standing(ftdi, tc, left) && ftdi.packetSize > 2 && |accepts| >= |ftdi.incoming|
    requires tc.buf != ftdi.readbuffer
    requires tc.completed ==> tc.offset == tc.size
    modifies ftdi`offset, ftdi`remaining, ftdi`incoming, ftdi.readbuffer, tc`offset, tc`completed, tc.buf
    ensures old(ftdi.incoming) == took + ftdi.incoming && Progress(ftdi, tc, left, took, accepts)
    ensures calls <= |loop| && -1 <= failedAt < calls
    ensures forall i :: 0 <= i < (if failedAt < 0 then calls else failedAt) ==> !loop[i].Error?
    ensures failedAt < 0 ==> tc.completed || calls == |loop|
    ensures failedAt < 0 ==> ret == if LastFailed(took) then -1 else tc.offset
    ensures failedAt >= 0 ==> loop[failedAt] == Error(ret)
    ensures forall i :: failedAt >= 0 && failedAt < i < calls - 1 ==> loop[i].Event?
    ensures failedAt >= 0 ==> tc.completed || calls == |loop| || (calls - 1 > failedAt && !loop[calls - 1].Event?)
  {
    hide Standing, Needed, Payloads, Breaks;
    Begins(ftdi, tc, left, accepts);
    var broke, done, n;
    calls, broke, done, n, took := HandleEvents(ftdi, tc, loop, 0, accepts, 0, true, false, left, []);
    failedAt := -1;
    BreaksAre(loop);
    if !broke {
      ret := if done then tc.offset else -1;
      return;
    }
    failedAt, ret := calls - 1, loop[calls - 1].code;
    calls, broke, done, n, took := HandleEvents(ftdi, tc, loop, calls, accepts, n, done, true, left, took);
  }

  lemma BreaksAre(loop: seq<Handled>)
    ensures forall i :: 0 <= i < |loop| ==> (Breaks(loop[i], false) <==> loop[i].Error?)
    ensures forall i :: 0 <= i < |loop| ==> (Breaks(loop[i], true) <==> !loop[i].Event?)
  {
  }

  lemma Begins(ftdi: FtdiContext, tc: TransferControl, left: seq<byte>, accepts: seq<bool>)
    requires Standing(ftdi, tc, left) && ftdi.packetSize > 2 && (tc.completed ==> tc.offset == tc.size)
    ensures Progress(ftdi, tc, left, [], accepts)
  {
    Waiting(left, tc.size, ftdi.packetSize);
    hide Standing, Needed, Payloads;
  }

  /** The calls of the event loop from number `from` on, until the request completes or one of them ends the waiting.
      `n` counts the transfers, `done` is whether the last of them completed without error. */
  method HandleEvents(ftdi: FtdiContext, tc: TransferControl, loop: seq<Handled>, from: nat, accepts: seq<bool>, n: nat,
                      done: bool, cancelled: bool, ghost left: seq<byte>, ghost took: seq<Transfer>)
    returns (calls: nat, broke: bool, done': bool, n': nat, ghost took': seq<Transfer>)
    requires ftdi.packetSize > 2 && tc.buf != ftdi.readbuffer && from <= |loop|
    requires Progress(ftdi, tc, left, took, accepts) && n == |took| && |accepts| >= |took| + |ftdi.incoming|
    requires done == !LastFailed(took)
    modifies ftdi`offset, ftdi`remaining, ftdi`incoming, ftdi.readbuffer, tc`offset, tc`completed, tc.buf
    ensures took <= took' && took + old(ftdi.incoming) == took' + ftdi.incoming && n' == |took'|
    ensures Progress(ftdi, tc, left, took', accepts) && done' == !LastFailed(took')
    ensures from <= calls <= |loop| && (broke ==> calls > from && Breaks(loop[calls - 1], cancelled))
    ensures forall i :: from <= i < calls - (if broke then 1 else 0) ==> !Breaks(loop[i], cancelled)
    ensures !broke ==> tc.completed || calls == |loop|
  {
    hide Standing, Needed, Payloads, Payload, PayloadIn, Breaks, LastFailed;
    calls, broke, done', n', took' := from, false, done, n, took;
    while !tc.completed && calls < |loop| && !broke
      invariant took <= took' && took + old(ftdi.incoming) == took' + ftdi.incoming && n' == |took'|
      invariant Progress(ftdi, tc, left, took', accepts) && done' == !LastFailed(took')
      invariant from <= calls <= |loop| && (broke ==> calls > from && Breaks(loop[calls - 1], cancelled))
      invariant forall i :: from <= i < calls - (if broke then 1 else 0) ==> !Breaks(loop[i], cancelled)
      decreases |loop| - calls
    {
      if Breaks(loop[calls], cancelled) {
        broke := true;
      } else if loop[calls].Event? && ftdi.incoming != [] {
        ghost var piece;
        done', piece := HandleEvent(ftdi, tc, accepts[n'], left, took');
        Regroup(took', piece, ftdi.incoming);
        LastIs(took', piece);
        took', n' := took' + piece, n' + 1;
      }
      calls := calls + 1;
    }
  }

  lemma LastIs(took: seq<Transfer>, piece: seq<Transfer>)
    requires |piece| == 1
    ensures LastFailed(took + piece) == piece[0].Failed? && took <= took + piece
  {
  }

  /** One transfer ends, and its callback runs. */
  method HandleEvent(ftdi: FtdiContext, tc: TransferControl, accept: bool, ghost left: seq<byte>,
                     ghost took: seq<Transfer>)
    returns (done: bool, ghost piece: seq<Transfer>)
    requires ftdi.packetSize > 2 && Standing(ftdi, tc, left + Payloads(took, ftdi.packetSize))
    requires !tc.completed && ftdi.incoming != []
    modifies ftdi`offset, ftdi`remaining, ftdi`incoming, ftdi.readbuffer, tc`offset, tc`completed, tc.buf
    ensures old(ftdi.incoming) == piece + ftdi.incoming && |piece| == 1
    ensures Standing(ftdi, tc, left + Payloads(took + piece, ftdi.packetSize))
    ensures Needed(left, took + piece, tc.size, ftdi.packetSize)
    ensures tc.completed && tc.offset < tc.size ==> !accept
    ensures done == !piece[0].Failed?
  {
    var code, actual, taken := ftdi.BulkTransfer();
    piece := taken;
    done := code >= 0;
    ghost var stream := left + Payloads(took, ftdi.packetSize);
    ReadDataCallback(ftdi, tc, actual, accept, stream);
    PayloadsStep(took, piece, ftdi.packetSize);
    assert (took + piece)[..|took|] == took;
    Regroup(left, Payloads(took, ftdi.packetSize), PayloadIn(piece[0], ftdi.packetSize));
  }

  lemma Waiting(left: seq<byte>, size: nat, p: nat)
    requires p > 2
    ensures left + Payloads([], p) == left && Needed(left, [], size, p)
  {
  }

  lemma PayloadsGrow(a: seq<Transfer>, b: seq<Transfer>, p: nat)
    requires p > 2
    ensures |Payloads(a, p)| <= |Payloads(a + b, p)|
  {
    PayloadsConcat(a, b, p);
  }

  lemma NeededOnce(left: seq<byte>, a: seq<Transfer>, b: seq<Transfer>, size: nat, p: nat)
    requires p > 2 && Needed(left, b, size, p) && a <= b && |left + Payloads(a, p)| >= size
    ensures a == b
  {
    if |a| < |b| {
      var c := b[..|b| - 1];
      var d := c[|a|..];
      assert a + d == c;
      PayloadsGrow(a, d, p);
    }
  }

  lemma SplitAlike<T>(a: seq<T>, b: seq<T>, c: seq<T>, d: seq<T>)
    requires a + b == c + d && |a| <= |c|
    ensures a <= c && (|a| == |c| ==> a == c && b == d)
  {
    assert a == (a + b)[..|a|] == (c + d)[..|a|] == c[..|a|];
    assert b == (a + b)[|a|..];
    assert d == (c + d)[|c|..];
  }

  /** A synchronous and an asynchronous read that both get all they ask for, from the same waiting bytes and the same
      transfers, take the same transfers, return the same bytes and leave the same bytes waiting. */
  lemma SynchronousIsAsynchronous(left: seq<byte>, took: seq<Transfer>, more: seq<Transfer>, out: seq<byte>,
                                  rest: seq<byte>,
                                  took': seq<Transfer>, more': seq<Transfer>, out': seq<byte>, rest': seq<byte>, p: nat)
    requires p > 2 && Served(left, took, more, out, |out|, rest, p)
    requires Needed(left, took', |out'|, p) && out' + rest' == left + Payloads(took', p)
    requires |out| == |out'| && took + more == took' + more'
    ensures took == took' && out == out' && rest == rest'
  {
    assert out[..|out|] == out;
    ghost var stream, stream' := left + Payloads(took, p), left + Payloads(took', p);
    assert out + rest == stream && |stream| >= |out| && |stream'| >= |out|;
    assert Needed(left, took, |out|, p);
    hide *;
    if |took| <= |took'| {
      SplitAlike(took, more, took', more');
      NeededOnce(left, took, took', |out|, p);
    } else {
      SplitAlike(took', more', took, more);
      NeededOnce(left, took', took, |out|, p);
    }
    SplitAlike(out, rest, out', rest');
  }
}
