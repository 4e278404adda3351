/** The cable driver of iobase.cpp and ioftdi.cpp: a bit buffer of pending TMS moves in front of a byte buffer of
    MPSSE commands in front of the USB adapter. */
module IoFtdi {
  import opened Bits
  import opened Tap
  import opened Mpsse

  const SEND_IMMEDIATE: byte := 0x87

  // Command bits, as named in ftdi.h.
  const WRITE_NEG: byte := 0x01
  const BITMODE: byte := 0x02
  const READ_NEG: byte := 0x04
  const LSB: byte := 0x08
  const DO_WRITE: byte := 0x10
  const DO_READ: byte := 0x20
  const WRITE_TMS: byte := 0x40

  const CHUNK_SIZE := 128
  const TX_BUF := 4096
  const NO_WAVE := Wave([], [])

  /** The clocks of one data shift: TMS rises only on the last one, when asked; without data TDI keeps its level,
      except that the separate last clock drives it low. */
  function ShiftClocks(held: Edge, tdi: Option<seq<byte>>, n: nat, last: bool): (r: seq<Edge>)
    requires tdi.Some? ==> n <= 8 * |tdi.value|
    ensures |r| == n
  {
    seq(n, i requires 0 <= i < n =>
      var ends := last && i == n - 1;
      Edge(if ends then true else held.tms,
           if tdi.Some? then BitAt(tdi.value, i) else if ends then false else held.tdi))
  }

  function Slice(tdi: Option<seq<byte>>, from: nat, to: nat): (r: Option<seq<byte>>)
    requires from <= to && (tdi.Some? ==> to <= |tdi.value|)
    ensures r.Some? <==> tdi.Some?
    ensures r.Some? ==> |r.value| == to - from
  {
    if tdi.Some? then Some(tdi.value[from..to]) else None
  }

  /** A data command that starts on a byte boundary goes on where the clocks before it stopped. */
  lemma DataClocksConcat(e0: seq<Edge>, tdi: Option<seq<byte>>, p: nat, to: nat, n: nat)
    requires p <= to && n <= 8 * (to - p) && (tdi.Some? ==> to <= |tdi.value|)
    ensures
      var e := e0 + DataClocks(Level(e0), tdi, 8 * p);
      e + DataClocks(Level(e), Slice(tdi, p, to), n) == e0 + DataClocks(Level(e0), tdi, 8 * p + n)
  {
    hide Bit;
    var h := Level(e0);
    var a := DataClocks(h, tdi, 8 * p);
    var b := DataClocks(Level(e0 + a), Slice(tdi, p, to), n);
    var whole := DataClocks(h, tdi, 8 * p + n);
    if p > 0 {
      assert Level(e0 + a) == a[8 * p - 1];
    } else {
      assert e0 + a == e0;
    }
    forall i | 0 <= i < n ensures b[i] == whole[8 * p + i] {
      if tdi.Some? {
        assert (8 * p + i) / 8 == p + i / 8 && (8 * p + i) % 8 == i % 8;
        assert tdi.value[p..to][i / 8] == tdi.value[p + i / 8];
        assert BitAt(Slice(tdi, p, to).value, i) == BitAt(tdi.value, 8 * p + i);
      }
    }
    assert whole[..8 * p] == a && whole[8 * p..] == b;
  }

  /** The clocks before the last one, then the TMS clock that carries the last bit. */
  lemma LastClock(e0: seq<Edge>, tdi: Option<seq<byte>>, n: nat, d: byte)
    requires tdi.Some? ==> n < 8 * |tdi.value|
    requires Bit(d, 0) && Bit(d, 7) == (tdi.Some? && BitAt(tdi.value, n))
    ensures e0 + DataClocks(Level(e0), tdi, n) + TmsClocks(d, 1) == e0 + ShiftClocks(Level(e0), tdi, n + 1, true)
  {
    hide Bit;
    var whole := ShiftClocks(Level(e0), tdi, n + 1, true);
    assert whole[..n] == DataClocks(Level(e0), tdi, n);
    assert whole[n..] == TmsClocks(d, 1);
  }

  lemma NoLastClock(h: Edge, tdi: Option<seq<byte>>, n: nat)
    requires tdi.Some? ==> n <= 8 * |tdi.value|
    ensures ShiftClocks(h, tdi, n, false) == DataClocks(h, tdi, n)
  {
  }

  /** The clocks of a shift of `n` equal bits. */
  function ConstClocks(held: Edge, tdi: bool, n: nat, last: bool): (r: seq<Edge>)
    ensures |r| == n
  {
    seq(n, i => Edge(if last && i == n - 1 then true else held.tms, tdi))
  }

  /** The constant blocks `ones` and `zeros`. */
  function Block(tdi: bool): seq<byte> {
    Repeat(if tdi then 0xFF else 0x00, CHUNK_SIZE)
  }

  lemma BlockBit(tdi: bool, i: nat)
    requires i < 8 * CHUNK_SIZE
    ensures BitAt(Block(tdi), i) == tdi
  {
  }

  lemma BlockClocks(held: Edge, tdi: bool, n: nat, last: bool)
    requires n <= 8 * CHUNK_SIZE
    ensures ShiftClocks(held, Some(Block(tdi)), n, last) == ConstClocks(held, tdi, n, last)
  {
    hide BitAt;
    forall i | 0 <= i < n ensures BitAt(Block(tdi), i) == tdi { BlockBit(tdi, i); }
  }

  lemma ConstClocksConcat(e0: seq<Edge>, tdi: bool, m: nat, n: nat, last: bool)
    requires n > 0
    ensures
      var e := e0 + ConstClocks(Level(e0), tdi, m, false);
      e + ConstClocks(Level(e), tdi, n, last) == e0 + ConstClocks(Level(e0), tdi, m + n, last)
  {
    var e := e0 + ConstClocks(Level(e0), tdi, m, false);
    if m == 0 { assert e == e0; }
    assert Level(e).tms == Level(e0).tms;
    var whole := ConstClocks(Level(e0), tdi, m + n, last);
    assert whole[..m] == ConstClocks(Level(e0), tdi, m, false);
    assert whole[m..] == ConstClocks(Level(e), tdi, n, last);
  }

  /** The command byte of a data shift, composed as `txrx_block` composes it. */
  function DataOp(write: bool, read: bool, bits: bool): (op: byte)
  {
    (if read then DO_READ | READ_NEG else 0) | (if write then DO_WRITE else 0) | LSB |
    (if bits then BITMODE else 0) | WRITE_NEG
  }

  /** The command byte of a TMS move or of the last bit of a shift. */
  function TmsOp(read: bool): (op: byte)
  {
    WRITE_TMS | (if read then DO_READ | READ_NEG else 0) | LSB | BITMODE | WRITE_NEG
  }

  function Payload(tdi: Option<seq<byte>>): seq<byte> {
    if tdi.Some? then tdi.value else []
  }

  lemma OpBits(write: bool, read: bool, bits: bool)
    requires write || read
    ensures var op := DataOp(write, read, bits);
      (if bits then IsBits(op) else IsBytes(op)) && !IsTms(op) && op != SEND_IMMEDIATE
      && (bits ==> !IsBytes(op)) && (!bits ==> !IsBits(op))
      && (Writes(op) <==> write) && (Reads(op) <==> read)
    ensures var op := TmsOp(read);
      IsTms(op) && !IsBits(op) && !IsBytes(op) && op != SEND_IMMEDIATE && (Reads(op) <==> read)
  {
  }

  /** The low and high bytes of a count field. */
  function CountField(n: nat): (r: (byte, byte))
    requires 1 <= n <= 0x10000
    ensures r.0 as nat + 256 * r.1 as nat + 1 == n
  {
    (ByteOf((n - 1) % 256), ByteOf((n - 1) / 256))
  }

  /** Meaning of a byte-mode command: the 16-bit count field carries `n - 1`. */
  lemma BytesCommand(tdi: Option<seq<byte>>, lo: byte, hi: byte, n: nat, read: bool, w: Wave)
    requires lo as nat + 256 * hi as nat + 1 == n && (tdi.Some? || read)
    requires tdi.Some? ==> |tdi.value| == n
    ensures
      var c := [DataOp(tdi.Some?, read, false), lo, hi] + Payload(tdi);
      CommandLength(c) == |c| && Execute(c, w) ==
        Wave(w.edges + DataClocks(Level(w.edges), tdi, 8 * n),
             w.slots + if read then ByteSlots(|w.edges|, n) else [])
  {
    OpBits(tdi.Some?, read, false);
    hide DataOp, IsBytes, IsBits, IsTms, Writes, Reads, DataClocks, ByteSlots, BitAt;
    var op := DataOp(tdi.Some?, read, false);
    var c := [op, lo, hi] + Payload(tdi);
    assert c[0] == op && c[1] == lo && c[2] == hi && c[3..] == Payload(tdi);
    assert Count(c) == n;
    assert tdi == if Writes(op) then Some(c[3..]) else None;
  }

  lemma BitsCommand(tdi: Option<byte>, n: nat, read: bool, w: Wave)
    requires 1 <= n <= 8 && (tdi.Some? || read)
    ensures
      var data := if tdi.Some? then Some([tdi.value]) else None;
      var c := [DataOp(tdi.Some?, read, true), (n - 1) as byte] + Payload(data);
      CommandLength(c) == |c| && Execute(c, w) ==
        Wave(w.edges + DataClocks(Level(w.edges), data, n),
             w.slots + if read then [Slot(|w.edges|, n)] else [])
  {
    OpBits(tdi.Some?, read, true);
    hide DataOp, IsBytes, IsBits, IsTms, Writes, Reads, DataClocks, BitAt;
  }

  lemma TmsCommand(d: byte, n: nat, read: bool, w: Wave)
    requires 1 <= n <= 7
    ensures
      var c := [TmsOp(read), (n - 1) as byte, d];
      CommandLength(c) == |c| && Execute(c, w) ==
        Wave(w.edges + TmsClocks(d, n), w.slots + if read then [Slot(|w.edges|, n)] else [])
  {
    OpBits(true, read, true);
  }

  /** Bits in `q` whole bytes, a partial byte and the last bit. */
  function Total(q: nat, rembits: nat, last: bool): nat {
    8 * q + rembits + if last then 1 else 0
  }

  /** The reply bytes of the tail of a shift: `q` whole bytes, a partial byte, and the byte of the last clock. */
  function TailSlots(at: nat, q: nat, rembits: nat, last: bool): (r: seq<Slot>)
    ensures |r| == q + (if rembits > 0 then 1 else 0) + (if last then 1 else 0)
  {
    ByteSlots(at, q) + (if rembits > 0 then [Slot(at + 8 * q, rembits)] else [])
      + (if last then [Slot(at + 8 * q + rembits, 1)] else [])
  }

  /** The realigned last byte: the partial byte shifted down, with the sample of the last clock put on top of it. */
  function Realigned(partial: byte, final: byte, rembits: nat, last: bool): byte
    requires rembits < 8
  {
    if !last then partial >> (8 - rembits)
    else if rembits == 0 then (if final & 0x80 != 0 then 1 else 0)
    else (partial >> (8 - rembits)) | ((final & 0x80) >> (7 - rembits))
  }

  lemma ShiftedDown(b: byte, n: nat, i: nat)
    requires 1 <= n <= 8 && i < 8
    ensures Bit(b >> (8 - n), i) == (i < n && Bit(b, 8 - n + i))
  {
  }

  lemma TopBitMoved(b: byte, n: nat, i: nat)
    requires n <= 7 && i < 8
    ensures Bit((b & 0x80) >> (7 - n), i) == (i == n && Bit(b, 7))
  {
  }

  lemma BitOr(a: byte, b: byte, i: nat)
    requires i < 8
    ensures Bit(a | b, i) == (Bit(a, i) || Bit(b, i))
  {
  }

  lemma RealignedBits(partial: byte, final: byte, rembits: nat, last: bool, i: nat)
    requires rembits < 8 && i < 8 && (last || rembits > 0)
    ensures Bit(Realigned(partial, final, rembits, last), i) ==
      if i < rembits then Bit(partial, 8 - rembits + i) else last && i == rembits && Bit(final, 7)
  {
    if rembits > 0 {
      ShiftedDown(partial, rembits, i);
      TopBitMoved(final, rembits, i);
      BitOr(partial >> (8 - rembits), (final & 0x80) >> (7 - rembits), i);
    }
  }

  /** Setting one bit of a byte. */
  lemma BitSet(b: byte, k: nat, i: nat)
    requires k < 8 && i < 8
    ensures Bit(b | Mask(k), i) == (i == k || Bit(b, i))
  {
  }

  class IoFtdi {
    // The adapter at the other end: the bytes written to it, the reply bytes already read from it, the level of TDO
    // as a function of the clocks made so far, and what its receive register held before each reply byte.
    var sent: seq<byte>
    var taken: nat
    const target: seq<Edge> -> bool
    const stale: nat -> byte

    const tmsBuf: array<byte>
    var tmsLen: nat
    const usbuf: array<byte>
    var bptr: nat

    /** The meaning of `sent + usbuf[..bptr]`. */
    ghost var wave: Wave

    ghost predicate Sane()
      reads this`bptr
    {
      && tmsBuf.Length == 128 && usbuf.Length == 4096 && tmsBuf != usbuf
      && bptr <= 4094
    }

    /** The pending moves fit their buffer, and the unused part of it is clear. */
    ghost predicate TmsClear()
      reads this`tmsLen, tmsBuf
    {
      && tmsBuf.Length == 128
      && tmsLen <= 8 * CHUNK_SIZE
      && forall i :: tmsLen <= i < 8 * CHUNK_SIZE ==> !BitAt(tmsBuf[..], i)
    }

    ghost function Stream(): seq<byte>
      requires Sane()
      reads this`sent, this`bptr, usbuf
    {
      sent + usbuf[..bptr]
    }

    ghost predicate Valid()
      reads this`sent, this`bptr, this`wave, this`taken, usbuf
    {
      && Sane()
      && Interpret(Stream(), NO_WAVE) == Some(wave)
      && SlotsFit(wave)
      && taken <= |wave.slots|
    }

    /** No reply is outstanding: every byte asked for has been read. */
    ghost predicate Settled()
      reads this
    {
      taken == |wave.slots|
    }

    ghost function Pending(): (r: seq<bool>)
      requires TmsClear()
      reads this`tmsLen, tmsBuf
    {
      BitsOf(tmsBuf[..], tmsLen)
    }

    /** All clocks asked for so far: those in the command stream, then the pending moves. */
    ghost function Edges(): seq<Edge>
      requires TmsClear()
      reads this`tmsLen, this`wave, tmsBuf
    {
      wave.edges + Moves(Pending())
    }

    /** The level of TDO during clock `t`. */
    function Sample(e: seq<Edge>, t: nat): bool
      requires t < |e|
    {
      target(e[..t])
    }

    /** The levels of TDO during the `n` clocks from clock `at` on. */
    function Samples(e: seq<Edge>, at: nat, n: nat): (r: seq<bool>)
      requires at + n <= |e|
      ensures |r| == n
    {
      seq(n, i requires 0 <= i < n => Sample(e, at + i))
    }

    lemma SamplesConcat(e: seq<Edge>, more: seq<Edge>, at: nat, m: nat, n: nat)
      requires at + m <= |e| && at + m + n <= |e + more|
      ensures Samples(e + more, at, m + n) == Samples(e, at, m) + Samples(e + more, at + m, n)
    {
      var whole := Samples(e + more, at, m + n);
      forall i | 0 <= i < m ensures whole[i] == Samples(e, at, m)[i] {
        assert (e + more)[..at + i] == e[..at + i];
        assert Sample(e + more, at + i) == Sample(e, at + i);
      }
      assert whole[m..] == Samples(e + more, at + m, n);
    }

    function Reply(w: Wave, k: nat): byte
      requires SlotsFit(w) && k < |w.slots|
    {
      var slot := w.slots[k];
      Receive(seq(slot.n, i requires 0 <= i < slot.n => Sample(w.edges, slot.at + i)), stale(k))
    }

    function Replies(w: Wave, from: nat, n: nat): (r: seq<byte>)
      requires SlotsFit(w) && from + n <= |w.slots|
      ensures |r| == n && forall k :: 0 <= k < n ==> r[k] == Reply(w, from + k)
    {
      seq(n, k requires 0 <= k < n => Reply(w, from + k))
    }

    lemma ReplyBits(w: Wave, k: nat, i: nat)
      requires SlotsFit(w) && k < |w.slots| && i < w.slots[k].n
      ensures Bit(Reply(w, k), 8 - w.slots[k].n + i) == Sample(w.edges, w.slots[k].at + i)
    {
      var slot := w.slots[k];
      ReceivedBits(seq(slot.n, i requires 0 <= i < slot.n => Sample(w.edges, slot.at + i)), stale(k), i);
    }

    constructor (target: seq<Edge> -> bool, stale: nat -> byte)
      ensures Valid() && Settled() && TmsClear() && Edges() == [] && tmsLen == 0
      ensures this.target == target && this.stale == stale
      ensures fresh(tmsBuf) && fresh(usbuf)
    {
      this.target := target;
      this.stale := stale;
      sent, taken, tmsLen, bptr := [], 0, 0, 0;
      tmsBuf := new byte[CHUNK_SIZE](_ => 0);
      usbuf := new byte[TX_BUF](_ => 0);
      wave := NO_WAVE;
    }

    // ----- ioftdi.cpp: the command buffer

    method MpsseSend()
      requires Sane()
      modifies this`sent, this`bptr
      ensures Sane() && Stream() == old(Stream()) && bptr == 0
      ensures sent == old(Stream())
    {
      if bptr == 0 {
        return;
      }
      sent := sent + usbuf[..bptr];
      bptr := 0;
    }

    method MpsseAddCmd(buf: seq<byte>)
      requires Sane() && |buf| <= TX_BUF - 3
      modifies this`sent, this`bptr, usbuf
      ensures Sane() && Stream() == old(Stream()) + buf
    {
      if bptr + |buf| + 1 >= TX_BUF {
        MpsseSend();
      }
      label copy:
      forall i | 0 <= i < |buf| {
        usbuf[bptr + i] := buf[i];
      }
      bptr := bptr + |buf|;
      assert usbuf[..bptr] == old@copy(usbuf[..bptr]) + buf;
    }

    /** Add one whole command, given in the one or two pieces the driver adds it in. */
    method Command(head: seq<byte>, data: seq<byte>)
      requires Valid() && 1 <= |head| <= 3 && |data| <= TX_BUF - 3
      requires CommandLength(head + data) == |head + data|
      modifies this`sent, this`bptr, this`wave, usbuf
      ensures Valid() && wave == Execute(head + data, old(wave))
    {
      hide Execute, CommandLength, Interpret, SlotsFit;
      ghost var s := Stream();
      MpsseAddCmd(head);
      if data != [] {
        MpsseAddCmd(data);
      }
      assert Stream() == s + (head + data);
      InterpretThen(s, head + data, NO_WAVE);
      ExecuteFits(head + data, wave);
      wave := Execute(head + data, wave);
    }

    static lemma Sending(w: Wave)
      ensures CommandLength([SEND_IMMEDIATE] + []) == 1 && Execute([SEND_IMMEDIATE] + [], w) == w
    {
    }

    /** Ask the adapter to answer now, and read `len` reply bytes. */
    method ReadUsb(rbuf: array<byte>, at: nat, len: nat)
      requires Valid() && taken + len <= |wave.slots|
      requires at + len <= rbuf.Length && rbuf != tmsBuf && rbuf != usbuf
      modifies this`sent, this`bptr, this`wave, this`taken, usbuf, rbuf
      ensures Valid() && wave == old(wave) && taken == old(taken) + len
      ensures rbuf[at..at + len] == Replies(wave, old(taken), len)
      ensures rbuf[..at] == old(rbuf[..at]) && rbuf[at + len..] == old(rbuf[at + len..])
    {
      hide Execute, Interpret, Replies;
      assert CommandLength([SEND_IMMEDIATE] + []) == 1 && Execute([SEND_IMMEDIATE] + [], wave) == wave by {
        Sending(wave);
      }
      Command([SEND_IMMEDIATE], []);
      MpsseSend();
      var answer := Replies(Interpret(sent, NO_WAVE).value, taken, len);
      forall k | 0 <= k < len {
        rbuf[at + k] := answer[k];
      }
      taken := taken + len;
    }

    // ----- ioftdi.cpp: one data shift

    /** A byte-mode command for `n` whole bytes. */
    method ClockBytes(tdi: Option<seq<byte>>, n: nat, read: bool)
      requires Valid() && 1 <= n <= TX_BUF - 3 && (tdi.Some? || read)
      requires tdi.Some? ==> |tdi.value| == n
      modifies this`sent, this`bptr, this`wave, usbuf
      ensures Valid()
      ensures wave.edges == old(wave.edges) + DataClocks(Level(old(wave.edges)), tdi, 8 * n)
      ensures wave.slots == old(wave.slots) + if read then ByteSlots(|old(wave.edges)|, n) else []
    {
      var (lo, hi) := CountField(n);
      BytesCommand(tdi, lo, hi, n, read, wave);
      Command([DataOp(tdi.Some?, read, false), lo, hi], Payload(tdi));
    }

    /** A bit-mode command for the first `n` bits of a byte. */
    method ClockBits(tdi: Option<byte>, n: nat, read: bool)
      requires Valid() && 1 <= n <= 7 && (tdi.Some? || read)
      modifies this`sent, this`bptr, this`wave, usbuf
      ensures Valid()
      ensures wave.edges == old(wave.edges)
        + DataClocks(Level(old(wave.edges)), if tdi.Some? then Some([tdi.value]) else None, n)
      ensures wave.slots == old(wave.slots) + if read then [Slot(|old(wave.edges)|, n)] else []
    {
      BitsCommand(tdi, n, read, wave);
      Command([DataOp(tdi.Some?, read, true), (n - 1) as byte], if tdi.Some? then [tdi.value] else []);
    }

    /** A TMS command for `n` clocks. */
    method ClockTms(d: byte, n: nat, read: bool)
      requires Valid() && 1 <= n <= 7
      modifies this`sent, this`bptr, this`wave, usbuf
      ensures Valid()
      ensures wave.edges == old(wave.edges) + TmsClocks(d, n)
      ensures wave.slots == old(wave.slots) + if read then [Slot(|old(wave.edges)|, n)] else []
    {
      TmsCommand(d, n, read, wave);
      assert [TmsOp(read), (n - 1) as byte, d] + [] == [TmsOp(read), (n - 1) as byte, d];
      Command([TmsOp(read), (n - 1) as byte, d], []);
    }

    lemma ByteReplies(w: Wave, from: nat, at: nat, q: nat, i: nat)
      requires SlotsFit(w) && from + q <= |w.slots| && w.slots[from..from + q] == ByteSlots(at, q)
      requires i < 8 * q
      ensures at + i < |w.edges| && BitAt(Replies(w, from, q), i) == Sample(w.edges, at + i)
    {
      var j := i / 8;
      assert w.slots[from + j] == w.slots[from..from + q][j] == Slot(at + 8 * j, 8);
      ReplyBits(w, from + j, i % 8);
    }

    /** What the tail of a shift leaves in the caller's buffer. */
    function TailBytes(w: Wave, from: nat, q: nat, rembits: nat, last: bool): (r: seq<byte>)
      requires SlotsFit(w) && rembits < 8
      requires |w.slots| == from + q + (if rembits > 0 then 1 else 0) + (if last then 1 else 0)
      ensures |r| == BytesFor(8 * q + rembits + if last then 1 else 0)
    {
      Replies(w, from, q) +
      if rembits == 0 && !last then []
      else [Realigned(if rembits > 0 then Reply(w, from + q) else 0, if last then Reply(w, |w.slots| - 1) else 0,
        rembits, last)]
    }

    /** Those bytes hold the samples of the tail's clocks in order, and zeros above them. */
    lemma TailBits(w: Wave, from: nat, at: nat, q: nat, rembits: nat, last: bool, i: nat)
      requires SlotsFit(w) && from <= |w.slots| && rembits < 8
      requires w.slots[from..] == TailSlots(at, q, rembits, last)
      requires at + 8 * q + rembits + (if last then 1 else 0) <= |w.edges|
      requires i < 8 * |TailBytes(w, from, q, rembits, last)|
      ensures
        var n := 8 * q + rembits + if last then 1 else 0;
        BitAt(TailBytes(w, from, q, rembits, last), i) == (i < n && Sample(w.edges, at + i))
    {
      hide Bit, Realigned;
      if i < 8 * q {
        WholeByteBits(w, from, at, q, TailBytes(w, from, q, rembits, last)[q..], i);
      } else {
        LastByteBits(w, from, at, q, rembits, last, i - 8 * q);
        BitAtConcat(Replies(w, from, q), TailBytes(w, from, q, rembits, last)[q..], i);
      }
    }

    lemma TailPacked(w: Wave, from: nat, at: nat, q: nat, rembits: nat, last: bool)
      requires SlotsFit(w) && from <= |w.slots| && rembits < 8
      requires w.slots[from..] == TailSlots(at, q, rembits, last)
      requires at + 8 * q + rembits + (if last then 1 else 0) <= |w.edges|
      ensures TailBytes(w, from, q, rembits, last)
        == Pack(Samples(w.edges, at, 8 * q + rembits + if last then 1 else 0))
    {
      var s := TailBytes(w, from, q, rembits, last);
      var bits := Samples(w.edges, at, 8 * q + rembits + if last then 1 else 0);
      forall i | 0 <= i < 8 * |s| ensures BitAt(s, i) == (i < |bits| && bits[i]) {
        TailBits(w, from, at, q, rembits, last, i);
      }
      PackUnique(s, bits);
    }

    lemma WholeByteBits(w: Wave, from: nat, at: nat, q: nat, rest: seq<byte>, i: nat)
      requires SlotsFit(w) && from + q <= |w.slots| && w.slots[from..][..q] == ByteSlots(at, q)
      requires i < 8 * q
      ensures at + i < |w.edges| && BitAt(Replies(w, from, q) + rest, i) == Sample(w.edges, at + i)
    {
      assert w.slots[from..from + q] == w.slots[from..][..q];
      ByteReplies(w, from, at, q, i);
      BitAtConcat(Replies(w, from, q), rest, i);
    }

    lemma LastByteBits(w: Wave, from: nat, at: nat, q: nat, rembits: nat, last: bool, i: nat)
      requires SlotsFit(w) && from <= |w.slots| && rembits < 8
      requires w.slots[from..] == TailSlots(at, q, rembits, last)
      requires i < 8 && (rembits > 0 || last)
      ensures
        var n := rembits + if last then 1 else 0;
        var b := Realigned(if rembits > 0 then Reply(w, from + q) else 0, if last then Reply(w, |w.slots| - 1) else 0,
          rembits, last);
        at + 8 * q + n <= |w.edges| ==> Bit(b, i) == (i < n && Sample(w.edges, at + 8 * q + i))
    {
      var partial := if rembits > 0 then Reply(w, from + q) else 0;
      var final := if last then Reply(w, |w.slots| - 1) else 0;
      RealignedBits(partial, final, rembits, last, i);
      if rembits > 0 {
        assert w.slots[from + q] == w.slots[from..][q] == Slot(at + 8 * q, rembits);
        if i < rembits { ReplyBits(w, from + q, i); }
      }
      if last {
        assert w.slots[|w.slots| - 1] == w.slots[from..][|w.slots| - 1 - from] == Slot(at + 8 * q + rembits, 1);
        ReplyBits(w, |w.slots| - 1, 0);
      }
    }

    /** Read the replies of the tail of a shift without a last clock: straight into the caller's buffer. */
    method ReadInPlace(tdo: array<byte>, rp: nat, q: nat, rembits: nat)
      requires Valid() && rembits < 8
      requires |wave.slots| == taken + q + (if rembits > 0 then 1 else 0)
      requires tdo != tmsBuf && tdo != usbuf
      requires rp + BytesFor(8 * q + rembits) <= tdo.Length
      modifies this`sent, this`bptr, this`wave, this`taken, usbuf, tdo
      ensures Valid() && Settled() && wave == old(wave)
      ensures Overwritten(old(tdo[..]), tdo[..], rp, TailBytes(wave, old(taken), q, rembits, false))
    {
      hide Interpret, SlotsFit, Replies, TailBytes;
      var buflen := if rembits > 0 then q + 1 else q;
      ReadUsb(tdo, rp, buflen);
      ghost var r := tdo[rp..rp + buflen];
      if rembits != 0 {
        tdo[rp + buflen - 1] := tdo[rp + buflen - 1] >> (8 - rembits);
      }
      assert tdo[rp..rp + buflen] == if rembits != 0 then r[q := r[q] >> (8 - rembits)] else r;
      PatchedTail(wave, old(taken), q, rembits, r);
    }

    /** Read the replies of the tail of a shift with a last clock into an extra buffer, and merge the last bit. */
    method ReadMerged(rbuf: array<byte>, q: nat, rembits: nat)
      requires Valid() && rembits < 8
      requires |wave.slots| == taken + q + (if rembits > 0 then 2 else 1)
      requires rbuf != tmsBuf && rbuf != usbuf && q + 2 <= rbuf.Length
      modifies this`sent, this`bptr, this`wave, this`taken, usbuf, rbuf
      ensures Valid() && Settled() && wave == old(wave)
      ensures rbuf[..q + 1] == TailBytes(wave, old(taken), q, rembits, true)
    {
      var buflen := if rembits > 0 then q + 2 else q + 1;
      ReadUsb(rbuf, 0, buflen);
      ghost var r := rbuf[0..buflen];
      PatchedTailLast(wave, old(taken), q, rembits, r);
      assert r[..q] == rbuf[..q] && r[q] == rbuf[q] && r[|r| - 1] == rbuf[buflen - 1];
      MergeLastBit(rbuf, q, rembits);
    }

    /** Read the replies of the tail of a shift with a last clock, by way of an extra buffer. */
    method ReadThroughBuffer(tdo: array<byte>, rp: nat, q: nat, rembits: nat)
      requires Valid() && rembits < 8
      requires |wave.slots| == taken + q + (if rembits > 0 then 2 else 1)
      requires q + 2 <= TX_BUF
      requires tdo != tmsBuf && tdo != usbuf
      requires rp + q + 1 <= tdo.Length
      modifies this`sent, this`bptr, this`wave, this`taken, usbuf, tdo
      ensures Valid() && Settled() && wave == old(wave)
      ensures Overwritten(old(tdo[..]), tdo[..], rp, TailBytes(wave, old(taken), q, rembits, true))
    {
      hide Interpret, SlotsFit, Replies, TailBytes;
      var rbuf := new byte[TX_BUF];
      ReadMerged(rbuf, q, rembits);
      assert tdo[..] == old(tdo[..]);
      CopyBytes(tdo, rp, rbuf, q + 1);
    }

    /** memcpy(dst + at, src, n). */
    method CopyBytes(dst: array<byte>, at: nat, src: array<byte>, n: nat)
      requires dst != src && n <= src.Length && at + n <= dst.Length
      modifies dst
      ensures Overwritten(old(dst[..]), dst[..], at, src[..n])
    {
      forall k | 0 <= k < n {
        dst[at + k] := src[k];
      }
    }

    /** Put the sample of the last clock, which sits in bit 7 of its own reply byte, on top of the partial byte. */
    method MergeLastBit(rbuf: array<byte>, q: nat, rembits: nat)
      requires rembits < 8 && q + 2 <= rbuf.Length
      modifies rbuf
      ensures rbuf[..q + 1] == old(rbuf[..q])
        + [Realigned(if rembits > 0 then old(rbuf[q]) else 0, old(rbuf[if rembits > 0 then q + 1 else q]),
          rembits, true)]
    {
      if rembits == 0 {
        rbuf[q] := if rbuf[q] & 0x80 != 0 then 1 else 0;
      } else {
        rbuf[q] := (rbuf[q] >> (8 - rembits)) | ((rbuf[q + 1] & 0x80) >> (7 - rembits));
      }
    }

    lemma PatchedTail(w: Wave, from: nat, q: nat, rembits: nat, r: seq<byte>)
      requires SlotsFit(w) && rembits < 8 && |w.slots| == from + |r|
      requires |r| == q + (if rembits > 0 then 1 else 0) && r == Replies(w, from, |r|)
      ensures TailBytes(w, from, q, rembits, false) == if rembits != 0 then r[q := r[q] >> (8 - rembits)] else r
    {
      assert r[..q] == Replies(w, from, q);
    }

    lemma PatchedTailLast(w: Wave, from: nat, q: nat, rembits: nat, r: seq<byte>)
      requires SlotsFit(w) && rembits < 8 && |w.slots| == from + |r|
      requires |r| == q + (if rembits > 0 then 2 else 1) && r == Replies(w, from, |r|)
      ensures TailBytes(w, from, q, rembits, true)
        == r[..q] + [Realigned(if rembits > 0 then r[q] else 0, r[|r| - 1], rembits, true)]
    {
      assert r[..q] == Replies(w, from, q);
    }

    /** Clock `full` whole bytes that start at byte `p` of the data. */
    method ClockWhole(tdi: Option<seq<byte>>, p: nat, full: nat, read: bool, ghost e0: seq<Edge>)
      requires Valid() && full <= TX_BUF - 3 && (tdi.Some? || read)
      requires tdi.Some? ==> p + full <= |tdi.value|
      requires wave.edges == e0 + DataClocks(Level(e0), tdi, 8 * p)
      modifies this`sent, this`bptr, this`wave, usbuf
      ensures Valid() && old(wave.edges) <= wave.edges
      ensures wave.edges == e0 + DataClocks(Level(e0), tdi, 8 * (p + full))
      ensures wave.slots == old(wave.slots) + if read then ByteSlots(|old(wave.edges)|, full) else []
    {
      hide Interpret, DataClocks, BitAt;
      if full != 0 {
        DataClocksConcat(e0, tdi, p, p + full, 8 * full);
        ClockBytes(Slice(tdi, p, p + full), full, read);
      }
    }

    /** Clock the low `n` bits of byte `p` of the data. */
    method ClockPartial(tdi: Option<seq<byte>>, p: nat, n: nat, read: bool, ghost e0: seq<Edge>)
      requires Valid() && n < 8 && (tdi.Some? || read)
      requires tdi.Some? && n > 0 ==> p < |tdi.value|
      requires tdi.Some? ==> p <= |tdi.value|
      requires wave.edges == e0 + DataClocks(Level(e0), tdi, 8 * p)
      modifies this`sent, this`bptr, this`wave, usbuf
      ensures Valid() && old(wave.edges) <= wave.edges
      ensures wave.edges == e0 + DataClocks(Level(e0), tdi, 8 * p + n)
      ensures wave.slots == old(wave.slots) + if read && n > 0 then [Slot(|old(wave.edges)|, n)] else []
    {
      hide Interpret, DataClocks;
      if n != 0 {
        DataClocksConcat(e0, tdi, p, p + 1, n);
        assert tdi.Some? ==> tdi.value[p..p + 1] == [tdi.value[p]];
        ClockBits(if tdi.Some? then Some(tdi.value[p]) else None, n, read);
      }
    }

    /** Clock bit `n` of byte `p` of the data together with TMS high. */
    method ClockLast(tdi: Option<seq<byte>>, p: nat, n: nat, read: bool, ghost e0: seq<Edge>)
      requires Valid() && n < 8 && (tdi.Some? ==> p < |tdi.value|)
      requires wave.edges == e0 + DataClocks(Level(e0), tdi, 8 * p + n)
      modifies this`sent, this`bptr, this`wave, usbuf
      ensures Valid() && old(wave.edges) <= wave.edges
      ensures wave.edges == e0 + ShiftClocks(Level(e0), tdi, 8 * p + n + 1, true)
      ensures wave.slots == old(wave.slots) + if read then [Slot(|old(wave.edges)|, 1)] else []
    {
      var lastbit := tdi.Some? && Bit(tdi.value[p], n);
      var d: byte := if lastbit then 0x81 else 0x01;
      LastClock(e0, tdi, 8 * p + n, d);
      hide DataClocks, ShiftClocks, Interpret, Level, TmsClocks;
      ClockTms(d, 1, read);
    }

    /** Clock out the end of a shift: whole bytes, a partial byte, and the last bit together with TMS. */
    method TxRxTail(tdi: Option<seq<byte>>, tdo: array?<byte>, p: nat, full: nat, rembits: nat, last: bool,
                    ghost e0: seq<Edge>)
      requires Valid() && Settled() && full <= TX_BUF - 3 && rembits < 8 && (tdi.Some? || tdo != null)
      requires tdi.Some? ==> BytesFor(Total(p + full, rembits, last)) <= |tdi.value|
      requires tdo != tmsBuf && tdo != usbuf
      requires tdo != null ==> BytesFor(Total(p + full, rembits, last)) <= tdo.Length
      requires wave.edges == e0 + DataClocks(Level(e0), tdi, 8 * p)
      modifies this`sent, this`bptr, this`wave, this`taken, usbuf, tdo
      ensures Valid() && Settled()
      ensures
        && wave.edges == e0 + ShiftClocks(Level(e0), tdi, Total(p + full, rembits, last), last)
        && (tdo != null ==>
          Overwritten(old(tdo[..]), tdo[..], p, Pack(Samples(wave.edges, |e0| + 8 * p, Total(full, rembits, last)))))
    {
      hide Interpret, DataClocks, ShiftClocks, Pack, TailBytes;
      ghost var at := |wave.edges|;
      ClockWhole(tdi, p, full, tdo != null, e0);
      if full < TX_BUF - 4 {
        TxRxEnd(tdi, tdo, p + full, p, full, rembits, last, e0);
      } else if tdo == null {
        TxRxEnd(tdi, tdo, p + full, p + full, 0, rembits, last, e0);
      } else {
        TxRxDirect(tdi, tdo, p, full, rembits, last, e0, at);
      }
    }

    /** No space for the last data: read the whole bytes directly, then finish the shift. */
    method TxRxDirect(tdi: Option<seq<byte>>, tdo: array<byte>, p: nat, full: nat, rembits: nat, last: bool,
                      ghost e0: seq<Edge>, ghost at: nat)
      requires Valid() && rembits < 8 && at == |e0| + 8 * p
      requires tdi.Some? ==> BytesFor(Total(p + full, rembits, last)) <= |tdi.value|
      requires tdo != tmsBuf && tdo != usbuf && BytesFor(Total(p + full, rembits, last)) <= tdo.Length
      requires wave.edges == e0 + DataClocks(Level(e0), tdi, 8 * (p + full))
      requires wave.slots[taken..] == ByteSlots(at, full)
      modifies this`sent, this`bptr, this`wave, this`taken, usbuf, tdo
      ensures Valid() && Settled()
      ensures wave.edges == e0 + ShiftClocks(Level(e0), tdi, Total(p + full, rembits, last), last)
      ensures Overwritten(old(tdo[..]), tdo[..], p, Pack(Samples(wave.edges, at, Total(full, rembits, last))))
    {
      hide Interpret, DataClocks, ShiftClocks, Pack, TailBytes, Overwritten;
      ReadWhole(tdo, p, full, at);
      ghost var mid, edges := tdo[..], wave.edges;
      TxRxEnd(tdi, tdo, p + full, p + full, 0, rembits, last, e0);
      JoinReads(old(tdo[..]), mid, tdo[..], p, edges, wave.edges, at, full, Total(0, rembits, last));
    }

    /** After `sp` bytes were clocked, of which the replies of the last `q` are still to be read: clock the partial
        byte and the last bit, and read the outstanding replies at once. */
    method TxRxEnd(tdi: Option<seq<byte>>, tdo: array?<byte>, sp: nat, rp: nat, q: nat, rembits: nat, last: bool,
                   ghost e0: seq<Edge>)
      requires Valid() && q <= sp && q <= TX_BUF - 5 && rembits < 8 && (tdi.Some? || tdo != null)
      requires tdi.Some? ==> BytesFor(Total(sp, rembits, last)) <= |tdi.value|
      requires tdo != tmsBuf && tdo != usbuf
      requires tdo != null ==> rp + BytesFor(Total(q, rembits, last)) <= tdo.Length
      requires wave.edges == e0 + DataClocks(Level(e0), tdi, 8 * sp)
      requires wave.slots[taken..] == if tdo != null then ByteSlots(|e0| + 8 * (sp - q), q) else []
      modifies this`sent, this`bptr, this`wave, this`taken, usbuf, tdo
      ensures Valid() && Settled() && old(wave.edges) <= wave.edges
      ensures
        && wave.edges == e0 + ShiftClocks(Level(e0), tdi, Total(sp, rembits, last), last)
        && (tdo != null ==>
          Overwritten(old(tdo[..]), tdo[..], rp,
            Pack(Samples(wave.edges, |e0| + 8 * (sp - q), Total(q, rembits, last)))))
    {
      hide Interpret, DataClocks, ShiftClocks, Pack, Samples, Overwritten;
      ghost var at := |e0| + 8 * (sp - q);
      ClockEnd(tdi, sp, rembits, last, tdo != null, e0);
      if tdo != null {
        ReadEnd(tdo, rp, q, rembits, last, at);
      }
    }

    /** Clock the partial byte and the last bit. */
    method ClockEnd(tdi: Option<seq<byte>>, sp: nat, rembits: nat, last: bool, read: bool, ghost e0: seq<Edge>)
      requires Valid() && rembits < 8 && (tdi.Some? || read)
      requires tdi.Some? ==> BytesFor(Total(sp, rembits, last)) <= |tdi.value|
      requires wave.edges == e0 + DataClocks(Level(e0), tdi, 8 * sp)
      modifies this`sent, this`bptr, this`wave, usbuf
      ensures Valid() && old(wave.edges) <= wave.edges
      ensures wave.edges == e0 + ShiftClocks(Level(e0), tdi, Total(sp, rembits, last), last)
      ensures wave.slots == old(wave.slots)
        + if read then TailSlots(|old(wave.edges)|, 0, rembits, last) else []
    {
      hide Interpret, DataClocks, ShiftClocks, SlotsFit;
      ClockPartial(tdi, sp, rembits, read, e0);
      if last {
        ClockLast(tdi, sp, rembits, read, e0);
      } else {
        NoLastClock(Level(e0), tdi, 8 * sp + rembits);
      }
    }

    /** Read the outstanding replies of the end of a shift. */
    method ReadEnd(tdo: array<byte>, rp: nat, q: nat, rembits: nat, last: bool, ghost at: nat)
      requires Valid() && q <= TX_BUF - 5 && rembits < 8
      requires tdo != tmsBuf && tdo != usbuf && rp + BytesFor(Total(q, rembits, last)) <= tdo.Length
      requires at + Total(q, rembits, last) <= |wave.edges|
      requires wave.slots[taken..] == ByteSlots(at, q) + TailSlots(at + 8 * q, 0, rembits, last)
      modifies this`sent, this`bptr, this`wave, this`taken, usbuf, tdo
      ensures Valid() && Settled() && wave == old(wave)
      ensures Overwritten(old(tdo[..]), tdo[..], rp, Pack(Samples(wave.edges, at, Total(q, rembits, last))))
    {
      hide Interpret, Pack, TailBytes, Samples, Overwritten;
      assert wave.slots[taken..] == TailSlots(at, q, rembits, last);
      TailPacked(wave, taken, at, q, rembits, last);
      if last {
        ReadThroughBuffer(tdo, rp, q, rembits);
      } else {
        ReadInPlace(tdo, rp, q, rembits);
      }
    }

    /** Two reads into adjacent parts of the buffer are one read. */
    lemma JoinReads(a: seq<byte>, b: seq<byte>, c: seq<byte>, p: nat, e: seq<Edge>, e': seq<Edge>,
                    at: nat, m: nat, n: nat)
      requires e <= e' && at + 8 * m <= |e| && at + 8 * m + n <= |e'|
      requires Overwritten(a, b, p, Pack(Samples(e, at, 8 * m)))
      requires Overwritten(b, c, p + m, Pack(Samples(e', at + 8 * m, n)))
      ensures Overwritten(a, c, p, Pack(Samples(e', at, 8 * m + n)))
    {
      hide Pack, Samples, Overwritten;
      var x, y := Samples(e, at, 8 * m), Samples(e', at + 8 * m, n);
      assert e + e'[|e|..] == e';
      SamplesConcat(e, e'[|e|..], at, 8 * m, n);
      PackConcat(x, y);
      OverwrittenTwice(a, b, c, p, Pack(x), Pack(y));
    }

    lemma OverwrittenTwice(a: seq<byte>, b: seq<byte>, c: seq<byte>, at: nat, x: seq<byte>, y: seq<byte>)
      requires Overwritten(a, b, at, x) && Overwritten(b, c, at + |x|, y)
      ensures Overwritten(a, c, at, x + y)
    {
      assert c[at..at + |x| + |y|] == c[..at + |x|][at..] + c[at + |x|..at + |x| + |y|];
      assert c[..at] == c[..at + |x|][..at];
      assert b[at + |x| + |y|..] == b[at + |x|..][|y|..];
    }

    /** Read the replies of whole bytes straight into the caller's buffer. */
    method ReadWhole(tdo: array<byte>, rp: nat, q: nat, ghost at: nat)
      requires Valid() && wave.slots[taken..] == ByteSlots(at, q) && at + 8 * q <= |wave.edges|
      requires tdo != tmsBuf && tdo != usbuf && rp + q <= tdo.Length
      modifies this`sent, this`bptr, this`wave, this`taken, usbuf, tdo
      ensures Valid() && Settled() && wave == old(wave)
      ensures Overwritten(old(tdo[..]), tdo[..], rp, Pack(Samples(wave.edges, at, 8 * q)))
    {
      hide Interpret, Pack, Samples;
      assert wave.slots[taken..] == TailSlots(at, q, 0, false);
      TailPacked(wave, taken, at, q, 0, false);
      assert TailBytes(wave, taken, q, 0, false) == Replies(wave, taken, q);
      ReadUsb(tdo, rp, q);
    }

    /** Shift `length` bits: full chunks first, each with its own read, then the rest. */
    method TxRxBlock(tdi: Option<seq<byte>>, tdo: array?<byte>, length: nat, last: bool)
      requires Valid() && Settled() && 1 <= length && (tdi.Some? || tdo != null)
      requires tdi.Some? ==> BytesFor(length) <= |tdi.value|
      requires tdo != tmsBuf && tdo != usbuf && (tdo != null ==> BytesFor(length) <= tdo.Length)
      modifies this`sent, this`bptr, this`wave, this`taken, usbuf, tdo
      ensures Valid() && Settled()
      ensures wave.edges == old(wave.edges) + ShiftClocks(Level(old(wave.edges)), tdi, length, last)
      ensures tdo != null ==>
        Overwritten(old(tdo[..]), tdo[..], 0, Pack(Samples(wave.edges, |old(wave.edges)|, length)))
    {
      hide Interpret, DataClocks, ShiftClocks, Pack, Samples, Overwritten;
      ghost var e0 := wave.edges;
      var p, rem := Chunks(tdi, tdo, if last then length - 1 else length);
      var rembits := rem % 8;
      SplitTotal(p, rem, last);
      hide Total;
      ghost var mid, edges := if tdo != null then tdo[..] else [], wave.edges;
      TxRxTail(tdi, tdo, p, rem / 8, rembits, last, e0);
      if tdo != null {
        ShiftExtends(e0, tdi, 8 * p, length, last);
        JoinReads(old(tdo[..]), mid, tdo[..], 0, edges, wave.edges, |e0|, p, Total(rem / 8, rembits, last));
      }
    }

    lemma SplitTotal(p: nat, rem: nat, last: bool)
      ensures Total(p + rem / 8, rem % 8, last) == 8 * p + rem + if last then 1 else 0
      ensures 8 * p + Total(rem / 8, rem % 8, last) == 8 * p + rem + if last then 1 else 0
    {
    }

    /** The full chunks of a shift of `n` bits before the tail; `p` bytes are done and `rem` bits are left. */
    method Chunks(tdi: Option<seq<byte>>, tdo: array?<byte>, n: nat) returns (p: nat, rem: nat)
      requires Valid() && Settled() && (tdi.Some? || tdo != null)
      requires tdi.Some? ==> BytesFor(n) <= |tdi.value|
      requires tdo != tmsBuf && tdo != usbuf && (tdo != null ==> BytesFor(n) <= tdo.Length)
      modifies this`sent, this`bptr, this`wave, this`taken, usbuf, tdo
      ensures Valid() && Settled() && 8 * p + rem == n && rem / 8 <= TX_BUF - 3
      ensures wave.edges == old(wave.edges) + DataClocks(Level(old(wave.edges)), tdi, 8 * p)
      ensures tdo != null ==>
        Overwritten(old(tdo[..]), tdo[..], 0, Pack(Samples(wave.edges, |old(wave.edges)|, 8 * p)))
    {
      hide Interpret, DataClocks, ShiftClocks, Pack, Samples, Overwritten;
      rem := n;
      p := 0;
      var buflen := TX_BUF - 3;
      ghost var e0 := wave.edges;
      NothingYet(e0, tdi);
      if tdo != null { NothingRead(tdo[..], e0); }
      while rem / 8 > buflen
        invariant Valid() && Settled() && 8 * p + rem == n
        invariant wave.edges == e0 + DataClocks(Level(e0), tdi, 8 * p)
        invariant tdo != null ==> Overwritten(old(tdo[..]), tdo[..], 0, Pack(Samples(wave.edges, |e0|, 8 * p)))
      {
        p := Chunk(tdi, tdo, p, buflen, e0, if tdo != null then old(tdo[..]) else []);
        rem := rem - buflen * 8;
      }
    }

    /** One full chunk of the loop above. */
    method Chunk(tdi: Option<seq<byte>>, tdo: array?<byte>, p: nat, buflen: nat, ghost e0: seq<Edge>,
                 ghost t0: seq<byte>)
      returns (next: nat)
      requires Valid() && Settled() && buflen <= TX_BUF - 3 && (tdi.Some? || tdo != null)
      requires tdi.Some? ==> p + buflen <= |tdi.value|
      requires tdo != tmsBuf && tdo != usbuf && (tdo != null ==> p + buflen <= tdo.Length)
      requires wave.edges == e0 + DataClocks(Level(e0), tdi, 8 * p)
      requires tdo != null ==> Overwritten(t0, tdo[..], 0, Pack(Samples(wave.edges, |e0|, 8 * p)))
      modifies this`sent, this`bptr, this`wave, this`taken, usbuf, tdo
      ensures Valid() && Settled() && next == p + buflen
      ensures wave.edges == e0 + DataClocks(Level(e0), tdi, 8 * next)
      ensures tdo != null ==> Overwritten(t0, tdo[..], 0, Pack(Samples(wave.edges, |e0|, 8 * next)))
    {
      hide Interpret, DataClocks, ShiftClocks, Pack, Samples, Overwritten;
      ghost var mid, edges := if tdo != null then tdo[..] else [], wave.edges;
      ClockWhole(tdi, p, buflen, tdo != null, e0);
      if tdo != null {
        ReadWhole(tdo, p, buflen, |edges|);
        JoinReads(t0, mid, tdo[..], 0, edges, wave.edges, |e0|, p, 8 * buflen);
      }
      next := p + buflen;
    }

    lemma NothingYet(e0: seq<Edge>, tdi: Option<seq<byte>>)
      ensures e0 == e0 + DataClocks(Level(e0), tdi, 0)
    {
    }

    lemma NothingRead(t: seq<byte>, e0: seq<Edge>)
      ensures Overwritten(t, t, 0, Pack(Samples(e0, |e0|, 0)))
    {
    }

    lemma ShiftExtends(e0: seq<Edge>, tdi: Option<seq<byte>>, m: nat, n: nat, last: bool)
      requires m <= n && (last ==> m < n) && (tdi.Some? ==> n <= 8 * |tdi.value|)
      ensures e0 + DataClocks(Level(e0), tdi, m) <= e0 + ShiftClocks(Level(e0), tdi, n, last)
    {
      hide BitAt;
    }

    // ----- iobase.cpp: the pending TMS moves

    /** The data byte of a TMS command for `n` pending moves from move `j` on, TDI high. */
    method TmsByte(j: nat, n: nat) returns (d: byte)
      requires 1 <= n <= 6 && (j + n - 1) / 8 < tmsBuf.Length
      ensures Bit(d, 7) && forall i :: 0 <= i < n ==> Bit(d, i) == BitAt(tmsBuf[..], j + i)
    {
      hide Mask;
      d := 0x80;
      TopBit();
      for i := 0 to n
        invariant Bit(d, 7)
        invariant forall k :: 0 <= k < i ==> Bit(d, k) == BitAt(tmsBuf[..], j + k)
        invariant forall k :: i <= k < 7 ==> !Bit(d, k)
      {
        ghost var before := d;
        if Bit(tmsBuf[(j + i) / 8], (j + i) % 8) {
          d := d | Mask(i);
          forall k | 0 <= k < 8 ensures Bit(d, k) == (k == i || Bit(before, k)) { BitSet(before, i, k); }
        }
        assert BitAt(tmsBuf[..], j + i) == Bit(d, i);
      }
    }

    static lemma TopBit()
      ensures forall k :: 0 <= k < 8 ==> Bit(0x80, k) == (k == 7)
    {
    }

    static lemma MoreMoves(s: seq<byte>, j: nat, n: nat, d: byte)
      requires n <= 8 && j + n <= 8 * |s|
      requires Bit(d, 7) && forall i :: 0 <= i < n ==> Bit(d, i) == BitAt(s, j + i)
      ensures Moves(BitsOf(s, j + n)) == Moves(BitsOf(s, j)) + TmsClocks(d, n)
    {
      hide Bit, BitAt;
      assert BitsOf(s, j + n)[..j] == BitsOf(s, j);
    }

    /** One TMS command for up to six of the `len` pending moves from move `j` on. */
    method NextMoves(j: nat, len: nat, ghost e0: seq<Edge>) returns (n: nat)
      requires Valid() && TmsClear() && len > 0 && j + len == tmsLen
      requires wave.edges == e0 + Moves(BitsOf(tmsBuf[..], j))
      modifies this`sent, this`bptr, this`wave, usbuf
      ensures Valid() && 1 <= n <= len && wave.slots == old(wave.slots)
      ensures wave.edges == e0 + Moves(BitsOf(tmsBuf[..], j + n))
    {
      hide Interpret, Bit, SlotsFit, Moves, BitsOf, TmsClocks;
      n := if len > 6 then 6 else len;
      var d := TmsByte(j, n);
      MoreMoves(tmsBuf[..], j, n, d);
      ClockTms(d, n, false);
    }

    method TxTms(force: bool)
      requires Valid() && TmsClear()
      modifies this`sent, this`bptr, this`wave, usbuf
      ensures Valid() && wave.slots == old(wave.slots)
      ensures wave.edges == old(Edges())
    {
      hide Interpret, Bit, SlotsFit;
      var len, j := tmsLen, 0;
      ghost var e0 := wave.edges;
      while len > 0
        invariant Valid() && wave.slots == old(wave.slots) && TmsClear()
        invariant j + len == tmsLen
        invariant wave.edges == e0 + Moves(BitsOf(tmsBuf[..], j))
      {
        var n := NextMoves(j, len, e0);
        len := len - n;
        j := j + n;
      }
      if force {
        MpsseSend();
      }
    }

    method FlushTms(force: bool)
      requires Valid() && TmsClear()
      modifies this`sent, this`bptr, this`wave, this`tmsLen, usbuf, tmsBuf
      ensures Valid() && TmsClear() && tmsLen == 0 && wave.slots == old(wave.slots)
      ensures wave.edges == Edges() == old(Edges())
    {
      hide Interpret;
      if tmsLen > 0 {
        TxTms(force);
      }
      forall i | 0 <= i < CHUNK_SIZE {
        tmsBuf[i] := 0;
      }
      tmsLen := 0;
    }

    method SetTms(val: bool)
      requires Valid() && TmsClear()
      modifies this`sent, this`bptr, this`wave, this`tmsLen, usbuf, tmsBuf
      ensures Valid() && TmsClear() && wave.slots == old(wave.slots)
      ensures Edges() == old(Edges()) + [Edge(val, true)]
    {
      hide Interpret;
      if tmsLen + 1 > CHUNK_SIZE * 8 {
        FlushTms(false);
      }
      Append(val);
    }

    /** Append one move to a buffer that has room. */
    method Append(val: bool)
      requires TmsClear() && tmsLen < 8 * CHUNK_SIZE
      modifies this`tmsLen, tmsBuf
      ensures TmsClear() && Pending() == old(Pending()) + [val]
    {
      hide Bit;
      ghost var was := tmsBuf[..];
      if val {
        tmsBuf[tmsLen / 8] := tmsBuf[tmsLen / 8] | Mask(tmsLen % 8);
      }
      forall i | 0 <= i < 8 * CHUNK_SIZE
        ensures BitAt(tmsBuf[..], i) == if i == tmsLen then val else BitAt(was, i)
      {
        BitSet(was[tmsLen / 8], tmsLen % 8, i % 8);
      }
      tmsLen := tmsLen + 1;
    }

    // ----- iobase.cpp: the shifts

    method ShiftTdiTdo(tdi: Option<seq<byte>>, tdo: array?<byte>, length: nat, last: bool)
      requires Valid() && TmsClear() && Settled() && (tdi.Some? || tdo != null)
      requires tdi.Some? ==> BytesFor(length) <= |tdi.value|
      requires tdo != tmsBuf && tdo != usbuf && (tdo != null ==> BytesFor(length) <= tdo.Length)
      modifies this`sent, this`bptr, this`wave, this`taken, this`tmsLen, usbuf, tmsBuf, tdo
      ensures Valid() && TmsClear() && Settled()
      ensures Edges() == old(Edges()) + ShiftClocks(Level(old(Edges())), tdi, length, last)
      ensures tdo != null ==>
        Overwritten(old(tdo[..]), tdo[..], 0, Pack(Samples(Edges(), |old(Edges())|, length)))
    {
      hide Interpret, DataClocks, BitAt;
      if length == 0 {
        if tdo != null { NothingRead(tdo[..], Edges()); }
        return;
      }
      hide ShiftClocks, Pack, Samples, Overwritten;
      FlushTms(false);
      if tdo != null { assert tdo[..] == old(tdo[..]); }
      TxRxBlock(tdi, tdo, length, last);
      assert Edges() == wave.edges;
    }

    method Shift(tdi: bool, length: nat, last: bool)
      requires Valid() && TmsClear() && Settled()
      modifies this`sent, this`bptr, this`wave, this`taken, this`tmsLen, usbuf, tmsBuf
      ensures Valid() && TmsClear() && Settled()
      ensures Edges() == old(Edges()) + ConstClocks(Level(old(Edges())), tdi, length, last)
    {
      hide Interpret, ShiftClocks, BitAt, ConstClocks, SlotsFit;
      var len: nat := length;
      ghost var e0 := Edges();
      FlushTms(false);
      assert e0 == e0 + ConstClocks(Level(e0), tdi, 0, false);
      while len > CHUNK_SIZE * 8
        invariant Valid() && TmsClear() && Settled() && tmsLen == 0 && len <= length
        invariant length > 0 ==> len > 0
        invariant wave.edges == e0 + ConstClocks(Level(e0), tdi, length - len, false)
      {
        BlockClocks(Level(wave.edges), tdi, CHUNK_SIZE * 8, false);
        ConstClocksConcat(e0, tdi, length - len, CHUNK_SIZE * 8, false);
        TxRxBlock(Some(Block(tdi)), null, CHUNK_SIZE * 8, false);
        len := len - CHUNK_SIZE * 8;
      }
      assert Edges() == wave.edges;
      BlockClocks(Level(wave.edges), tdi, len, last);
      if len > 0 { ConstClocksConcat(e0, tdi, length - len, len, last); }
      ShiftTdiTdo(Some(Block(tdi)), null, len, last);
    }
  }
}
