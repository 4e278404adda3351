/** The JTAG driver of jtag.cpp: a recorded TAP state, and scans composed of moves and shifts. */
module Jtag {
  import opened Bits
  import opened Tap
  import opened Mpsse
  import opened IoFtdi

  const MAXNUMDEVICES := 1000

  /** One device of the chain; device 0 is the one next to TDI. */
  datatype ChainParam = ChainParam(idcode: nat, irlen: nat)

  function SumIr(devices: seq<ChainParam>): nat {
    if devices == [] then 0 else devices[0].irlen + SumIr(devices[1..])
  }

  lemma {:induction false} SumIrConcat(a: seq<ChainParam>, b: seq<ChainParam>)
    ensures SumIr(a + b) == SumIr(a) + SumIr(b)
  {
    if a == [] { assert a + b == b; }
    else {
      assert (a + b)[1..] == a[1..] + b;
      SumIrConcat(a[1..], b);
    }
  }

  // ----- the clocks of each operation, as the whole history after it

  /** `setTapState(target, pre)` after the clocks `e`. */
  function AfterMove(e: seq<Edge>, c: Tracked, target: TapState, pre: int): seq<Edge> {
    e + Moves(Plan(c, target) + Repeat(false, if pre < 0 then 0 else pre))
  }

  /** The data of a scan. */
  function AfterData(e: seq<Edge>, tdi: Option<seq<byte>>, read: bool, n: nat, last: bool): (r: seq<Edge>)
    requires tdi.Some? ==> BytesFor(n) <= |tdi.value|
    ensures |r| == |e| + n
  {
    e + if tdi.Some? || read then ShiftClocks(Level(e), tdi, n, last) else ConstClocks(Level(e), false, n, last)
  }

  function AfterConst(e: seq<Edge>, tdi: bool, n: nat, last: bool): seq<Edge> {
    e + ConstClocks(Level(e), tdi, n, last)
  }

  /** The clocks made before the data of a DR scan. */
  function BeforeDrData(e: seq<Edge>, c: Tracked, incomplete: bool, pre: int): seq<Edge> {
    if incomplete then e else AfterMove(e, c, Dr(Shift), pre)
  }

  /** The clocks made after the data of a DR scan that is ended. */
  function AfterDrData(e: seq<Edge>, post: nat, next: TapState): seq<Edge> {
    AfterMove(AfterConst(e, false, post, true), Known(Dr(Exit1)), next, 0)
  }

  /** `shiftIR` after the clocks `e`, up to its data. */
  function BeforeIrData(e: seq<Edge>, c: Tracked, pre: nat): seq<Edge> {
    AfterConst(AfterMove(e, c, Ir(Shift), 0), true, pre, false)
  }

  function AfterIrData(e: seq<Edge>, post: nat, next: TapState): seq<Edge> {
    AfterMove(AfterConst(e, true, post, true), Known(Ir(Exit1)), next, 0)
  }

  // ----- what shifts do to the controller

  /** A shift in a Shift state leaves it exactly when it has a last clock. */
  lemma ShiftRun(s: TapState, e: seq<Edge>, last: bool)
    requires s in {Dr(Shift), Ir(Shift)} && (last ==> e != [])
    requires forall i :: 0 <= i < |e| ==> e[i].tms == (last && i == |e| - 1)
    ensures TapRun(s, e) == if last then (if s.Dr? then Dr(Exit1) else Ir(Exit1)) else s
  {
    if last {
      var n := |e| - 1;
      assert forall i :: 0 <= i < n ==> !e[..n][i].tms;
      LowRun(s, e[..n]);
    } else {
      LowRun(s, e);
    }
  }

  lemma LevelIsLow(e: seq<Edge>, s: TapState)
    requires Settles(e, s) && HeldLow(s)
    ensures e != [] && !Level(e).tms
  {
    SettlesOnce(e, s, s);
    HeldLevel(RunTestIdle, e);
  }

  predicate InShift(c: Tracked) { c == Known(Dr(Shift)) || c == Known(Ir(Shift)) }

  /** What `nextTapState` records; outside the Shift states it resets the controller. */
  function Next(c: Tracked, tms: bool): Tracked {
    if !InShift(c) then Known(TestLogicReset) else if tms then Known(Exit1Of(c.state)) else c
  }

  function AfterNext(e: seq<Edge>, c: Tracked): seq<Edge> {
    if InShift(c) then e else e + Moves(Repeat(true, 5))
  }

  /** The state that is recorded while the data of a DR scan are shifted. */
  function ScanState(c: Tracked, incomplete: bool): Tracked {
    if incomplete then c else Known(Dr(Shift))
  }

  /** The clocks of a DR scan behind its data, which were shifted in the recorded state `c`. */
  function AfterScan(e: seq<Edge>, c: Tracked, post: nat, exit: bool, next: TapState): seq<Edge> {
    if exit then AfterPost(AfterNext(e, c), Next(c, post == 0), post, next) else AfterNext(e, c)
  }

  function AfterPost(e: seq<Edge>, c: Tracked, post: nat, next: TapState): seq<Edge> {
    var e' := AfterConst(e, false, post, true);
    if post == 0 then AfterMove(e', c, next, 0) else AfterMove(AfterNext(e', c), Next(c, true), next, 0)
  }

  function RecordAfter(c: Tracked, exit: bool, next: TapState): Tracked { if exit then Known(next) else Next(c, false) }

  class Jtag {
    const io: IoFtdi
    var current: Tracked
    var devices: seq<ChainParam>
    var numDevices: int
    var deviceIndex: int
    var postDR: TapState
    var postIR: TapState
    var shiftDRincomplete: bool

    ghost predicate Valid()
      reads this`numDevices, this`devices, this`deviceIndex, io, io.usbuf, io.tmsBuf
    {
      && io.Valid() && io.TmsClear() && io.Settled()
      && -1 <= numDevices <= |devices|
      && deviceIndex < |devices|
    }

    /** The clocks asked for so far, sent or not. */
    ghost function Edges(): seq<Edge>
      requires io.TmsClear()
      reads io, io.tmsBuf
    {
      io.Edges()
    }

    /** `current_state` is the state of the controller, wherever the controller started. */
    ghost predicate Agrees()
      requires io.TmsClear()
      reads this`current, io, io.tmsBuf
    {
      Tracks(io.Edges(), current)
    }

    constructor (io: IoFtdi)
      requires io.Valid() && io.TmsClear() && io.Settled()
      ensures Valid() && Agrees() && this.io == io && !shiftDRincomplete && deviceIndex == -1 && numDevices == -1
      ensures postDR == RunTestIdle && postIR == RunTestIdle && devices == [] && current == Unknown
    {
      this.io := io;
      current, devices, numDevices, deviceIndex := Unknown, [], -1, -1;
      postDR, postIR, shiftDRincomplete := RunTestIdle, RunTestIdle, false;
    }

    method SelectDevice(dev: int) returns (r: int)
      requires Valid()
      modifies this`deviceIndex
      ensures Valid() && r == deviceIndex == if dev >= numDevices then -1 else dev
    {
      if dev >= numDevices {
        deviceIndex := -1;
      } else {
        deviceIndex := dev;
      }
      r := deviceIndex;
    }

    method SetDeviceIRLength(dev: int, len: nat) returns (r: int)
      requires Valid()
      modifies this`devices
      ensures Valid()
      ensures if dev >= numDevices || dev < 0 then r == -1 && devices == old(devices)
        else r == dev && devices == old(devices)[dev := ChainParam(old(devices)[dev].idcode, len)]
    {
      if dev >= numDevices || dev < 0 {
        return -1;
      }
      devices := devices[dev := devices[dev].(irlen := len)];
      r := dev;
    }

    method TapTestLogicReset()
      requires Valid()
      modifies this`current, io, io.usbuf, io.tmsBuf
      ensures Valid() && Agrees() && current == Known(TestLogicReset)
      ensures Edges() == old(Edges()) + Moves(Repeat(true, 5)) && io.tmsLen == 0
    {
      hide Interpret, SlotsFit;
      ghost var e0 := Edges();
      for i := 0 to 5
        invariant Valid()
        invariant Edges() == e0 + Moves(Repeat(true, i))
      {
        assert Moves(Repeat(true, i + 1)) == Moves(Repeat(true, i)) + [Edge(true, true)];
        io.SetTms(true);
      }
      current := Known(TestLogicReset);
      io.FlushTms(true);
      ResetSettles(e0, 5);
    }

    /** One turn of the loop of `setTapState`. */
    method Turn(state: TapState) returns (ghost bits: seq<bool>)
      requires Valid() && current != Known(state)
      modifies this`current, io, io.usbuf, io.tmsBuf
      ensures Valid() && current.Known? && Edges() == old(Edges()) + Moves(bits)
      ensures bits + Plan(current, state) == Plan(old(current), state)
      ensures old(current).Known? ==> Rank(current.state, state) < Rank(old(current).state, state)
    {
      hide Interpret, SlotsFit, Settles, TapRun, Rank;
      var tms;
      if current.Unknown? {
        TapTestLogicReset();
        tms := true;
        bits := Repeat(true, 6);
        assert Moves(bits) == Moves(Repeat(true, 5)) + [Edge(true, true)];
      } else {
        MoveDescends(current.state, state);
        var (bit, next) := Move(current.state, state);
        current := Known(next);
        tms := bit;
        bits := [tms];
        assert bits + Plan(current, state) == Plan(old(current), state);
      }
      io.SetTms(tms);
    }

    method SetTapState(state: TapState, pre: int)
      requires Valid() && Agrees()
      modifies this`current, io, io.usbuf, io.tmsBuf
      ensures Valid() && current == Known(state)
      ensures Edges() == AfterMove(old(Edges()), old(current), state, pre)
      ensures pre <= 0 || HeldLow(state) ==> Agrees()
    {
      hide Interpret, SlotsFit, Settles, TapRun, Route, Rank, Plan;
      ghost var e0, c0 := Edges(), current;
      MoveTo(state);
      ghost var done := Plan(c0, state);
      var i := 0;
      while i < pre
        invariant Valid() && current == Known(state) && 0 <= i && i <= if pre < 0 then 0 else pre
        invariant Edges() == e0 + Moves(Plan(c0, state) + Repeat(false, i))
      {
        MoreMove(e0, Plan(c0, state) + Repeat(false, i), false);
        assert Plan(c0, state) + Repeat(false, i) + [false] == Plan(c0, state) + Repeat(false, i + 1);
        io.SetTms(false);
        i := i + 1;
      }
      assert i == if pre < 0 then 0 else pre;
      if pre <= 0 || HeldLow(state) { AfterMoveSettles(e0, c0, state, pre); }
    }

    /** The loop of `setTapState`: take the planned moves. */
    method MoveTo(state: TapState)
      requires Valid()
      modifies this`current, io, io.usbuf, io.tmsBuf
      ensures Valid() && current == Known(state)
      ensures Edges() == old(Edges()) + Moves(Plan(old(current), state) + Repeat(false, 0))
    {
      hide Interpret, SlotsFit, Settles, TapRun, Route, Rank, Moves, Plan;
      ghost var e0, c0, done := Edges(), current, [];
      MoreMoves(e0, [], []);
      while current != Known(state)
        invariant Valid() && Edges() == e0 + Moves(done)
        invariant done + Plan(current, state) == Plan(c0, state)
        decreases current.Unknown?, if current.Known? then Rank(current.state, state) else 0
      {
        ghost var rest := Plan(current, state);
        ghost var bits := Turn(state);
        MoreMoves(e0, done, bits);
        assert done + bits + Plan(current, state) == done + rest;
        done := done + bits;
      }
      NoMoves(state);
      assert done == Plan(c0, state) + Repeat(false, 0);
    }

    /** The record after a shift. In a state in which nothing can have been shifted the driver resets the controller. */
    method NextTapState(tms: bool)
      requires Valid()
      modifies this`current, io, io.usbuf, io.tmsBuf
      ensures Valid() && current == Next(old(current), tms) && Edges() == AfterNext(old(Edges()), old(current))
    {
      hide Interpret, SlotsFit, Settles, TapRun;
      if current == Known(Dr(Shift)) {
        if tms { current := Known(Dr(Exit1)); }
      } else if current == Known(Ir(Shift)) {
        if tms { current := Known(Ir(Exit1)); }
      } else {
        TapTestLogicReset();
      }
    }

    /** `n` clocks without a move keep the record right exactly in the states that stay put. */
    method CycleTCK(n: nat, tdi: bool)
      requires Valid() && Agrees()
      modifies io, io.usbuf, io.tmsBuf
      ensures Valid() && Edges() == AfterConst(old(Edges()), tdi, n, false)
      ensures current.Known? ==> (Agrees() <==> n == 0 || Stable(current.state))
    {
      hide Interpret, SlotsFit, Settles, TapRun;
      ghost var e0 := Edges();
      io.Shift(tdi, n, false);
      if current.Known? {
        ConstSettles(e0, current.state, tdi, n);
      }
    }

    /** The four-way choice of shift calls in `shiftDR`. */
    method Data(tdi: Option<seq<byte>>, tdo: array?<byte>, length: nat, last: bool)
      requires Valid()
      requires tdi.Some? ==> BytesFor(length) <= |tdi.value|
      requires tdo != io.tmsBuf && tdo != io.usbuf && (tdo != null ==> BytesFor(length) <= tdo.Length)
      modifies io, io.usbuf, io.tmsBuf, tdo
      ensures Valid() && Edges() == AfterData(old(Edges()), tdi, tdo != null, length, last)
      ensures tdo != null ==>
        Overwritten(old(tdo[..]), tdo[..], 0, Pack(io.Samples(Edges(), |old(Edges())|, length)))
    {
      hide Interpret, SlotsFit, ShiftClocks, ConstClocks;
      if tdi.Some? || tdo != null {
        io.ShiftTdiTdo(tdi, tdo, length, last);
      } else {
        io.Shift(false, length, last);
      }
    }

    /** A DR scan of the selected device, or a part of one when `exit` is false. A part that is continued in the wrong
        state ends with a reset, so that the record is right again. */
    method ShiftDR(tdi: Option<seq<byte>>, tdo: array?<byte>, length: nat, exit: bool)
      returns (ghost e1: seq<Edge>, ghost e2: seq<Edge>)
      requires Valid() && Agrees()
      requires tdi.Some? ==> BytesFor(length) <= |tdi.value|
      requires tdo != io.tmsBuf && tdo != io.usbuf && (tdo != null ==> BytesFor(length) <= tdo.Length)
      modifies this`current, this`shiftDRincomplete, io, io.usbuf, io.tmsBuf, tdo
      ensures Valid()
      ensures deviceIndex < 0 ==>
        Edges() == old(Edges()) && current == old(current) && shiftDRincomplete == old(shiftDRincomplete)
      ensures deviceIndex >= 0 ==>
        var c := ScanState(old(current), old(shiftDRincomplete));
        && e1 == BeforeDrData(old(Edges()), old(current), old(shiftDRincomplete), numDevices - deviceIndex - 1)
        && e2 == AfterData(e1, tdi, tdo != null, length, deviceIndex == 0 && exit)
        && Edges() == AfterScan(e2, c, deviceIndex, exit, postDR)
        && current == RecordAfter(c, exit, postDR)
        && shiftDRincomplete == !exit
        && (Agrees() <==> !(InShift(c) && exit && deviceIndex == 0 && length == 0))
      ensures deviceIndex >= 0 && tdo != null ==>
        Overwritten(old(tdo[..]), tdo[..], 0, Pack(io.Samples(e2, |e1|, length)))
    {
      hide *;
      if deviceIndex < 0 {
        e1, e2 := [], [];
        return;
      }
      e1, e2 := ScanDR(tdi, tdo, length, exit);
      shiftDRincomplete := !exit;
    }

    /** `shiftDR` without its guard and its flag. */
    method ScanDR(tdi: Option<seq<byte>>, tdo: array?<byte>, length: nat, exit: bool)
      returns (ghost e1: seq<Edge>, ghost e2: seq<Edge>)
      requires Valid() && Agrees() && deviceIndex >= 0
      requires tdi.Some? ==> BytesFor(length) <= |tdi.value|
      requires tdo != io.tmsBuf && tdo != io.usbuf && (tdo != null ==> BytesFor(length) <= tdo.Length)
      modifies this`current, io, io.usbuf, io.tmsBuf, tdo
      ensures Valid()
      ensures e1 == BeforeDrData(old(Edges()), old(current), shiftDRincomplete, numDevices - deviceIndex - 1)
      ensures e2 == AfterData(e1, tdi, tdo != null, length, deviceIndex == 0 && exit)
      ensures Edges() == AfterScan(e2, ScanState(old(current), shiftDRincomplete), deviceIndex, exit, postDR)
      ensures current == RecordAfter(ScanState(old(current), shiftDRincomplete), exit, postDR)
      ensures Agrees() <==>
        !(InShift(ScanState(old(current), shiftDRincomplete)) && exit && deviceIndex == 0 && length == 0)
      ensures tdo != null ==> Overwritten(old(tdo[..]), tdo[..], 0, Pack(io.Samples(e2, |e1|, length)))
    {
      hide Interpret, SlotsFit, Tracks, Settles, TapRun, AfterData, Pack, AfterPost, AfterNext, Overwritten,
        BeforeDrData, ScanState, Next, InShift;
      var post := deviceIndex;
      EnterDr(numDevices - deviceIndex - 1);
      e1 := Edges();
      ghost var c := current;
      if tdo != null { assert tdo[..] == old(tdo[..]); }
      Data(tdi, tdo, length, post == 0 && exit);
      e2 := Edges();
      NextTapState(post == 0 && exit);
      if exit {
        LeaveDr(post);
      }
      ScanTracks(e1, c, tdi, tdo != null, length, post, exit, postDR);
    }

    /** The start of `shiftDR`: unless a scan is being continued, go to Shift-DR and fill up the pre bits. */
    method EnterDr(pre: int)
      requires Valid() && Agrees()
      modifies this`current, io, io.usbuf, io.tmsBuf
      ensures Valid() && current == ScanState(old(current), shiftDRincomplete) && Tracks(Edges(), current)
      ensures Edges() == BeforeDrData(old(Edges()), old(current), shiftDRincomplete, pre)
    {
      hide Interpret, SlotsFit, Settles, TapRun, AfterMove;
      if !shiftDRincomplete {
        SetTapState(Dr(Shift), pre);
      }
    }

    /** The end of `shiftDR`: the post bits, and on to `postDRState`. */
    method LeaveDr(post: nat)
      requires Valid()
      modifies this`current, io, io.usbuf, io.tmsBuf
      ensures Valid() && current == Known(postDR) && Edges() == AfterPost(old(Edges()), old(current), post, postDR)
    {
      hide Interpret, SlotsFit, ConstClocks, Plan, Next, AfterNext;
      io.Shift(false, post, true);
      if post != 0 {
        NextTapState(true);
      }
      MoveTo(postDR);
    }

    /** The sum of the instruction lengths of devices `lo..hi`. */
    method IrBits(lo: nat, hi: int) returns (n: nat)
      requires hi <= |devices|
      ensures n == IrLength(devices, lo, hi)
    {
      n := 0;
      var dev := lo;
      while dev < hi
        invariant if lo <= hi then lo <= dev <= hi && n == IrLength(devices, lo, dev) else dev == lo && n == 0
      {
        n := n + devices[dev].irlen;
        SumIrConcat(devices[lo..dev], [devices[dev]]);
        assert devices[lo..dev + 1] == devices[lo..dev] + [devices[dev]];
        dev := dev + 1;
      }
    }

    /** An IR scan: the instruction for the selected device, ones for all the others. */
    method ShiftIR(tdi: seq<byte>, tdo: array?<byte>) returns (ghost e1: seq<Edge>, ghost e2: seq<Edge>)
      requires Valid() && Agrees()
      requires deviceIndex >= 0 ==> BytesFor(devices[deviceIndex].irlen) <= |tdi|
      requires tdo != io.tmsBuf && tdo != io.usbuf
      requires deviceIndex >= 0 && tdo != null ==> BytesFor(devices[deviceIndex].irlen) <= tdo.Length
      modifies this`current, io, io.usbuf, io.tmsBuf, tdo
      ensures Valid()
      ensures deviceIndex < 0 ==> Edges() == old(Edges()) && current == old(current)
      ensures deviceIndex >= 0 ==>
        && e1 == BeforeIrData(old(Edges()), old(current), IrLength(devices, deviceIndex + 1, numDevices))
        && e2
          == AfterData(e1, Some(tdi), tdo != null, devices[deviceIndex].irlen, IrLength(devices, 0, deviceIndex) == 0)
        && Edges() == AfterIrData(e2, IrLength(devices, 0, deviceIndex), postIR)
        && current == Known(postIR)
        && (Agrees() <==> IrLength(devices, 0, deviceIndex) + devices[deviceIndex].irlen > 0)
      ensures deviceIndex >= 0 && tdo != null ==>
        Overwritten(old(tdo[..]), tdo[..], 0, Pack(io.Samples(e2, |e1|, devices[deviceIndex].irlen)))
    {
      assert numDevices <= |devices| && deviceIndex < |devices|;
      hide *;
      if deviceIndex < 0 {
        e1, e2 := [], [];
        return;
      }
      var pre := IrBits(deviceIndex + 1, numDevices);
      var post := IrBits(0, deviceIndex);
      e1, e2 := ScanIR(tdi, tdo, pre, devices[deviceIndex].irlen, post);
    }

    /** `shiftIR` once the bit counts are known. */
    method ScanIR(tdi: seq<byte>, tdo: array?<byte>, pre: nat, len: nat, post: nat)
      returns (ghost e1: seq<Edge>, ghost e2: seq<Edge>)
      requires Valid() && Agrees() && BytesFor(len) <= |tdi|
      requires tdo != io.tmsBuf && tdo != io.usbuf && (tdo != null ==> BytesFor(len) <= tdo.Length)
      modifies this`current, io, io.usbuf, io.tmsBuf, tdo
      ensures Valid() && current == Known(postIR)
      ensures e1 == BeforeIrData(old(Edges()), old(current), pre)
      ensures e2 == AfterData(e1, Some(tdi), tdo != null, len, post == 0)
      ensures Edges() == AfterIrData(e2, post, postIR)
      ensures Agrees() <==> post + len > 0
      ensures tdo != null ==>
        Overwritten(old(tdo[..]), tdo[..], 0, Pack(io.Samples(e2, |e1|, len)))
    {
      hide Interpret, SlotsFit, Settles, TapRun, AfterData, Pack, AfterIrData, Overwritten, BeforeIrData;
      EnterIr(pre);
      e1 := Edges();
      if tdo != null { assert tdo[..] == old(tdo[..]); }
      Data(Some(tdi), tdo, len, post == 0);
      e2 := Edges();
      DataSettles(e1, Ir(Shift), Some(tdi), tdo != null, len, post == 0);
      LeaveIr(post);
      ScanSettles(e2, Ir(Shift), post == 0 && len > 0, true, post, postIR);
      UnfoldedIr(e2, post, postIR);
    }

    /** The start of `shiftIR`: go to Shift-IR and fill the devices behind the selected one with ones. */
    method EnterIr(pre: nat)
      requires Valid() && Agrees()
      modifies this`current, io, io.usbuf, io.tmsBuf
      ensures Valid() && current == Known(Ir(Shift)) && Settles(Edges(), Ir(Shift))
      ensures Edges() == BeforeIrData(old(Edges()), old(current), pre)
    {
      hide Interpret, SlotsFit, Settles, TapRun, AfterMove;
      SetTapState(Ir(Shift), 0);
      ConstSettles(Edges(), Ir(Shift), true, pre);
      io.Shift(true, pre, false);
    }

    /** The end of `shiftIR`: ones for the devices before the selected one, and on to `postIRState`. */
    method LeaveIr(post: nat)
      requires Valid() && current == Known(Ir(Shift))
      modifies this`current, io, io.usbuf, io.tmsBuf
      ensures Valid() && current == Known(postIR) && Edges() == AfterIrData(old(Edges()), post, postIR)
    {
      hide Interpret, SlotsFit, ConstClocks, Plan;
      io.Shift(true, post, true);
      NextTapState(true);
      MoveTo(postIR);
    }

    /** The identification code read as word `j` of the bits sampled from clock `at` on. */
    function IdAt(e: seq<Edge>, at: nat, j: nat): nat
      requires at + 32 * j + 32 <= |e|
    {
      Number(io.Samples(e, at + 32 * j, 32))
    }

    /** What `getChain` finds: `n` identification codes, nearest to TDO first, then a word that is not one. */
    ghost predicate Found(e: seq<Edge>, at: nat, n: nat, devices: seq<ChainParam>, before: seq<ChainParam>)
      requires at + 32 * n <= |e|
    {
      && n <= |devices| && devices[n..] == before
      && forall k :: 0 <= k < n ==> devices[k].idcode == IdAt(e, at, n - 1 - k) && IsId(devices[k].idcode)
    }

    lemma IdAtExtends(e: seq<Edge>, e': seq<Edge>, at: nat, j: nat)
      requires at + 32 * j + 32 <= |e| && e <= e'
      ensures IdAt(e, at, j) == IdAt(e', at, j)
    {
      hide Number;
      assert e' == e + e'[|e|..];
      io.SamplesConcat(e, e'[|e|..], at + 32 * j, 32, 0);
      assert io.Samples(e, at + 32 * j, 32) + io.Samples(e', at + 32 * j + 32, 0) == io.Samples(e, at + 32 * j, 32);
    }

    lemma FoundMore(e: seq<Edge>, e': seq<Edge>, at: nat, n: nat, devices: seq<ChainParam>, before: seq<ChainParam>,
                    found: ChainParam)
      requires at + 32 * n <= |e| && e <= e' && at + 32 * (n + 1) <= |e'|
      requires Found(e, at, n, devices, before)
      ensures Found(e', at, n, devices, before)
      ensures found.idcode == IdAt(e', at, n) && IsId(found.idcode) ==> Found(e', at, n + 1, [found] + devices, before)
    {
      hide IdAt;
      forall j | 0 <= j < n ensures IdAt(e, at, j) == IdAt(e', at, j) { IdAtExtends(e, e', at, j); }
      assert ([found] + devices)[n + 1..] == devices[n..];
    }

    /** Shift in a word of zeros and read the word that comes out. */
    method ReadId() returns (id: nat)
      requires Valid() && current == Known(Dr(Shift)) && Settles(Edges(), Dr(Shift))
      modifies io, io.usbuf, io.tmsBuf
      ensures Valid() && Settles(Edges(), Dr(Shift))
      ensures Edges() == DetectWords(old(Edges()), 1) && id == IdAt(Edges(), |old(Edges())|, 0)
    {
      hide Interpret, SlotsFit, Settles, TapRun, Pack, IdOf, ShiftClocks, DetectWords, Level, Overwritten, Number;
      var idx, zero := new byte[4], [0, 0, 0, 0];
      ghost var e, before := Edges(), idx[..];
      WordClocked(e);
      io.ShiftTdiTdo(Some(zero), idx, 32, false);
      WordRead(before, idx[..], Pack(io.Samples(Edges(), |e|, 32)));
      id := IdOf(idx[..]);
      WordValue(io.Samples(Edges(), |e|, 32));
    }

    /** The detecting part of `getChain`. */
    method Detect()
      requires Valid()
      modifies this`current, this`devices, this`numDevices, io, io.usbuf, io.tmsBuf
      ensures Valid() && Agrees() && current == Known(TestLogicReset) && 0 <= numDevices <= 1000
      ensures
        var start := DetectStart(old(Edges()));
        var e := DetectWords(start, if numDevices < 1000 then numDevices + 1 else numDevices);
        && Found(e, |start|, numDevices, devices, old(devices))
        && (numDevices < 1000 ==> !IsId(IdAt(e, |start|, numDevices)))
        && Edges() == AfterMove(e, Known(Dr(Shift)), TestLogicReset, 0)
    {
      hide Interpret, SlotsFit, Settles, TapRun, AfterMove, Found, IdAt, DetectWords, DetectStart, Repeat, Level,
        Moves, IsId;
      ghost var before := devices;
      StartDetect();
      ghost var start := Edges();
      numDevices := 0;
      var more := true;
      ghost var words := 0;
      NothingFound(start, |start|, devices);
      while more && numDevices < MAXNUMDEVICES
        invariant Valid() && current == Known(Dr(Shift)) && Settles(Edges(), Dr(Shift))
        invariant 0 <= numDevices <= MAXNUMDEVICES && words == (if more then numDevices else numDevices + 1)
        invariant !more ==> numDevices < MAXNUMDEVICES
        invariant Edges() == DetectWords(start, words)
        invariant Found(Edges(), |start|, numDevices, devices, before)
        invariant !more ==> !IsId(IdAt(Edges(), |start|, numDevices))
        decreases more, MAXNUMDEVICES - numDevices
      {
        words := words + 1;
        more := ReadDevice(start, before);
      }
      SetTapState(TestLogicReset, 0);
    }

    /** One round of the detecting loop: it goes on while the word is an IDCODE. */
    method ReadDevice(ghost start: seq<Edge>, ghost before: seq<ChainParam>) returns (more: bool)
      requires Valid() && current == Known(Dr(Shift)) && Settles(Edges(), Dr(Shift)) && numDevices >= 0
      requires Edges() == DetectWords(start, numDevices) && Found(Edges(), |start|, numDevices, devices, before)
      modifies this`devices, this`numDevices, io, io.usbuf, io.tmsBuf
      ensures Valid() && Settles(Edges(), Dr(Shift))
      ensures numDevices == old(numDevices) + if more then 1 else 0
      ensures Edges() == DetectWords(start, old(numDevices) + 1)
      ensures Found(Edges(), |start|, numDevices, devices, before)
      ensures !more ==> !IsId(IdAt(Edges(), |start|, numDevices))
    {
      hide Interpret, SlotsFit, Settles, TapRun, AfterMove, Found, IdAt, DetectWords;
      ghost var e := Edges();
      var id := ReadId();
      MoreWords(start, numDevices);
      assert id == IdAt(Edges(), |start|, numDevices) by { IdAtBase(Edges(), |e|, |start|, numDevices); }
      var irlen: nat := *;
      FoundMore(e, Edges(), |start|, numDevices, devices, before, ChainParam(id, irlen));
      more := id != 0 && id != 0xffffffff;
      if more {
        numDevices := numDevices + 1;
        devices := [ChainParam(id, irlen)] + devices;
      }
    }

    method StartDetect()
      requires Valid()
      modifies this`current, io, io.usbuf, io.tmsBuf
      ensures Valid() && current == Known(Dr(Shift)) && Settles(Edges(), Dr(Shift))
      ensures Edges() == DetectStart(old(Edges()))
    {
      hide Interpret, SlotsFit, Settles, TapRun, AfterMove;
      TapTestLogicReset();
      SetTapState(Dr(Shift), 0);
    }

    lemma NothingFound(e: seq<Edge>, at: nat, devices: seq<ChainParam>)
      requires at <= |e|
      ensures Found(e, at, 0, devices, devices) && DetectWords(e, 0) == e
    {
    }

    lemma IdAtBase(e: seq<Edge>, at: nat, at0: nat, n: nat)
      requires at == at0 + 32 * n && at + 32 <= |e|
      ensures IdAt(e, at, 0) == IdAt(e, at0, n)
    {
    }

    method GetChain(detect: bool) returns (r: int)
      requires Valid()
      modifies this`current, this`devices, this`numDevices, io, io.usbuf, io.tmsBuf
      ensures Valid() && r == numDevices
      ensures old(numDevices) != -1 && !detect ==>
        Edges() == old(Edges()) && devices == old(devices) && numDevices == old(numDevices) && current == old(current)
      ensures old(numDevices) == -1 || detect ==>
        && Agrees() && current == Known(TestLogicReset) && 0 <= numDevices <= 1000
        && var start := DetectStart(old(Edges()));
        var e := DetectWords(start, if numDevices < 1000 then numDevices + 1 else numDevices);
        && Found(e, |start|, numDevices, devices, old(devices))
        && (numDevices < 1000 ==> !IsId(IdAt(e, |start|, numDevices)))
        && Edges() == AfterMove(e, Known(Dr(Shift)), TestLogicReset, 0)
    {
      hide *;
      if numDevices == -1 || detect {
        Detect();
      }
      r := numDevices;
    }
  }

  /** All zeros and all ones are no identification codes. */
  predicate IsId(id: nat) { id != 0 && id != 0xFFFF_FFFF }

  /** `byteArrayToLong`. */
  function IdOf(b: seq<byte>): nat
    requires |b| == 4
  {
    b[3] as nat * 0x1000000 + b[2] as nat * 0x10000 + b[1] as nat * 0x100 + b[0] as nat
  }

  /** What the driver makes of four bytes read is the number whose digits are the bits read. */
  lemma WordValue(bits: seq<bool>)
    requires |bits| == 32
    ensures IdOf(Pack(bits)) == Number(bits)
  {
    var b := Pack(bits);
    assert b[0] == PackByte(bits[..8]) && b[1] == PackByte(bits[8..16]) && b[2] == PackByte(bits[16..24])
      && b[3] == PackByte(bits[24..32]);
    ByteNumber(bits[..8]);
    ByteNumber(bits[8..16]);
    ByteNumber(bits[16..24]);
    ByteNumber(bits[24..32]);
    hide Pack, PackByte, Number;
    assert bits[24..] == bits[24..32] && bits[16..][8..] == bits[24..] && bits[8..][8..] == bits[16..];
    assert bits[16..][..8] == bits[16..24] && bits[8..][..8] == bits[8..16];
    NumberSplit(bits);
    NumberSplit(bits[8..]);
    NumberSplit(bits[16..]);
  }

  function DetectStart(e: seq<Edge>): seq<Edge> {
    AfterMove(e + Moves(Repeat(true, 5)), Known(TestLogicReset), Dr(Shift), 0)
  }

  lemma MoreWords(e: seq<Edge>, n: nat)
    ensures DetectWords(DetectWords(e, n), 1) == DetectWords(e, n + 1)
    ensures DetectWords(e, n) <= DetectWords(e, n + 1)
  {
  }

  lemma ZeroWord(e: seq<Edge>)
    requires !Level(e).tms
    ensures e + ShiftClocks(Level(e), Some([0, 0, 0, 0]), 32, false) == DetectWords(e, 1)
  {
    var zero: seq<byte> := [0, 0, 0, 0];
    forall i | 0 <= i < 32 ensures !BitAt(zero, i) { }
  }

  lemma WordClocked(e: seq<Edge>)
    requires Settles(e, Dr(Shift))
    ensures e + ShiftClocks(Level(e), Some([0, 0, 0, 0]), 32, false) == DetectWords(e, 1)
    ensures Settles(DetectWords(e, 1), Dr(Shift))
  {
    DataSettles(e, Dr(Shift), Some([0, 0, 0, 0]), true, 32, false);
    LevelIsLow(e, Dr(Shift));
    ZeroWord(e);
    hide Settles, ShiftClocks, DetectWords, Level;
  }

  lemma WordRead(before: seq<byte>, after: seq<byte>, bytes: seq<byte>)
    requires |before| == 4 && |bytes| == 4 && Overwritten(before, after, 0, bytes)
    ensures after == bytes
  {
    assert after[0..0 + 4] == after;
  }

  /** The clocks of `n` words of zeros. */
  function DetectWords(e: seq<Edge>, n: nat): (r: seq<Edge>)
    ensures |r| == |e| + 32 * n
  {
    e + Repeat(Edge(false, false), 32 * n)
  }

  /** The instruction bits of devices `lo..hi`. */
  function IrLength(devices: seq<ChainParam>, lo: nat, hi: int): nat
    requires hi <= |devices|
  {
    if lo < hi then SumIr(devices[lo..hi]) else 0
  }

  /** In Shift-DR a scan ends as it should. */
  lemma EndsScan(e: seq<Edge>, post: nat, next: TapState)
    ensures AfterScan(e, Known(Dr(Shift)), post, true, next) == AfterDrData(e, post, next)
    ensures RecordAfter(Known(Dr(Shift)), true, next) == Known(next)
  {
    hide AfterConst, AfterMove;
  }

  /** Behind a DR scan the record is right, unless the scan had no last clock. */
  lemma ScanTracks(e: seq<Edge>, c: Tracked, tdi: Option<seq<byte>>, read: bool, n: nat, post: nat, exit: bool,
                   next: TapState)
    requires Tracks(e, c) && (tdi.Some? ==> BytesFor(n) <= |tdi.value|)
    ensures var e2 := AfterData(e, tdi, read, n, post == 0 && exit);
      Tracks(AfterScan(e2, c, post, exit, next), RecordAfter(c, exit, next)) <==>
        !(InShift(c) && exit && post == 0 && n == 0)
  {
    hide Settles, AfterData, AfterMove, AfterConst;
    var e2 := AfterData(e, tdi, read, n, post == 0 && exit);
    if InShift(c) {
      DataSettles(e, c.state, tdi, read, n, post == 0 && exit);
      if exit { ScanSettles(e2, c.state, post == 0 && n > 0, false, post, next); }
    } else {
      ResetSettles(e2, 5);
      if exit {
        var e3 := AfterNext(e2, c);
        var e4 := AfterConst(e3, false, post, true);
        ResetSettles(e4, 5);
        NoPost(e3);
        AfterMoveSettles(if post == 0 then e3 else e4 + Moves(Repeat(true, 5)), Known(TestLogicReset), next, 0);
      }
    }
  }

  lemma NoPost(e: seq<Edge>)
    ensures AfterConst(e, false, 0, true) == e
  {
  }

  lemma UnfoldedIr(e: seq<Edge>, post: nat, next: TapState)
    ensures AfterIrData(e, post, next) == AfterMove(AfterConst(e, true, post, true), Known(Ir(Exit1)), next, 0)
  {
  }

  function Exit1Of(s: TapState): TapState {
    if s.Dr? then Dr(Exit1) else Ir(Exit1)
  }

  lemma ConstSettles(e: seq<Edge>, s: TapState, tdi: bool, n: nat)
    requires Settles(e, s)
    ensures Settles(AfterConst(e, tdi, n, false), s) <==> n == 0 || Stable(s)
  {
    var held := ConstClocks(Level(e), tdi, n, false);
    SettlesOnce(e, s, s);
    forall start: TapState ensures TapRun(start, e + held) == s <==> n == 0 || Stable(s) {
      HeldRun(start, e, held);
    }
    assert TapRun(RunTestIdle, e + held) == s <==> n == 0 || Stable(s);
  }

  lemma DataSettles(e: seq<Edge>, s: TapState, tdi: Option<seq<byte>>, read: bool, n: nat, last: bool)
    requires Settles(e, s) && s in {Dr(Shift), Ir(Shift)}
    requires tdi.Some? ==> BytesFor(n) <= |tdi.value|
    ensures Settles(AfterData(e, tdi, read, n, last), if last && n > 0 then Exit1Of(s) else s)
  {
    hide Settles, BitAt;
    LevelIsLow(e, s);
    var more := AfterData(e, tdi, read, n, last)[|e|..];
    assert AfterData(e, tdi, read, n, last) == e + more;
    ShiftRun(s, more, last && n > 0);
    SettlesThen(e, s, more);
  }

  /** A scan that left its Shift state with the data (`left`) or leaves it with `post` more bits arrives at `next`;
      a scan without any last clock does not. */
  lemma ScanSettles(e: seq<Edge>, s: TapState, left: bool, tdi: bool, post: nat, next: TapState)
    requires s in {Dr(Shift), Ir(Shift)} && Settles(e, if left then Exit1Of(s) else s) && (left ==> post == 0)
    ensures Settles(AfterMove(AfterConst(e, tdi, post, true), Known(Exit1Of(s)), next, 0), next) <==> left || post > 0
  {
    hide Settles, TapRun, Route;
    var e' := AfterConst(e, tdi, post, true);
    if post > 0 {
      LevelIsLow(e, s);
      var more := ConstClocks(Level(e), tdi, post, true);
      ShiftRun(s, more, true);
      SettlesThen(e, s, more);
    } else {
      assert e' == e;
    }
    if left || post > 0 {
      AfterMoveSettles(e', Known(Exit1Of(s)), next, 0);
    } else {
      var route := Moves(Route(Exit1Of(s), next));
      SettlesThen(e', s, route);
      assert AfterMove(e', Known(Exit1Of(s)), next, 0) == e' + route;
      AstrayRun(Exit1Of(s), s, next);
      MissedClock(s, next);
      if Settles(e' + route, next) { SettlesOnce(e' + route, TapRun(s, route), next); }
    }
  }

  lemma NoMoves(s: TapState)
    ensures Plan(Known(s), s) == []
  {
  }

  lemma MoreMoves(e: seq<Edge>, done: seq<bool>, bits: seq<bool>)
    ensures e + Moves(done) + Moves(bits) == e + Moves(done + bits)
    ensures e == e + Moves([])
  {
    assert Moves(done + bits) == Moves(done) + Moves(bits);
  }

  lemma MoreMove(e: seq<Edge>, done: seq<bool>, tms: bool)
    ensures e + Moves(done) + [Edge(tms, true)] == e + Moves(done + [tms])
  {
    assert Moves(done + [tms]) == Moves(done) + [Edge(tms, true)];
  }

  lemma AfterMoveSettles(e: seq<Edge>, c: Tracked, target: TapState, pre: int)
    requires Tracks(e, c) && (pre <= 0 || HeldLow(target))
    ensures Settles(AfterMove(e, c, target, pre), target)
  {
    hide Plan, Settles;
    PlanArrives(e, c, target);
    var low := Moves(Repeat(false, if pre < 0 then 0 else pre));
    if pre > 0 { LowRun(target, low); }
    SettlesThen(e + Moves(Plan(c, target)), target, low);
    assert AfterMove(e, c, target, pre) == e + Moves(Plan(c, target)) + low;
  }
}
