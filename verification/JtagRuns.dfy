/** Arbitrary runs of driver calls. */
module JtagRuns {
  import opened Bits
  import opened Tap
  import Mpsse
  import opened Jtag

  datatype Call =
    | Move(state: TapState, pre: int)
    | Reset
    | ScanDr(tdi: Option<seq<byte>>, read: bool, len: nat, exit: bool)
    | ScanIr(code: seq<byte>, read: bool)
    | Cycle(n: nat, level: bool)
    | Detect(detect: bool)
    | Select(dev: int)
    | SetLength(dev: int, len: nat)

  /** The driver between two calls, with all clocks asked for so far. */
  datatype Driver = Driver(
    current: Tracked,
    devices: seq<ChainParam>,
    numDevices: int,
    deviceIndex: int,
    incomplete: bool,
    postDR: TapState,
    postIR: TapState,
    edges: seq<Edge>)

  ghost function Now(j: Jtag): Driver
    requires j.io.TmsClear()
    reads j, j.io, j.io.tmsBuf
  {
    Driver(j.current, j.devices, j.numDevices, j.deviceIndex, j.shiftDRincomplete, j.postDR, j.postIR, j.Edges())
  }

  /** The fields of the driver alone. */
  function Fields(j: Jtag): Driver
    reads j
  {
    Driver(j.current, j.devices, j.numDevices, j.deviceIndex, j.shiftDRincomplete, j.postDR, j.postIR, [])
  }

  /** The calls after which the recorded state is still right: the data are there, a scan that ends has a last clock,
      and TCK is cycled only in states that stay put (with TMS low, behind a move). */
  predicate Disciplined(d: Driver, c: Call) {
    match c
    case Move(state, pre) => pre <= 0 || HeldLow(state)
    case ScanDr(tdi, _, len, exit) =>
      && (tdi.Some? ==> BytesFor(len) <= |tdi.value|)
      && !(InShift(ScanState(d.current, d.incomplete)) && exit && d.deviceIndex == 0 && len == 0)
    case ScanIr(code, _) =>
      0 <= d.deviceIndex < |d.devices| ==>
        && BytesFor(d.devices[d.deviceIndex].irlen) <= |code|
        && IrLength(d.devices, 0, d.deviceIndex) + d.devices[d.deviceIndex].irlen > 0
    case Cycle(n, _) => n == 0 || d.current.Unknown? || Stable(d.current.state)
    case _ => true
  }

  /** What a call does to the driver; `j` tells what is connected to it. */
  ghost predicate Does(j: Jtag, d: Driver, c: Call, d': Driver)
    requires Disciplined(d, c) && d.deviceIndex < |d.devices| && d.numDevices <= |d.devices|
  {
    match c
    case Move(state, pre) => d' == d.(current := Known(state), edges := AfterMove(d.edges, d.current, state, pre))
    case Reset => d' == d.(current := Known(TestLogicReset), edges := d.edges + Moves(Repeat(true, 5)))
    case ScanDr(tdi, read, len, exit) =>
      if d.deviceIndex < 0 then d' == d
      else
        var k, s := d.deviceIndex, ScanState(d.current, d.incomplete);
        var e1 := BeforeDrData(d.edges, d.current, d.incomplete, d.numDevices - k - 1);
        var e2 := AfterData(e1, tdi, read, len, k == 0 && exit);
        d' == d.(current := RecordAfter(s, exit, d.postDR), incomplete := !exit,
          edges := AfterScan(e2, s, k, exit, d.postDR))
    case ScanIr(code, read) =>
      if d.deviceIndex < 0 then d' == d
      else
        var k := d.deviceIndex;
        var e1 := BeforeIrData(d.edges, d.current, IrLength(d.devices, k + 1, d.numDevices));
        var e2 := AfterData(e1, Some(code), read, d.devices[k].irlen, IrLength(d.devices, 0, k) == 0);
        d' == d.(current := Known(d.postIR), edges := AfterIrData(e2, IrLength(d.devices, 0, k), d.postIR))
    case Cycle(n, level) => d' == d.(edges := AfterConst(d.edges, level, n, false))
    case Detect(detect) =>
      if d.numDevices != -1 && !detect then d' == d
      else
        && d' ==
          d.(current := Known(TestLogicReset), devices := d'.devices, numDevices := d'.numDevices, edges := d'.edges)
        && Detected(j, d, d'.numDevices, d'.devices, d'.edges)
    case Select(dev) => d' == d.(deviceIndex := if dev >= d.numDevices then -1 else dev)
    case SetLength(dev, len) =>
      d' == if 0 <= dev < d.numDevices
        then d.(devices := d.devices[dev := ChainParam(d.devices[dev].idcode, len)]) else d
  }

  ghost predicate Performed(j: Jtag, d: Driver, c: Call, d': Driver) {
    Disciplined(d, c) && d.deviceIndex < |d.devices| && d.numDevices <= |d.devices| && Does(j, d, c, d')
  }

  /** The recorded state is where the clocks lead, wherever the controller started. */
  ghost predicate Right(d: Driver) {
    d.current.Known? ==> forall start: TapState :: TapRun(start, d.edges) == d.current.state
  }

  /** The outcome of a detection: the words that come out until one is not an identification code. */
  ghost predicate Detected(j: Jtag, d: Driver, n: int, devices: seq<ChainParam>, edges: seq<Edge>) {
    && 0 <= n <= 1000
    && var start := DetectStart(d.edges);
    var words := DetectWords(start, if n < 1000 then n + 1 else n);
    && j.Found(words, |start|, n, devices, d.devices)
    && (n < 1000 ==> !IsId(j.IdAt(words, |start|, n)))
    && edges == AfterMove(words, Known(Dr(Shift)), TestLogicReset, 0)
  }

  /** A buffer for the bits that a scan reads, if it is to read any. */
  method Room(read: bool, len: nat) returns (tdo: array?<byte>)
    ensures tdo != null ==> fresh(tdo) && tdo.Length == BytesFor(len)
    ensures read <==> tdo != null
  {
    if read { tdo := new byte[BytesFor(len)]; } else { tdo := null; }
  }

  method Perform(j: Jtag, c: Call)
    requires j.Valid() && j.Agrees() && Disciplined(Now(j), c)
    modifies j, j.io, j.io.usbuf, j.io.tmsBuf
    ensures j.Valid() && j.Agrees() && Performed(j, old(Now(j)), c, Now(j))
  {
    hide *;
    match c
    case ScanDr(_, _, _, _) => PerformDr(j, c);
    case ScanIr(_, _) => PerformIr(j, c);
    case Detect(_) => PerformDetect(j, c);
    case _ => PerformOther(j, c);
  }

  method PerformDr(j: Jtag, c: Call)
    requires j.Valid() && j.Agrees() && Disciplined(Now(j), c) && c.ScanDr?
    modifies j, j.io, j.io.usbuf, j.io.tmsBuf
    ensures j.Valid() && j.Agrees() && Performed(j, old(Now(j)), c, Now(j))
  {
    hide Mpsse.Interpret, Mpsse.SlotsFit, Tracks, Plan, AfterMove, AfterData, AfterConst, AfterScan, AfterIrData,
      BeforeDrData, BeforeIrData;
    var tdo := Room(c.read, c.len);
    var e1, e2 := j.ShiftDR(c.tdi, tdo, c.len, c.exit);
  }

  method PerformIr(j: Jtag, c: Call)
    requires j.Valid() && j.Agrees() && Disciplined(Now(j), c) && c.ScanIr?
    modifies j, j.io, j.io.usbuf, j.io.tmsBuf
    ensures j.Valid() && j.Agrees() && Performed(j, old(Now(j)), c, Now(j))
  {
    hide Mpsse.Interpret, Mpsse.SlotsFit, Tracks, Plan, AfterMove, AfterData, AfterConst, AfterScan, AfterIrData,
      BeforeDrData, BeforeIrData;
    var tdo := Room(c.read, if 0 <= j.deviceIndex < |j.devices| then j.devices[j.deviceIndex].irlen else 0);
    var e1, e2 := j.ShiftIR(c.code, tdo);
  }

  method PerformDetect(j: Jtag, c: Call)
    requires j.Valid() && j.Agrees() && Disciplined(Now(j), c) && c.Detect?
    modifies j, j.io, j.io.usbuf, j.io.tmsBuf
    ensures j.Valid() && j.Agrees() && Performed(j, old(Now(j)), c, Now(j))
  {
    hide Mpsse.Interpret, Mpsse.SlotsFit, Tracks, Plan, AfterMove, AfterData, AfterConst, AfterScan, AfterIrData,
      BeforeDrData, BeforeIrData;
    var n := j.GetChain(c.detect);
  }

  method PerformOther(j: Jtag, c: Call)
    requires j.Valid() && j.Agrees() && Disciplined(Now(j), c)
    requires (c.Move? || c.Reset? || c.Cycle? || c.Select? || c.SetLength?)
    modifies j, j.io, j.io.usbuf, j.io.tmsBuf
    ensures j.Valid() && j.Agrees() && Performed(j, old(Now(j)), c, Now(j))
  {
    hide Mpsse.Interpret, Mpsse.SlotsFit, Settles, Plan, AfterMove, AfterData, AfterConst, AfterScan, AfterIrData,
      BeforeDrData, BeforeIrData;
    match c
    case Move(state, pre) => j.SetTapState(state, pre);
    case Reset => j.TapTestLogicReset();
    case Cycle(n, tdi) => j.CycleTCK(n, tdi);
    case Select(dev) => var k := j.SelectDevice(dev);
    case SetLength(dev, len) => var k := j.SetDeviceIRLength(dev, len);
  }

  /** Every run of calls, up to the first that is not disciplined. `trace` are the states between the calls, and each
      call does what it should; wherever the controller started, the clocks in the bytes sent, in the command buffer
      and in the pending moves leave it in the recorded state, at any time. */
  method RunCalls(j: Jtag, calls: seq<Call>) returns (done: nat, ghost trace: seq<Driver>)
    requires j.Valid() && j.Agrees()
    modifies j, j.io, j.io.usbuf, j.io.tmsBuf
    ensures j.Valid() && done <= |calls| && |trace| == done + 1 && trace[0] == old(Now(j)) && trace[done] == Now(j)
    ensures done < |calls| ==> !Disciplined(trace[done], calls[done])
    ensures forall i :: 0 <= i < done ==> Performed(j, trace[i], calls[i], trace[i + 1])
    ensures forall i :: 0 <= i <= done ==> Right(trace[i])
  {
    hide Mpsse.Interpret, Tracks, Does, Disciplined, Performed, Right;
    done, trace := 0, [Now(j)];
    RightNow(j);
    SameFields(j);
    while done < |calls| && Disciplined(Fields(j), calls[done])
      invariant done <= |calls| && j.Valid() && j.Agrees()
      invariant |trace| == done + 1 && trace[0] == old(Now(j)) && trace[done] == Now(j)
      invariant forall i :: 0 <= i < done ==> Performed(j, trace[i], calls[i], trace[i + 1])
      invariant forall i :: 0 <= i <= done ==> Right(trace[i])
      invariant forall c :: Disciplined(Fields(j), c) == Disciplined(Now(j), c)
    {
      Perform(j, calls[done]);
      done := done + 1;
      trace := trace + [Now(j)];
      RightNow(j);
      SameFields(j);
    }
  }

  lemma RightNow(j: Jtag)
    requires j.Valid() && j.Agrees()
    ensures Right(Now(j))
  {
    hide Mpsse.Interpret;
  }

  lemma SameFields(j: Jtag)
    requires j.io.TmsClear()
    ensures forall c :: Disciplined(Fields(j), c) == Disciplined(Now(j), c)
  {
  }
}
