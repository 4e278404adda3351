/** The scans of the JTAG driver, played out on a chain of devices. */
module Scans {
  import opened Bits
  import opened Tap
  import opened Mpsse
  import opened IoFtdi
  import opened Jtag
  import opened Chain
  import opened ChainScan
  import opened Sequences

  /** The cable sees TDO as the chain drives it, from a chain in any state. */
  function TargetOf(c: Chain): seq<Edge> -> bool
    requires WellFormed(c)
  {
    (e: seq<Edge>) => Tdo(Run(c, e))
  }

  /** The driver's record of the chain is right: number of devices and instruction lengths. */
  ghost predicate Describes(devices: seq<ChainParam>, n: int, c: Chain) {
    && n == |c.devs| <= |devices|
    && forall k :: 0 <= k < n ==> devices[k].irlen == c.devs[k].irLength
  }

  // ----- the clocks of a scan from Run-Test/Idle

  function DrClocks(pre: nat, tdi: seq<byte>, len: nat, post: nat): (r: seq<Edge>)
    requires len <= 8 * |tdi|
    ensures |r| == pre + len + post
  {
    Moves(Repeat(false, pre)) + ShiftClocks(Edge(false, false), Some(tdi), len, post == 0)
      + ConstClocks(Edge(false, false), false, post, true)
  }

  function IrClocks(pre: nat, tdi: seq<byte>, len: nat, post: nat): (r: seq<Edge>)
    requires len <= 8 * |tdi|
    ensures |r| == pre + len + post
  {
    ConstClocks(Edge(false, false), true, pre, false) + ShiftClocks(Edge(false, false), Some(tdi), len, post == 0)
      + ConstClocks(Edge(false, false), true, post, true)
  }

  lemma DrClocksShift(pre: nat, tdi: seq<byte>, len: nat, post: nat)
    requires len <= 8 * |tdi| && len + post > 0
    ensures
      var s := DrClocks(pre, tdi, len, post);
      && ShiftClocking(s) && Leaves(s)
      && Tdis(s) == Repeat(true, pre) + BitsOf(tdi, len) + Repeat(false, post)
  {
    hide BitAt;
  }

  lemma IrClocksShift(pre: nat, tdi: seq<byte>, len: nat, post: nat)
    requires len <= 8 * |tdi| && len + post > 0
    ensures
      var s := IrClocks(pre, tdi, len, post);
      && ShiftClocking(s) && Leaves(s)
      && Tdis(s) == Repeat(true, pre) + BitsOf(tdi, len) + Repeat(true, post)
  {
    hide BitAt;
  }

  lemma IdleRoutes()
    ensures Route(RunTestIdle, Dr(Shift)) == TO_SHIFT_DR
    ensures Route(RunTestIdle, Ir(Shift)) == TO_SHIFT_IR
    ensures Route(Dr(Exit1), RunTestIdle) == TO_IDLE
    ensures Route(Ir(Exit1), RunTestIdle) == TO_IDLE
  {
  }

  lemma SameData(e: seq<Edge>, tdi: seq<byte>, read: bool, len: nat, last: bool)
    requires len <= 8 * |tdi| && !Level(e).tms && BytesFor(len) <= |tdi|
    ensures AfterData(e, Some(tdi), read, len, last) == e + ShiftClocks(Edge(false, false), Some(tdi), len, last)
  {
    hide BitAt;
  }

  lemma LevelAfter(e: seq<Edge>, s: seq<Edge>)
    requires s != []
    ensures Level(e + s) == s[|s| - 1]
  {
  }

  /** The driver's DR scan is exactly those clocks between the two routes. */
  lemma DrScanEdges(e: seq<Edge>, pre: nat, tdi: seq<byte>, read: bool, len: nat, post: nat)
    requires BytesFor(len) <= |tdi|
    ensures
      var e1 := BeforeDrData(e, Known(RunTestIdle), false, pre);
      var e2 := AfterData(e1, Some(tdi), read, len, post == 0);
      var s := DrClocks(pre, tdi, len, post);
      && e1 == e + Moves(TO_SHIFT_DR) + s[..pre]
      && e2 == e + Moves(TO_SHIFT_DR) + s[..pre + len]
      && AfterDrData(e2, post, RunTestIdle) == e + (Moves(TO_SHIFT_DR) + s + Moves(TO_IDLE))
  {
    var e1 := BeforeDrData(e, Known(RunTestIdle), false, pre);
    var e2 := AfterData(e1, Some(tdi), read, len, post == 0);
    DrScanStart(e, pre);
    SameData(e1, tdi, read, len, post == 0);
    StaysLow(e1, tdi, len, post == 0);
    ScanTail(e2, Dr(Exit1), false, post);
    hide ShiftClocks, ConstClocks, Route, BeforeDrData, AfterData, Moves, Repeat, BytesFor;
    Parts(e, Moves(TO_SHIFT_DR), Moves(Repeat(false, pre)), ShiftClocks(Edge(false, false), Some(tdi), len, post == 0),
      ConstClocks(Edge(false, false), false, post, true), Moves(TO_IDLE));
  }

  lemma Parts(e: seq<Edge>, a: seq<Edge>, p: seq<Edge>, d: seq<Edge>, q: seq<Edge>, z: seq<Edge>)
    ensures e + a + p == e + a + (p + d + q)[..|p|]
    ensures e + a + p + d == e + a + (p + d + q)[..|p| + |d|]
    ensures e + a + p + d + q + z == e + (a + (p + d + q) + z)
  {
    assert (p + d + q)[..|p|] == p && (p + d + q)[..|p| + |d|] == p + d;
  }

  lemma DrScanStart(e: seq<Edge>, pre: nat)
    ensures
      var e1 := BeforeDrData(e, Known(RunTestIdle), false, pre);
      e1 == e + Moves(TO_SHIFT_DR) + Moves(Repeat(false, pre)) && !Level(e1).tms
  {
    IdleRoutes();
    hide Route;
    assert Moves(TO_SHIFT_DR + Repeat(false, pre)) == Moves(TO_SHIFT_DR) + Moves(Repeat(false, pre));
    LevelAfter(e, Moves(TO_SHIFT_DR + Repeat(false, pre)));
  }

  lemma StaysLow(e: seq<Edge>, tdi: seq<byte>, len: nat, last: bool)
    requires len <= 8 * |tdi| && !Level(e).tms
    ensures !last ==> !Level(e + ShiftClocks(Edge(false, false), Some(tdi), len, last)).tms
  {
    hide BitAt;
    if len == 0 { assert e + ShiftClocks(Edge(false, false), Some(tdi), len, last) == e; }
  }

  lemma ScanTail(e: seq<Edge>, s: TapState, tdi: bool, post: nat)
    requires s in {Dr(Exit1), Ir(Exit1)} && (post > 0 ==> !Level(e).tms)
    ensures AfterMove(AfterConst(e, tdi, post, true), Known(s), RunTestIdle, 0)
      == e + ConstClocks(Edge(false, false), tdi, post, true) + Moves(TO_IDLE)
  {
    IdleRoutes();
    hide Route;
    assert ConstClocks(Level(e), tdi, post, true) == ConstClocks(Edge(false, false), tdi, post, true);
    assert TO_IDLE + Repeat(false, 0) == TO_IDLE;
  }

  /** The driver's IR scan likewise. */
  lemma IrScanEdges(e: seq<Edge>, pre: nat, tdi: seq<byte>, read: bool, len: nat, post: nat)
    requires BytesFor(len) <= |tdi|
    ensures
      var e1 := BeforeIrData(e, Known(RunTestIdle), pre);
      var e2 := AfterData(e1, Some(tdi), read, len, post == 0);
      var s := IrClocks(pre, tdi, len, post);
      && e1 == e + Moves(TO_SHIFT_IR) + s[..pre]
      && e2 == e + Moves(TO_SHIFT_IR) + s[..pre + len]
      && AfterIrData(e2, post, RunTestIdle) == e + (Moves(TO_SHIFT_IR) + s + Moves(TO_IDLE))
  {
    var e1 := BeforeIrData(e, Known(RunTestIdle), pre);
    var e2 := AfterData(e1, Some(tdi), read, len, post == 0);
    IrScanStart(e, pre);
    SameData(e1, tdi, read, len, post == 0);
    StaysLow(e1, tdi, len, post == 0);
    ScanTail(e2, Ir(Exit1), true, post);
    hide ShiftClocks, ConstClocks, Route, BeforeIrData, AfterData, Moves, BytesFor;
    Parts(e, Moves(TO_SHIFT_IR), ConstClocks(Edge(false, false), true, pre, false),
      ShiftClocks(Edge(false, false), Some(tdi), len, post == 0), ConstClocks(Edge(false, false), true, post, true),
        Moves(TO_IDLE));
  }

  lemma IrScanStart(e: seq<Edge>, pre: nat)
    ensures
      var e1 := BeforeIrData(e, Known(RunTestIdle), pre);
      e1 == e + Moves(TO_SHIFT_IR) + ConstClocks(Edge(false, false), true, pre, false) && !Level(e1).tms
  {
    IdleRoutes();
    hide Route;
    assert TO_SHIFT_IR + Repeat(false, 0) == TO_SHIFT_IR;
    LevelAfter(e, Moves(TO_SHIFT_IR));
    ConstLow(e + Moves(TO_SHIFT_IR), true, pre);
  }

  lemma ConstLow(e: seq<Edge>, tdi: bool, n: nat)
    requires !Level(e).tms
    ensures AfterConst(e, tdi, n, false) == e + ConstClocks(Edge(false, false), tdi, n, false)
    ensures !Level(AfterConst(e, tdi, n, false)).tms
  {
    if n == 0 { assert AfterConst(e, tdi, n, false) == e; }
  }

  // ----- bit counts

  /** The driver's bit counts are the lengths of the instruction registers behind and before the selected device. */
  lemma {:induction false} IrLengths(devices: seq<ChainParam>, n: int, c: Chain, lo: nat, hi: nat)
    requires Describes(devices, n, c) && lo <= hi <= n
    ensures |Flat(Patterns(c), lo)| + IrLength(devices, lo, hi) == |Flat(Patterns(c), hi)|
  {
    if lo < hi {
      IrLengths(devices, n, c, lo, hi - 1);
      assert devices[lo..hi] == devices[lo..hi - 1] + [devices[hi - 1]];
      SumIrConcat(devices[lo..hi - 1], [devices[hi - 1]]);
      assert Patterns(c)[hi - 1] == Pattern(c.devs[hi - 1]);
    }
  }

  // ----- the theorems

  /** shiftIR: the selected device holds exactly the instruction, every other device holds all ones, and nothing else
      about the devices changes. */
  lemma ShiftIrSelects(c0: Chain, e: seq<Edge>, devices: seq<ChainParam>, n: int, k: nat, tdi: seq<byte>, read: bool)
    requires WellFormed(c0) && Run(c0, e).state == RunTestIdle && Describes(devices, n, Run(c0, e)) && k < n
    requires BytesFor(devices[k].irlen) <= |tdi|
    ensures
      var c := Run(c0, e);
      var pre, post, len := IrLength(devices, k + 1, n), IrLength(devices, 0, k), devices[k].irlen;
      var e2 := AfterData(BeforeIrData(e, Known(RunTestIdle), pre), Some(tdi), read, len, post == 0);
      var c' := Run(c0, AfterIrData(e2, post, RunTestIdle));
      && c'.state == RunTestIdle && |c'.devs| == n
      && c'.devs[k] == Instructed(c.devs[k], BitsOf(tdi, len))
      && OthersBypass(c', k)
      && forall j :: 0 <= j < n && j != k ==> c'.devs[j] == Instructed(c.devs[j], Repeat(true, devices[j].irlen))
  {
    hide Run, WellFormed, BeforeIrData, AfterIrData, AfterData, BitsOf, Flat, ShiftMany;
    var c := Run(c0, e);
    var pre, post, len := IrLength(devices, k + 1, n), IrLength(devices, 0, k), devices[k].irlen;
    var s, data := IrClocks(pre, tdi, len, post), BitsOf(tdi, len);
    IrScanEdges(e, pre, tdi, read, len, post);
    RunConcat(c0, e, Moves(TO_SHIFT_IR) + s + Moves(TO_IDLE));
    assert len > 0 by { PatternNonempty(c, k); }
    IrClocksShift(pre, tdi, len, post);
    IrScanRun(c, s);
    assert Tdis(s) == IrScanBits(Patterns(c), k, data) by { ScanBits(devices, n, c, k, data); }
    forall j | 0 <= j < n
      ensures
        var d' := IrScanned(c, Tdis(s)).devs[j];
        && d' == Instructed(c.devs[j], if j == k then data else Repeat(true, devices[j].irlen))
        && (j != k ==> Bypassed(d'))
    {
      IrScanSelects(c, k, data, j);
    }
  }

  lemma PatternNonempty(c: Chain, k: nat)
    requires WellFormed(c) && k < |c.devs|
    ensures c.devs[k].irLength > 0
  {
  }

  lemma ScanBits(devices: seq<ChainParam>, n: int, c: Chain, k: nat, data: seq<bool>)
    requires Describes(devices, n, c) && k < n
    ensures Repeat(true, IrLength(devices, k + 1, n)) + data + Repeat(true, IrLength(devices, 0, k))
      == IrScanBits(Patterns(c), k, data)
  {
    hide IrLength;
    IrLengths(devices, n, c, k + 1, n);
    IrLengths(devices, n, c, 0, k);
    assert |Flat(Patterns(c), 0)| == 0;
    hide Flat;
  }

  /** shiftDR: with the other devices in BYPASS, the selected device receives exactly the data behind the padding; data
      that fill its register end up in it; and no instruction changes. */
  lemma ShiftDrDelivers(c0: Chain, e: seq<Edge>, k: nat, tdi: seq<byte>, read: bool, len: nat)
    requires WellFormed(c0) && Run(c0, e).state == RunTestIdle && k < |Run(c0, e).devs| && OthersBypass(Run(c0, e), k)
    requires BytesFor(len) <= |tdi| && len + k > 0
    ensures
      var c := Run(c0, e);
      var n, d, data := |c.devs|, c.devs[k], BitsOf(tdi, len);
      var e2 := AfterData(BeforeDrData(e, Known(RunTestIdle), false, n - k - 1), Some(tdi), read, len, k == 0);
      var c' := Run(c0, AfterDrData(e2, k, RunTestIdle));
      && c' == DrScanned(c, DrBits(n, k, data))
      && c'.devs[k].log == d.log + [Scan(Delivered(n, k, data))] && c'.devs[k].irScans == d.irScans
      && (len == |Selected(d)| ==> c'.devs[k] == Updated(d, data, Delivered(n, k, data)))
      && OthersBypass(c', k)
  {
    hide Run, WellFormed, BeforeDrData, AfterDrData, AfterData, BitsOf, ShiftMany, Delivered, Selected;
    var c := Run(c0, e);
    var n, data := |c.devs|, BitsOf(tdi, len);
    var s := DrClocks(n - k - 1, tdi, len, k);
    DrScanEdges(e, n - k - 1, tdi, read, len, k);
    RunConcat(c0, e, Moves(TO_SHIFT_DR) + s + Moves(TO_IDLE));
    DrClocksShift(n - k - 1, tdi, len, k);
    DrScanRun(c, s);
    DrScanDelivers(c, k, data);
  }

  /** ... and the bits read during its data clocks are exactly the register that the device captured. */
  lemma ShiftDrReads(c0: Chain, e: seq<Edge>, k: nat, tdi: seq<byte>, len: nat, i: nat)
    requires WellFormed(c0) && Run(c0, e).state == RunTestIdle && k < |Run(c0, e).devs| && OthersBypass(Run(c0, e), k)
    requires BytesFor(len) <= |tdi| && i < len && i < |Selected(Run(c0, e).devs[k])|
    ensures
      var c := Run(c0, e);
      var e1 := BeforeDrData(e, Known(RunTestIdle), false, |c.devs| - k - 1);
      var e2 := AfterData(e1, Some(tdi), true, len, k == 0);
      TargetOf(c0)(e2[..|e1| + i]) == Selected(c.devs[k])[i]
  {
    hide *;
    var c := Run(c0, e);
    var pre := |c.devs| - k - 1;
    var s := DrClocks(pre, tdi, len, k);
    DrClocksShift(pre, tdi, len, k);
    DrBitsAre(|c.devs|, k, BitsOf(tdi, len));
    DrScanReadsOut(c, k, BitsOf(tdi, len), s, i);
    EdgesBefore(e, pre, tdi, len, k, i);
    RunConcat(c0, e, Moves(TO_SHIFT_DR) + s[..pre + i]);
    TargetIs(c0, e + (Moves(TO_SHIFT_DR) + s[..pre + i]));
  }

  lemma DrBitsAre(n: nat, k: nat, data: seq<bool>)
    requires k < n
    ensures DrBits(n, k, data) == Repeat(true, n - k - 1) + data + Repeat(false, k)
  {
  }

  /** The edges before the i-th data clock of a scan. */
  lemma EdgesBefore(e: seq<Edge>, pre: nat, tdi: seq<byte>, len: nat, post: nat, i: nat)
    requires BytesFor(len) <= |tdi| && i < len
    ensures
      var e1 := BeforeDrData(e, Known(RunTestIdle), false, pre);
      var e2 := AfterData(e1, Some(tdi), true, len, post == 0);
      var s := DrClocks(pre, tdi, len, post);
      && |s| >= pre + len && |e2| >= |e1| + i
      && e2[..|e1| + i] == e + (Moves(TO_SHIFT_DR) + s[..pre + i])
  {
    DrScanEdges(e, pre, tdi, true, len, post);
    LongEnough(pre, tdi, len, post);
    hide *;
    Cut(e, Moves(TO_SHIFT_DR), DrClocks(pre, tdi, len, post), pre, i, pre + len);
  }

  lemma LongEnough(pre: nat, tdi: seq<byte>, len: nat, post: nat)
    requires BytesFor(len) <= |tdi|
    ensures |DrClocks(pre, tdi, len, post)| >= pre + len
  {
  }

  lemma Cut(e: seq<Edge>, a: seq<Edge>, s: seq<Edge>, pre: nat, i: nat, end: nat)
    requires pre + i <= end <= |s|
    ensures (e + a + s[..end])[..|e + a + s[..pre]| + i] == e + (a + s[..pre + i])
  {
  }

  lemma TargetIs(c0: Chain, e: seq<Edge>)
    requires WellFormed(c0)
    ensures TargetOf(c0)(e) == Tdo(Run(c0, e))
  {
  }

  /** shiftIR also reads: the bits read during its data clocks are the pattern that the device captured. */
  lemma ShiftIrReads(c0: Chain, e: seq<Edge>, devices: seq<ChainParam>, n: int, k: nat, tdi: seq<byte>, i: nat)
    requires WellFormed(c0) && Run(c0, e).state == RunTestIdle && Describes(devices, n, Run(c0, e)) && k < n
    requires BytesFor(devices[k].irlen) <= |tdi| && i < devices[k].irlen
    ensures
      var c := Run(c0, e);
      var e1 := BeforeIrData(e, Known(RunTestIdle), IrLength(devices, k + 1, n));
      var e2 := AfterData(e1, Some(tdi), true, devices[k].irlen, IrLength(devices, 0, k) == 0);
      TargetOf(c0)(e2[..|e1| + i]) == Pattern(c.devs[k])[i]
  {
    hide *;
    var c := Run(c0, e);
    SameLengths(devices, n, c, k);
    var pre, post, len := IrLength(devices, k + 1, n), IrLength(devices, 0, k), devices[k].irlen;
    var s, data := IrClocks(pre, tdi, len, post), BitsOf(tdi, len);
    IrClocksShift(pre, tdi, len, post);
    ScanBits(devices, n, c, k, data);
    IrScanOut(c, s, pre + i);
    IrScanReads(c, k, data, i);
    IrEdgesBefore(e, pre, tdi, len, post, i);
    RunConcat(c0, e, Moves(TO_SHIFT_IR) + s[..pre + i]);
    TargetIs(c0, e + (Moves(TO_SHIFT_IR) + s[..pre + i]));
  }

  lemma SameLengths(devices: seq<ChainParam>, n: int, c: Chain, k: nat)
    requires Describes(devices, n, c) && k < n
    ensures n == |c.devs| <= |devices| && devices[k].irlen == c.devs[k].irLength
    ensures IrLength(devices, k + 1, n) == |Flat(Patterns(c), n)| - |Flat(Patterns(c), k + 1)|
  {
    IrLengths(devices, n, c, k + 1, n);
  }

  lemma IrEdgesBefore(e: seq<Edge>, pre: nat, tdi: seq<byte>, len: nat, post: nat, i: nat)
    requires BytesFor(len) <= |tdi| && i < len
    ensures
      var e1 := BeforeIrData(e, Known(RunTestIdle), pre);
      var e2 := AfterData(e1, Some(tdi), true, len, post == 0);
      var s := IrClocks(pre, tdi, len, post);
      && |s| >= pre + len && |e2| >= |e1| + i
      && e2[..|e1| + i] == e + (Moves(TO_SHIFT_IR) + s[..pre + i])
  {
    IrScanEdges(e, pre, tdi, true, len, post);
    assert |IrClocks(pre, tdi, len, post)| >= pre + len;
    hide *;
    Cut(e, Moves(TO_SHIFT_IR), IrClocks(pre, tdi, len, post), pre, i, pre + len);
  }

  /** Splitting the data of a scan over calls that do not end it changes nothing. */
  lemma SplitScan(e: seq<Edge>, a: seq<byte>, m: nat, b: seq<byte>, n: nat, whole: seq<byte>, read: bool, last: bool)
    requires BytesFor(m) <= |a| && BytesFor(n) <= |b| && BytesFor(m + n) <= |whole| && n > 0
    requires BitsOf(whole, m + n) == BitsOf(a, m) + BitsOf(b, n)
    ensures AfterData(AfterData(e, Some(a), read, m, false), Some(b), read, n, last)
      == AfterData(e, Some(whole), read, m + n, last)
  {
    SameBits(a, m, b, n, whole);
    hide BytesFor, BitsOf, BitAt;
    var e' := AfterData(e, Some(a), read, m, false);
    SameLevel(e, a, read, m);
    SplitClocks(Level(e), Level(e'), a, m, b, n, whole, last);
    DataIs(e, a, read, m, false);
    DataIs(e', b, read, n, last);
    DataIs(e, whole, read, m + n, last);
    hide ShiftClocks, Level, AfterData;
    Regroup(e, ShiftClocks(Level(e), Some(a), m, false), ShiftClocks(Level(e'), Some(b), n, last));
  }

  lemma DataIs(e: seq<Edge>, a: seq<byte>, read: bool, m: nat, last: bool)
    requires BytesFor(m) <= |a|
    ensures AfterData(e, Some(a), read, m, last) == e + ShiftClocks(Level(e), Some(a), m, last)
  {
  }

  lemma SameLevel(e: seq<Edge>, a: seq<byte>, read: bool, m: nat)
    requires BytesFor(m) <= |a|
    ensures Level(AfterData(e, Some(a), read, m, false)).tms == Level(e).tms
  {
    hide BytesFor, BitAt;
    if m == 0 { assert AfterData(e, Some(a), read, m, false) == e; }
  }

  lemma SameBits(a: seq<byte>, m: nat, b: seq<byte>, n: nat, whole: seq<byte>)
    requires m <= 8 * |a| && n <= 8 * |b| && m + n <= 8 * |whole|
    requires BitsOf(whole, m + n) == BitsOf(a, m) + BitsOf(b, n)
    ensures forall i :: 0 <= i < m ==> BitAt(whole, i) == BitAt(a, i)
    ensures forall i :: 0 <= i < n ==> BitAt(b, i) == BitAt(whole, m + i)
  {
    hide BitAt;
    var bits := BitsOf(whole, m + n);
    forall i | 0 <= i < m ensures BitAt(whole, i) == BitAt(a, i) { assert bits[i] == BitsOf(a, m)[i]; }
    forall i | 0 <= i < n ensures BitAt(b, i) == BitAt(whole, m + i) { assert bits[m + i] == BitsOf(b, n)[i]; }
  }

  lemma SplitClocks(h: Edge, h': Edge, a: seq<byte>, m: nat, b: seq<byte>, n: nat, whole: seq<byte>, last: bool)
    requires m <= 8 * |a| && 0 < n <= 8 * |b| && m + n <= 8 * |whole| && h.tms == h'.tms
    requires forall i :: 0 <= i < m ==> BitAt(whole, i) == BitAt(a, i)
    requires forall i :: 0 <= i < n ==> BitAt(b, i) == BitAt(whole, m + i)
    ensures ShiftClocks(h, Some(whole), m + n, last)
      == ShiftClocks(h, Some(a), m, false) + ShiftClocks(h', Some(b), n, last)
  {
    hide BitAt;
    var s := ShiftClocks(h, Some(whole), m + n, last);
    assert s[..m] == ShiftClocks(h, Some(a), m, false);
    assert s[m..] == ShiftClocks(h', Some(b), n, last);
  }
}
