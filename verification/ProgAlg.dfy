/** Programming a Xilinx FPGA over JTAG (progalgxc3s.cpp), followed through the cable driver to the device. */
module ProgAlg {
  import opened Bits
  import opened Tap
  import opened Mpsse
  import opened IoFtdi
  import opened Jtag
  import opened Chain
  import opened ChainScan
  import opened Scans
  import opened Detection

  const JPROGRAM: seq<byte> := [0xCB, 0xFF]
  const CFG_IN: seq<byte> := [0xC5, 0xFF]
  const JSHUTDOWN: seq<byte> := [0xCD, 0xFF]
  const JSTART: seq<byte> := [0xCC, 0xFF]
  const ISC_ENABLE: seq<byte> := [0xD0, 0xFF]
  const ISC_DISABLE: seq<byte> := [0xD6, 0xFF]
  const BYPASS: seq<byte> := [0xFF, 0xFF]
  const ISC_DNA: seq<byte> := [0x31]

  /** The bits of a byte string, most significant bit of each byte first. */
  function MsbFirst(s: seq<byte>): (r: seq<bool>)
    ensures |r| == 8 * |s| && forall i :: 0 <= i < |r| ==> r[i] == Bit(s[i / 8], 7 - i % 8)
  {
    seq(8 * |s|, i requires 0 <= i < 8 * |s| => Bit(s[i / 8], 7 - i % 8))
  }

  /** Reversing every byte on load and shifting it low end first sends it high end first. */
  lemma ReversedBits(s: seq<byte>)
    ensures BitsOf(AllReversed(s), 8 * |s|) == MsbFirst(s)
  {
    hide Bit;
    forall i | 0 <= i < 8 * |s| ensures BitAt(AllReversed(s), i) == Bit(s[i / 8], 7 - i % 8) {
      assert AllReversed(s)[i / 8] == BitReversed(s[i / 8]);
    }
  }

  lemma SameRecord(devices: seq<ChainParam>, n: int, c: Chain, c': Chain)
    requires Describes(devices, n, c) && SameDevices(c, c')
    ensures Describes(devices, n, c')
  {
  }

  lemma SameStatus(c: Chain, c': Chain, k: nat)
    requires SameDevices(c, c') && k < |c.devs|
    ensures |c'.devs| == |c.devs| && Pattern(c'.devs[k]) == StatusAt(c.devs[k], SeenBy(c'.devs[k]).irScans)
    ensures SeenBy(c'.devs[k]).log == c'.devs[k].log && SeenBy(c'.devs[k]).irScans == c'.devs[k].irScans
  {
  }

  /** Clocks in Run-Test/Idle with TMS low do nothing but pass. */
  lemma {:induction false} IdleRun(c: Chain, e: seq<Edge>)
    requires WellFormed(c) && c.state == RunTestIdle && forall i :: 0 <= i < |e| ==> !e[i].tms
    ensures Run(c, e) == c.(devs := Waited(c.devs, |e|))
  {
    if e == [] {
      assert forall k :: 0 <= k < |c.devs| ==> c.devs[k].log + Repeat(Tick, 0) == c.devs[k].log;
      assert Waited(c.devs, 0) == c.devs;
    } else {
      IdleRun(c, e[..|e| - 1]);
      OneTick(c, |e| - 1, e[|e| - 1]);
    }
  }

  function Waited(devs: seq<Device>, n: nat): (r: seq<Device>)
    ensures |r| == |devs| && forall k :: 0 <= k < |devs| ==> r[k] == devs[k].(log := devs[k].log + Repeat(Tick, n))
  {
    seq(|devs|, k requires 0 <= k < |devs| => devs[k].(log := devs[k].log + Repeat(Tick, n)))
  }

  lemma OneTick(c: Chain, n: nat, e: Edge)
    requires WellFormed(c) && c.state == RunTestIdle && !e.tms
    ensures Clock(c.(devs := Waited(c.devs, n)), e) == c.(devs := Waited(c.devs, n + 1))
  {
    var a, b := Waited(c.devs, n), Waited(c.devs, n + 1);
    forall k | 0 <= k < |c.devs| ensures Ticked(a[k]) == b[k] {
      assert c.devs[k].log + Repeat(Tick, n) + [Tick] == c.devs[k].log + (Repeat(Tick, n) + [Tick]);
      assert Repeat(Tick, n) + [Tick] == Repeat(Tick, n + 1);
    }
    assert Clock(c.(devs := a), e).devs == b;
  }

  /** The FPGA families that the algorithm tells apart. */
  datatype Family = XC3SE | XC3SA | XC3SAN | XC3SD | XC6S | OtherFamily

  /** Families with an identifier that is read before programming. */
  predicate HasDna(f: Family) { f == XC3SA || f == XC3SAN || f == XC3SD || f == XC6S }

  /** A scan of the length of the selected register reads all of it. */
  lemma ReadBack(io: IoFtdi, c0: Chain, e: seq<Edge>, k: nat, data: seq<byte>, len: nat)
    requires WellFormed(c0) && io.target == TargetOf(c0)
    requires Run(c0, e).state == RunTestIdle && k < |Run(c0, e).devs| && OthersBypass(Run(c0, e), k)
    requires BytesFor(len) <= |data| && len == |Selected(Run(c0, e).devs[k])|
    ensures
      var c := Run(c0, e);
      var e1 := BeforeDrData(e, Known(RunTestIdle), false, |c.devs| - k - 1);
      var e2 := AfterData(e1, Some(data), true, len, k == 0);
      io.Samples(e2, |e1|, len) == Selected(c.devs[k])
  {
    hide Run, AfterData, BeforeDrData, Selected, TargetOf, WellFormed, BytesFor;
    var c := Run(c0, e);
    var e1 := BeforeDrData(e, Known(RunTestIdle), false, |c.devs| - k - 1);
    var e2 := AfterData(e1, Some(data), true, len, k == 0);
    forall i | 0 <= i < len ensures io.Samples(e2, |e1|, len)[i] == Selected(c.devs[k])[i] {
      ShiftDrReads(c0, e, k, data, len, i);
      assert io.Samples(e2, |e1|, len)[i] == io.Sample(e2, |e1| + i);
    }
  }

  // ----- scans of the selected device

  /** What the selected device saw: its instruction, all events so far, and how many instructions it has been given. */
  datatype Seen = Seen(inst: Instruction, log: seq<Event>, irScans: nat)

  /** Where a device is: in a chain of `n`, as number `k`, with an instruction register of `len` bits. */
  datatype Place = Place(n: nat, k: nat, len: nat)

  predicate Inside(p: Place) { p.k < p.n }

  /** An instruction, as a device gets it. */
  function Given(p: Place, code: seq<byte>): Instruction
    requires p.len <= 8 * |code|
  {
    Loaded(BitsOf(code, p.len))
  }

  /** ... and as it enters what the device sees. */
  function Loads(p: Place, code: seq<byte>): (log: seq<Event>)
    requires p.len <= 8 * |code|
    ensures |log| == 1
  {
    [Load(BitsOf(code, p.len))]
  }

  /** What a DR scan shows to a device: the data, behind the padding. */
  function Shown(p: Place, data: seq<bool>): (log: seq<Event>)
    requires Inside(p)
    ensures |log| == 1
  {
    [Scan(Delivered(p.n, p.k, data))]
  }

  function Ticks(n: nat): (log: seq<Event>)
    ensures |log| == n
  {
    Repeat(Tick, n)
  }

  function SeenBy(d: Device): Seen { Seen(d.inst, d.log, d.irScans) }

  /** The driver's first IR scan may start from Test-Logic-Reset: this adds a clock on the way. */
  function Idled(e: seq<Edge>, s: TapState): seq<Edge> {
    if s == TestLogicReset then e + Moves([false]) else e
  }

  lemma StartsIdle(c0: Chain, e: seq<Edge>, s: TapState, pre: nat)
    requires WellFormed(c0) && Run(c0, e).state == s && (s == TestLogicReset || s == RunTestIdle)
    ensures Run(c0, Idled(e, s)) == Run(c0, e).(state := RunTestIdle)
    ensures BeforeIrData(e, Known(s), pre) == BeforeIrData(Idled(e, s), Known(RunTestIdle), pre)
  {
    hide *;
    if s == TestLogicReset {
      assert Idled(e, s) == e + Moves([false])
        && BeforeIrData(e, Known(s), pre) == BeforeIrData(e + Moves([false]), Known(RunTestIdle), pre) by {
        FirstClock(e, pre);
      }
      RunConcat(c0, e, Moves([false]));
      OneLow(Run(c0, e));
    } else {
      assert Idled(e, s) == e by { FirstClock(e, pre); }
    }
  }

  lemma FirstClock(e: seq<Edge>, pre: nat)
    ensures Idled(e, TestLogicReset) == e + Moves([false]) && Idled(e, RunTestIdle) == e
    ensures BeforeIrData(e, Known(TestLogicReset), pre) == BeforeIrData(e + Moves([false]), Known(RunTestIdle), pre)
  {
    ResetIrRoute();
    var r := Route(RunTestIdle, Ir(Shift));
    assert [false] + r + Repeat(false, 0) == [false] + (r + Repeat(false, 0));
    assert Moves([false] + (r + Repeat(false, 0))) == Moves([false]) + Moves(r + Repeat(false, 0));
    hide Route, ConstClocks, Moves;
    assert e + Moves([false]) + Moves(r + Repeat(false, 0)) == e + (Moves([false]) + Moves(r + Repeat(false, 0)));
  }

  lemma OneLow(c: Chain)
    requires WellFormed(c) && c.state == TestLogicReset
    ensures Run(c, Moves([false])) == c.(state := RunTestIdle)
  {
    var e := Moves([false]);
    assert Run(c, e[..0]) == c;
    assert Run(c, e) == Clock(c, e[0]);
  }

  lemma ResetIrRoute()
    ensures Route(TestLogicReset, Ir(Shift)) == [false] + Route(RunTestIdle, Ir(Shift))
  {
  }

  /** Device `k` has seen this, and all others are in BYPASS. */
  ghost predicate Shows(c: Chain, k: int, seen: Seen) {
    0 <= k < |c.devs| && OthersBypass(c, k) && SeenBy(c.devs[k]) == seen
  }

  /** An IR scan of device `k`, from either of the two states: what it does to the devices, and what it reads. */
  lemma Instructs(io: IoFtdi, c0: Chain, e: seq<Edge>, s: TapState, devices: seq<ChainParam>, n: int, k: nat,
                  code: seq<byte>,
                  read: bool)
    requires WellFormed(c0) && io.target == TargetOf(c0) && Describes(devices, n, Run(c0, e)) && k < n
    requires Run(c0, e).state == s && (s == TestLogicReset || s == RunTestIdle) && BytesFor(devices[k].irlen) <= |code|
    ensures
      var c, len, post := Run(c0, e), devices[k].irlen, IrLength(devices, 0, k);
      var e1 := BeforeIrData(e, Known(s), IrLength(devices, k + 1, n));
      var e2 := AfterData(e1, Some(code), read, len, post == 0);
      var c' := Run(c0, AfterIrData(e2, post, RunTestIdle));
      && c'.state == RunTestIdle && |c'.devs| == n && OthersBypass(c', k)
      && SeenBy(c'.devs[k]) ==
        Seen(Loaded(BitsOf(code, len)), c.devs[k].log + [Load(BitsOf(code, len))], c.devs[k].irScans + 1)
      && (read ==> io.Samples(e2, |e1|, len) == Pattern(c.devs[k]))
  {
    hide Run, WellFormed, BeforeIrData, AfterIrData, AfterData, BitsOf, TargetOf, OthersBypass, Idled;
    var e' := Idled(e, s);
    StartsIdle(c0, e, s, IrLength(devices, k + 1, n));
    ShiftIrSelects(c0, e', devices, n, k, code, read);
    if read {
      var len := devices[k].irlen;
      var e1 := BeforeIrData(e', Known(RunTestIdle), IrLength(devices, k + 1, n));
      var e2 := AfterData(e1, Some(code), read, len, IrLength(devices, 0, k) == 0);
      forall i | 0 <= i < len ensures io.Samples(e2, |e1|, len)[i] == Pattern(Run(c0, e').devs[k])[i] {
        ShiftIrReads(c0, e', devices, n, k, code, i);
        assert io.Samples(e2, |e1|, len)[i] == io.Sample(e2, |e1| + i);
      }
    }
  }

  /** A scan that only reads holds TDI, which is the same as sending those levels. */
  lemma HeldData(e: seq<Edge>, len: nat, last: bool) returns (held: seq<byte>)
    ensures |held| == BytesFor(len)
    ensures AfterData(e, None, true, len, last) == AfterData(e, Some(held), true, len, last)
  {
    var s := ShiftClocks(Level(e), None, len, last);
    held := Pack(Tdis(s));
    hide Pack, BitAt;
    forall i | 0 <= i < len ensures BitAt(held, i) == s[i].tdi { PackedBitAt(Tdis(s), i); }
    assert ShiftClocks(Level(e), Some(held), len, last) == s;
  }

  lemma ScanSends(c0: Chain, e: seq<Edge>, k: nat, data: seq<byte>, read: bool, len: nat)
    requires WellFormed(c0) && Run(c0, e).state == RunTestIdle && k < |Run(c0, e).devs| && OthersBypass(Run(c0, e), k)
    requires BytesFor(len) <= |data| && len + k > 0
    ensures
      var c := Run(c0, e);
      var n, d := |c.devs|, c.devs[k];
      var e2 := AfterData(BeforeDrData(e, Known(RunTestIdle), false, n - k - 1), Some(data), read, len, k == 0);
      var c' := Run(c0, AfterDrData(e2, k, RunTestIdle));
      && |c'.devs| == n && OthersBypass(c', k)
      && SeenBy(c'.devs[k]) == Seen(d.inst, d.log + [Scan(Delivered(n, k, BitsOf(data, len)))], d.irScans)
  {
    hide Run, AfterData, BeforeDrData, AfterDrData, Selected, WellFormed, Delivered, BitsOf, OthersBypass, ShiftMany;
    ShiftDrDelivers(c0, e, k, data, read, len);
    SameInstruction(Run(c0, e), k, DrBits(|Run(c0, e).devs|, k, BitsOf(data, len)));
  }

  lemma SameInstruction(c: Chain, k: nat, bits: seq<bool>)
    requires WellFormed(c) && k < |c.devs|
    ensures |DrScanned(c, bits).devs| == |c.devs| && DrScanned(c, bits).devs[k].inst == c.devs[k].inst
  {
    hide ShiftMany, Received;
  }

  /** Bits of the byte into which an instruction register of up to 8 bits is read. */
  lemma StatusByte(bits: seq<bool>, before: seq<byte>, after: seq<byte>)
    requires 1 <= |bits| <= 8 && |after| >= 1 && Overwritten(before, after, 0, Pack(bits))
    ensures forall i: nat :: i < 8 ==> Bit(after[0], i) == (i < |bits| && bits[i])
  {
    hide Pack;
    assert |Pack(bits)| == 1 && after[0..0 + 1][0] == Pack(bits)[0];
    forall i: nat | i < 8 ensures Bit(after[0], i) == (i < |bits| && bits[i]) {
      PackedBitAt(bits, i);
      assert BitAt(Pack(bits), i) == Bit(Pack(bits)[0], i);
    }
  }

  lemma StatusMasks(b: byte)
    ensures b & 0x10 != 0 <==> Bit(b, 4)
    ensures b & 0x23 == 0x21 <==> Bit(b, 0) && !Bit(b, 1) && Bit(b, 5)
  {
  }

  class ProgAlgXC3S {
    const jtag: Jtag
    const family: Family
    const tckLen: nat := if family == OtherFamily || family == XC6S then 12 else 16

    /** The chain of devices at the other end of the cable, before any clock; its state is arbitrary. */
    ghost const chain: Chain

    constructor (jtag: Jtag, family: Family, ghost chain: Chain)
      ensures this.jtag == jtag && this.family == family && this.chain == chain
    {
      this.jtag := jtag;
      this.family := family;
      this.chain := chain;
    }

    /** The chain after all clocks asked for so far. */
    ghost function View(): Chain
      requires jtag.io.TmsClear() && WellFormed(chain)
      reads jtag.io, jtag.io.tmsBuf
    {
      Run(chain, jtag.Edges())
    }

    /** The driver is between scans, with its record of the chain right and a device selected. */
    ghost predicate Standby()
      reads jtag, jtag.io, jtag.io.usbuf, jtag.io.tmsBuf
    {
      && jtag.Valid() && jtag.Agrees() && (jtag.current == Known(RunTestIdle) || jtag.current == Known(TestLogicReset))
      && jtag.postDR == jtag.postIR == RunTestIdle && !jtag.shiftDRincomplete
      && 0 <= jtag.deviceIndex < jtag.numDevices
      && WellFormed(chain) && jtag.io.target == TargetOf(chain)
      && Describes(jtag.devices, jtag.numDevices, chain)
    }

    /** ... and there was a scan before, which left all other devices in BYPASS. */
    ghost predicate Ready()
      reads jtag, jtag.io, jtag.io.usbuf, jtag.io.tmsBuf
    {
      Standby() && jtag.current == Known(RunTestIdle) && OthersBypass(View(), jtag.deviceIndex)
    }

    lemma Viewed()
      requires Standby()
      ensures Known(View().state) == jtag.current && Describes(jtag.devices, jtag.numDevices, View())
      ensures SameDevices(chain, View())
    {
      hide Run;
      RunState(chain, jtag.Edges());
      DevicesStay(chain, jtag.Edges());
      SameRecord(jtag.devices, jtag.numDevices, chain, View());
    }

    /** What the selected device saw of all clocks asked for so far. */
    ghost function Now(): Seen
      requires Standby()
      reads jtag, jtag.io, jtag.io.usbuf, jtag.io.tmsBuf
    {
      Viewed();
      SeenBy(View().devs[jtag.deviceIndex])
    }

    /** The data register that is selected. */
    ghost function Register(): seq<bool>
      requires Standby()
      reads jtag, jtag.io, jtag.io.usbuf, jtag.io.tmsBuf
    {
      Viewed();
      Selected(View().devs[jtag.deviceIndex])
    }

    ghost function At(): (p: Place)
      requires 0 <= jtag.deviceIndex < jtag.numDevices <= |jtag.devices|
      ensures Inside(p)
      reads jtag`devices, jtag`deviceIndex, jtag`numDevices
    {
      Place(jtag.numDevices, jtag.deviceIndex, jtag.devices[jtag.deviceIndex].irlen)
    }

    /** What the status bit `i` of the device is after it has been given `t` instructions. */
    ghost predicate StatusBit(t: nat, i: nat)
      requires 0 <= jtag.deviceIndex < |chain.devs|
      reads jtag`deviceIndex
    {
      var d := chain.devs[jtag.deviceIndex];
      i < d.irLength && d.status(t, i)
    }

    /** `shiftIR`, seen from the device. */
    method Instruct(code: seq<byte>, tdo: array?<byte>)
      requires Standby() && At().len <= 8 * |code|
      requires tdo != jtag.io.tmsBuf && tdo != jtag.io.usbuf
      requires tdo != null ==> At().len <= 8 * tdo.Length
      modifies jtag`current, jtag.io, jtag.io.usbuf, jtag.io.tmsBuf, tdo
      ensures Ready()
      ensures Now() == Seen(Given(At(), code), old(Now()).log + Loads(At(), code), old(Now()).irScans + 1)
      ensures tdo != null ==>
        Overwritten(old(tdo[..]), tdo[..], 0, Pack(StatusAt(chain.devs[jtag.deviceIndex], old(Now()).irScans)))
    {
      hide Run, Interpret, SlotsFit, Settles, AfterData, AfterIrData, BeforeIrData, Pack, Overwritten, OthersBypass,
        IrLength,
        WellFormed, TargetOf, StatusAt, Describes, SeenBy;
      Viewed();
      InstructPlays(code, tdo != null);
      ghost var e1, e2 := jtag.ShiftIR(code, tdo);
    }

    /** What the clocks of an IR scan do to the chain. */
    lemma InstructPlays(code: seq<byte>, read: bool)
      requires Standby() && At().len <= 8 * |code|
      ensures
        var e, k, len, post := jtag.Edges(), jtag.deviceIndex, At().len, IrLength(jtag.devices, 0, jtag.deviceIndex);
        var e1 := BeforeIrData(e, jtag.current, IrLength(jtag.devices, k + 1, jtag.numDevices));
        var e2 := AfterData(e1, Some(code), read, len, post == 0);
        var c' := Run(chain, AfterIrData(e2, post, RunTestIdle));
        && |c'.devs| == |chain.devs| && post + len > 0
        && Shows(c', k, Seen(Given(At(), code), Now().log + Loads(At(), code), Now().irScans + 1))
        && (read ==> jtag.io.Samples(e2, |e1|, len) == StatusAt(chain.devs[k], Now().irScans))
    {
      hide Run, Interpret, SlotsFit, Settles, AfterData, AfterIrData, BeforeIrData, OthersBypass, IrLength,
        WellFormed, TargetOf,
        Pattern, StatusAt, SameDevices, SeenBy;
      Viewed();
      var k, c := jtag.deviceIndex, View();
      SameStatus(chain, c, k);
      Instructs(jtag.io, chain, jtag.Edges(), jtag.current.state, jtag.devices, jtag.numDevices, k, code, read);
      PatternNonempty(chain, k);
    }

    /** `shiftDR` of a whole scan, as clocks. */
    method WholeScan(tdi: Option<seq<byte>>, tdo: array?<byte>, len: nat)
      returns (ghost e1: seq<Edge>, ghost e2: seq<Edge>)
      requires jtag.Valid() && jtag.Agrees() && !jtag.shiftDRincomplete && jtag.postDR == RunTestIdle
      requires jtag.deviceIndex >= 0 && len + jtag.deviceIndex > 0 && (tdi.Some? ==> BytesFor(len) <= |tdi.value|)
      requires tdo != jtag.io.tmsBuf && tdo != jtag.io.usbuf && (tdo != null ==> BytesFor(len) <= tdo.Length)
      modifies jtag`current, jtag`shiftDRincomplete, jtag.io, jtag.io.usbuf, jtag.io.tmsBuf, tdo
      ensures jtag.Valid() && jtag.Agrees() && jtag.current == Known(RunTestIdle) && !jtag.shiftDRincomplete
      ensures e1 == BeforeDrData(old(jtag.Edges()), old(jtag.current), false, jtag.numDevices - jtag.deviceIndex - 1)
      ensures e2 == AfterData(e1, tdi, tdo != null, len, jtag.deviceIndex == 0)
      ensures jtag.Edges() == AfterDrData(e2, jtag.deviceIndex, RunTestIdle)
      ensures tdo != null ==> Overwritten(old(tdo[..]), tdo[..], 0, Pack(jtag.io.Samples(e2, |e1|, len)))
    {
      hide Interpret, SlotsFit, Tracks, AfterData, BeforeDrData, AfterDrData, AfterScan, RecordAfter, Pack, Overwritten;
      e1, e2 := jtag.ShiftDR(tdi, tdo, len, true);
      EndsScan(e2, jtag.deviceIndex, RunTestIdle);
    }

    /** `shiftDR` of a whole scan, seen from the device. */
    method Send(data: seq<byte>, len: nat)
      requires Ready() && BytesFor(len) <= |data| && len + jtag.deviceIndex > 0
      modifies jtag`current, jtag`shiftDRincomplete, jtag.io, jtag.io.usbuf, jtag.io.tmsBuf
      ensures Ready()
      ensures Now() == old(Now()).(log := old(Now()).log + Shown(At(), BitsOf(data, len)))
    {
      hide Run, Interpret, SlotsFit, Settles, AfterData, AfterDrData, BeforeDrData, OthersBypass;
      Viewed();
      ghost var e, k := jtag.Edges(), jtag.deviceIndex;
      ScanSends(chain, e, k, data, false, len);
      ghost var e1, e2 := WholeScan(Some(data), null, len);
    }

    /** `shiftDR` that only reads: what comes is the selected register when the length is its own. `held` are the bits
        that TDI shows meanwhile. */
    method Read(tdo: array<byte>, len: nat) returns (ghost held: seq<bool>)
      requires Ready() && len > 0 && BytesFor(len) <= tdo.Length && tdo != jtag.io.tmsBuf && tdo != jtag.io.usbuf
      modifies jtag`current, jtag`shiftDRincomplete, jtag.io, jtag.io.usbuf, jtag.io.tmsBuf, tdo
      ensures |held| == len
      ensures Ready() && Now() == old(Now()).(log := old(Now()).log + Shown(At(), held))
      ensures len == |old(Register())| ==> Overwritten(old(tdo[..]), tdo[..], 0, Pack(old(Register())))
    {
      hide Run, Interpret, SlotsFit, Settles, AfterData, AfterDrData, BeforeDrData, OthersBypass, Pack, Overwritten,
        Selected;
      Viewed();
      ghost var e, k := jtag.Edges(), jtag.deviceIndex;
      ghost var data := HeldData(BeforeDrData(e, Known(RunTestIdle), false, jtag.numDevices - k - 1), len, k == 0);
      ScanSends(chain, e, k, data, true, len);
      held := BitsOf(data, len);
      if len == |Selected(Run(chain, e).devs[k])| { ReadBack(jtag.io, chain, e, k, data, len); }
      ghost var e1, e2 := WholeScan(None, tdo, len);
    }

    /** `cycleTCK` in Run-Test/Idle. */
    method Idle(n: nat)
      requires Ready()
      modifies jtag.io, jtag.io.usbuf, jtag.io.tmsBuf
      ensures Ready() && Now() == old(Now()).(log := old(Now()).log + Ticks(n))
    {
      hide Run, Interpret, SlotsFit, Settles;
      Viewed();
      ghost var e := jtag.Edges();
      jtag.CycleTCK(n, true);
      LevelIsLow(e, RunTestIdle);
      ghost var held := ConstClocks(Level(e), true, n, false);
      RunConcat(chain, e, held);
      IdleRun(Run(chain, e), held);
    }

    /** Load a configuration into the selected device. Whatever the chain and the place of the
        device in it, `FlowLog` is all that the device sees. */
    method FlowProgramLegacy(data: seq<byte>, ghost file: seq<byte>)
      requires Standby() && data == AllReversed(file) && (file != [] || At().k > 0) && At().len <= 16
      modifies jtag`current, jtag`shiftDRincomplete, jtag.io, jtag.io.usbuf, jtag.io.tmsBuf
      ensures Ready()
      ensures Now() == Seen(Given(At(), [0xFF, 0xFF]),
        old(Now()).log + FlowLog(At(), IdleClocks(family), MsbFirst(file)), old(Now()).irScans + 4)
    {
      hide Run, Interpret, SlotsFit, Settles, OthersBypass, Describes, WellFormed, TargetOf, Now, AllReversed,
        MsbFirst, Given, Shown, Loads, Ticks, FlowLog, BitsOf;
      ghost var log := Now().log;
      Configure(data);
      ReversedBits(file);
      assert 8 * |data| == 8 * |file|;
      StartUp();
      FlowParts(At(), tckLen, MsbFirst(file), log);
    }

    /** The first half: shut down, select CFG_IN and send the configuration. */
    method Configure(data: seq<byte>)
      requires Standby() && (data != [] || At().k > 0) && At().len <= 16
      modifies jtag`current, jtag`shiftDRincomplete, jtag.io, jtag.io.usbuf, jtag.io.tmsBuf
      ensures Ready()
      ensures Now() == Seen(Given(At(), CFG_IN), old(Now()).log + Loads(At(), JSHUTDOWN) + Ticks(tckLen)
        + Loads(At(), CFG_IN) + Shown(At(), BitsOf(data, 8 * |data|)) + Ticks(1), old(Now()).irScans + 2)
    {
      hide Run, Interpret, SlotsFit, Settles, TapRun, BitsOf, Delivered, OthersBypass, Selected, Describes,
        WellFormed, TargetOf, Now, Loads, Shown, Ticks;
      Instruct(JSHUTDOWN, null);
      Idle(tckLen);
      Instruct(CFG_IN, null);
      Send(data, 8 * |data|);
      Idle(1);
    }

    /** The second half: start the device and leave it in BYPASS. */
    method StartUp()
      requires Ready() && At().len <= 16
      modifies jtag`current, jtag`shiftDRincomplete, jtag.io, jtag.io.usbuf, jtag.io.tmsBuf
      ensures Ready()
      ensures Now() == Seen(Given(At(), BYPASS), old(Now()).log + Loads(At(), JSTART) + Ticks(2 * tckLen)
        + Loads(At(), BYPASS) + Shown(At(), [false]) + Ticks(1), old(Now()).irScans + 2)
    {
      hide Run, Interpret, SlotsFit, Settles, TapRun, BitsOf, Delivered, OthersBypass, Selected, Describes,
        WellFormed, TargetOf, Now, Loads, Shown, Ticks;
      Instruct(JSTART, null);
      Idle(2 * tckLen);
      Instruct(BYPASS, null);
      Zeros(1);
      Send([0], 1);
      Idle(1);
    }

    // ----- programming with the checks around it

    /** Read the status bits while giving an instruction; `t` tells how many instructions were given before. */
    method Poll(code: seq<byte>, buf: array<byte>) returns (ghost t: nat)
      requires Standby() && At().len <= 8 && code != [] && buf.Length >= 1 && buf != jtag.io.tmsBuf
      requires buf != jtag.io.usbuf
      modifies jtag`current, jtag.io, jtag.io.usbuf, jtag.io.tmsBuf, buf
      ensures Ready() && t == old(Now()).irScans
      ensures Now() == Seen(Given(At(), code), old(Now()).log + Loads(At(), code), t + 1)
      ensures ShowsStatus(buf[0], t)
    {
      hide Run, Interpret, SlotsFit, Settles, TapRun, BitsOf, OthersBypass, Describes, WellFormed, TargetOf, Now,
        Pack, Overwritten, Given, Bit;
      t := Now().irScans;
      ghost var before := buf[..];
      LengthIs();
      Instruct(code, buf);
      LengthIs();
      StatusByte(StatusAt(chain.devs[jtag.deviceIndex], t), before, buf[..]);
      StatusMasks(buf[0]);
    }

    /** The byte is what the driver reads of the status: whether the configuration is cleared, and whether it is
        loaded. */
    ghost predicate ShowsStatus(b: byte, t: nat)
      requires 0 <= jtag.deviceIndex < |chain.devs|
      reads jtag`deviceIndex
    {
      (b & 0x10 != 0 <==> StatusBit(t, 4)) && (b & 0x23 == 0x21 <==> Configured(t))
    }

    lemma LengthIs()
      requires Standby()
      ensures 0 <= jtag.deviceIndex < |chain.devs| && 0 < At().len == chain.devs[jtag.deviceIndex].irLength
    {
      PatternNonempty(chain, jtag.deviceIndex);
    }

    /** The status says that the configuration is loaded and no error occurred. */
    ghost predicate Configured(t: nat)
      requires 0 <= jtag.deviceIndex < |chain.devs|
      reads jtag`deviceIndex
    {
      StatusBit(t, 0) && !StatusBit(t, 1) && StatusBit(t, 5)
    }

    /** The first status from `start` on that says that the configuration is cleared. */
    ghost predicate ClearedAt(start: nat, t: nat)
      requires 0 <= jtag.deviceIndex < |chain.devs|
      reads jtag`deviceIndex
    {
      start <= t && StatusBit(t, 4) && forall u: nat :: start <= u < t ==> !StatusBit(u, 4)
    }

    /** How many statuses are read at the end: none when the device was configured already when it had cleared its
        configuration, else up to the first that says that it is, or fifty. */
    ghost predicate ReadAtEnd(before: nat, first: nat, polls: nat)
      requires 0 <= jtag.deviceIndex < |chain.devs|
      reads jtag`deviceIndex
    {
      && polls <= 50 && (polls == 0 <==> Configured(before))
      && (forall t: nat :: first <= t < first + polls - 1 ==> !Configured(t))
      && (0 < polls < 50 ==> Configured(first + polls - 1))
    }

    /** When programming succeeds: the device was configured already when it had cleared its configuration, or it is in
        one of the first 49 of the 50 statuses that are read at the end. */
    ghost predicate Succeeds(cleared: nat)
      requires 0 <= jtag.deviceIndex < |chain.devs|
      reads jtag`deviceIndex
    {
      var first := AtEnd(cleared + 1, family);
      Configured(cleared) || exists t: nat :: first <= t < first + 49 && Configured(t)
    }

    lemma FoundInTime(cleared: nat, polls: nat)
      requires 0 <= jtag.deviceIndex < |chain.devs|
      requires ReadAtEnd(cleared, AtEnd(cleared + 1, family), polls)
      ensures polls < 50 <==> Succeeds(cleared)
    {
      hide Configured, StatusBit;
    }

    method FlowEnable()
      requires Standby() && At().len <= 16
      modifies jtag`current, jtag`shiftDRincomplete, jtag.io, jtag.io.usbuf, jtag.io.tmsBuf
      ensures Ready()
      ensures Now() == Seen(Given(At(), ISC_ENABLE),
        old(Now()).log + Loads(At(), ISC_ENABLE) + Shown(At(), Repeat(false, 5)) + Ticks(tckLen),
        old(Now()).irScans + 1)
    {
      hide Run, Interpret, SlotsFit, Settles, TapRun, BitsOf, Delivered, OthersBypass, Selected, Describes,
        WellFormed, TargetOf, Now, Loads, Shown, Ticks;
      Instruct(ISC_ENABLE, null);
      Zeros(5);
      Send([0], 5);
      Idle(tckLen);
    }

    method FlowDisable()
      requires Standby() && At().len <= 16
      modifies jtag`current, jtag`shiftDRincomplete, jtag.io, jtag.io.usbuf, jtag.io.tmsBuf
      ensures Ready()
      ensures Now() == Seen(Given(At(), BYPASS), old(Now()).log + Loads(At(), ISC_DISABLE) + Ticks(tckLen)
        + Loads(At(), BYPASS) + Shown(At(), [false]) + Ticks(1), old(Now()).irScans + 2)
    {
      hide Run, Interpret, SlotsFit, Settles, TapRun, BitsOf, Delivered, OthersBypass, Selected, Describes,
        WellFormed, TargetOf, Now, Loads, Shown, Ticks;
      Instruct(ISC_DISABLE, null);
      Idle(tckLen);
      Instruct(BYPASS, null);
      Zeros(1);
      Send([0], 1);
      Idle(1);
    }

    /** Wait until the device has cleared its configuration, which it does after `until` instructions at the latest. */
    method WaitCleared(buf: array<byte>, ghost until: nat) returns (ghost cleared: nat)
      requires Standby() && At().len <= 8 && buf.Length >= 1 && buf != jtag.io.tmsBuf && buf != jtag.io.usbuf
      requires Now().irScans <= until && StatusBit(until, 4)
      modifies jtag`current, jtag.io, jtag.io.usbuf, jtag.io.tmsBuf, buf
      ensures Ready() && ShowsStatus(buf[0], cleared)
      ensures old(Now()).irScans <= cleared && ClearedAt(old(Now()).irScans, cleared)
      ensures Now() == Seen(Given(At(), [0xC5, 0xFF]),
        old(Now()).log + Polls(At(), [0xC5, 0xFF], cleared + 1 - old(Now()).irScans), cleared + 1)
    {
      hide Run, Interpret, SlotsFit, Settles, TapRun, BitsOf, OthersBypass, WellFormed, TargetOf, Now, Given,
        StatusBit, Configured, Loads, Polls;
      ghost var start, log := Now().irScans, Now().log;
      cleared := Poll(CFG_IN, buf);
      OnePoll(At(), CFG_IN);
      while buf[0] & 0x10 == 0
        invariant Ready() && ShowsStatus(buf[0], cleared)
        invariant start <= cleared <= until
        invariant Now() == Seen(Given(At(), CFG_IN), log + Polls(At(), CFG_IN, cleared + 1 - start), cleared + 1)
        invariant forall t: nat :: start <= t < cleared ==> !StatusBit(t, 4)
        decreases until - cleared
      {
        AnotherPoll(log, At(), CFG_IN, cleared + 1 - start);
        cleared := Poll(CFG_IN, buf);
      }
    }

    /** Read the identifier of a device that has one. It is read and not used; `held` is what the device sees
        meanwhile. */
    method ReadDna() returns (ghost held: seq<bool>)
      requires Standby() && At().len <= 8
      modifies jtag`current, jtag`shiftDRincomplete, jtag.io, jtag.io.usbuf, jtag.io.tmsBuf
      ensures Ready() && |held| == 64
      ensures Now() == Seen(Given(At(), ISC_DNA), old(Now()).log + DnaLog(At(), held), old(Now()).irScans + 2)
    {
      hide Run, Interpret, SlotsFit, Settles, TapRun, BitsOf, OthersBypass, WellFormed, TargetOf, Now, Given, Loads,
        Shown, Ticks, DnaLog;
      ghost var log := Now().log;
      var data := new byte[8];
      Instruct(ISC_ENABLE, null);
      Instruct(ISC_DNA, null);
      held := Read(data, 64);
      Idle(1);
      DnaParts(At(), held, log);
    }

    /** Wait until the device reports that it is configured. `buf` already holds the status `before`. A report on the
        fiftieth attempt comes too late: the driver then has already given up. */
    method WaitConfigured(buf: array<byte>, ghost before: nat) returns (ok: bool, ghost polls: nat)
      requires Standby() && At().len <= 8 && buf.Length >= 1 && buf != jtag.io.tmsBuf && buf != jtag.io.usbuf
      requires Ready() && ShowsStatus(buf[0], before) && Now().inst == Given(At(), BYPASS)
      modifies jtag`current, jtag.io, jtag.io.usbuf, jtag.io.tmsBuf, buf
      ensures Ready() && ReadAtEnd(before, old(Now()).irScans, polls) && (ok <==> polls < 50)
      ensures Now() == Seen(Given(At(), [0xFF, 0xFF]), old(Now()).log + Polls(At(), [0xFF, 0xFF], polls),
        old(Now()).irScans + polls)
    {
      hide Run, Interpret, SlotsFit, Settles, TapRun, BitsOf, OthersBypass, WellFormed, TargetOf, Now, Given,
        StatusBit, Configured, Loads, Polls;
      ghost var first, log, last := Now().irScans, Now().log, before;
      var i := 0;
      NoPoll(log, At(), BYPASS);
      while buf[0] & 0x23 != 0x21 && i < 50
        invariant i <= 50 && Ready() && ShowsStatus(buf[0], last)
        invariant Now() == Seen(Given(At(), BYPASS), log + Polls(At(), BYPASS, i), first + i)
        invariant i == 0 ==> last == before
        invariant i > 0 ==> last == first + i - 1 && !Configured(before)
        invariant forall t: nat :: first <= t < first + i - 1 ==> !Configured(t)
        decreases 50 - i
      {
        AnotherPoll(log, At(), BYPASS, i);
        last := Poll(BYPASS, buf);
        i := i + 1;
      }
      polls := i;
      ok := i != 50;
    }

    /** Program the device: the whole algorithm but for the old families. `ArrayLog` is all that the device sees. */
    method ArrayProgram(data: seq<byte>, ghost file: seq<byte>, ghost until: nat)
      returns (ok: bool, ghost cleared: nat, ghost held: seq<bool>, ghost polls: nat)
      requires Standby() && data == AllReversed(file) && (file != [] || At().k > 0) && At().len <= 8
      requires Now().irScans + 2 <= until && StatusBit(until, 4)
      modifies jtag`current, jtag`shiftDRincomplete, jtag.io, jtag.io.usbuf, jtag.io.tmsBuf
      ensures Ready() && |held| == 64 && Now().inst == Given(At(), [0xFF, 0xFF])
      ensures old(Now()).irScans + 2 <= cleared && ClearedAt(old(Now()).irScans + 2, cleared)
      ensures Now().log == old(Now()).log
        + ArrayLog(At(), family, held, MsbFirst(file), cleared - old(Now()).irScans - 1, polls)
      ensures ReadAtEnd(cleared, AtEnd(cleared + 1, family), polls) && (ok <==> Succeeds(cleared))
    {
      hide Run, Interpret, SlotsFit, Settles, TapRun, BitsOf, OthersBypass, WellFormed, TargetOf, Now, Given,
        StatusBit, Configured, ArrayLog, LoadLog, EraseLog, Polls, MsbFirst, AllReversed, ShowsStatus, Succeeds,
        ReadAtEnd, ClearedAt;
      var buf := new byte[1];
      ghost var log := Now().log;
      cleared := Clear(buf, until);
      held := LoadFile(data, file);
      ok, polls := WaitConfigured(buf, cleared);
      FoundInTime(cleared, polls);
      ArrayParts(At(), family, held, MsbFirst(file), cleared - old(Now()).irScans - 1, polls, log);
    }

    /** Erase the device and wait until that is done. */
    method Clear(buf: array<byte>, ghost until: nat) returns (ghost cleared: nat)
      requires Standby() && At().len <= 8 && buf.Length >= 1 && buf != jtag.io.tmsBuf && buf != jtag.io.usbuf
      requires Now().irScans + 2 <= until && StatusBit(until, 4)
      modifies jtag`current, jtag`shiftDRincomplete, jtag.io, jtag.io.usbuf, jtag.io.tmsBuf, buf
      ensures Ready() && ShowsStatus(buf[0], cleared) && Now().irScans == cleared + 1
      ensures old(Now()).irScans + 2 <= cleared && ClearedAt(old(Now()).irScans + 2, cleared)
      ensures Now().log == old(Now()).log + EraseLog(At(), IdleClocks(family))
        + Polls(At(), [0xC5, 0xFF], cleared - old(Now()).irScans - 1)
    {
      hide Run, Interpret, SlotsFit, Settles, TapRun, BitsOf, OthersBypass, WellFormed, TargetOf, Now, Given,
        StatusBit, Configured, EraseLog, Polls, ShowsStatus, ClearedAt;
      Erase();
      cleared := WaitCleared(buf, until);
    }

    method Erase()
      requires Standby() && At().len <= 8
      modifies jtag`current, jtag`shiftDRincomplete, jtag.io, jtag.io.usbuf, jtag.io.tmsBuf
      ensures Ready()
      ensures Now() == Seen(Given(At(), JPROGRAM), old(Now()).log + EraseLog(At(), IdleClocks(family)),
        old(Now()).irScans + 2)
    {
      hide Run, Interpret, SlotsFit, Settles, TapRun, BitsOf, OthersBypass, WellFormed, TargetOf, Now, Given, Loads,
        Shown, Ticks, EraseLog;
      ghost var log := Now().log;
      FlowEnable();
      Instruct(JPROGRAM, null);
      EraseParts(At(), tckLen, log);
    }

    /** The part between the two waits. */
    method LoadFile(data: seq<byte>, ghost file: seq<byte>) returns (ghost held: seq<bool>)
      requires Standby() && data == AllReversed(file) && (file != [] || At().k > 0) && At().len <= 8
      modifies jtag`current, jtag`shiftDRincomplete, jtag.io, jtag.io.usbuf, jtag.io.tmsBuf
      ensures Ready() && |held| == 64
      ensures Now() == Seen(Given(At(), [0xFF, 0xFF]), old(Now()).log + LoadLog(At(), family, held, MsbFirst(file)),
        AtEnd(old(Now()).irScans, family))
    {
      hide Run, Interpret, SlotsFit, Settles, TapRun, BitsOf, OthersBypass, WellFormed, TargetOf, Now, Given,
        StatusBit, Configured, Loads, Shown, Ticks, MsbFirst, AllReversed, ShowsStatus, DnaLog, FlowLog, LoadLog;
      ghost var log := Now().log;
      held := seq(64, i => true);
      if HasDna(family) {
        held := ReadDna();
      }
      FlowProgramLegacy(data, file);
      FlowDisable();
      LoadParts(At(), family, held, MsbFirst(file), log);
    }
  }

  // ----- what the algorithm shows to a device

  /** The number of clocks in Run-Test/Idle that a family needs. */
  function IdleClocks(f: Family): nat {
    match f
    case XC6S | OtherFamily => 12
    case XC3SE | XC3SA | XC3SAN | XC3SD => 16
  }

  /** JSHUTDOWN, CFG_IN with the file, JSTART, BYPASS. */
  function FlowLog(p: Place, t: nat, file: seq<bool>): seq<Event>
    requires Inside(p) && p.len <= 16
  {
    Loads(p, [0xCD, 0xFF]) + Ticks(t) + Loads(p, [0xC5, 0xFF]) + Shown(p, file) + Ticks(1) + StartLog(p, t)
  }

  function StartLog(p: Place, t: nat): seq<Event>
    requires Inside(p) && p.len <= 16
  {
    Loads(p, [0xCC, 0xFF]) + Ticks(2 * t) + Loads(p, [0xFF, 0xFF]) + Shown(p, [false]) + Ticks(1)
  }

  lemma FlowParts(p: Place, t: nat, file: seq<bool>, log: seq<Event>)
    requires Inside(p) && p.len <= 16
    ensures log + Loads(p, [0xCD, 0xFF]) + Ticks(t) + Loads(p, [0xC5, 0xFF]) + Shown(p, file) + Ticks(1)
      + Loads(p, [0xCC, 0xFF]) + Ticks(2 * t) + Loads(p, [0xFF, 0xFF]) + Shown(p, [false]) + Ticks(1)
      == log + FlowLog(p, t, file)
  {
    hide Loads, Shown, Ticks;
  }

  /** ISC_ENABLE with a scan of five zeros, JPROGRAM. */
  function EraseLog(p: Place, t: nat): seq<Event>
    requires Inside(p) && p.len <= 8
  {
    Loads(p, [0xD0, 0xFF]) + Shown(p, Repeat(false, 5)) + Ticks(t) + Loads(p, [0xCB, 0xFF])
  }

  lemma EraseParts(p: Place, t: nat, log: seq<Event>)
    requires Inside(p) && p.len <= 8
    ensures log + Loads(p, [0xD0, 0xFF]) + Shown(p, Repeat(false, 5)) + Ticks(t) + Loads(p, [0xCB, 0xFF])
      == log + EraseLog(p, t)
  {
    hide Loads, Shown, Ticks;
  }

  /** ISC_ENABLE, ISC_DNA with a scan that reads the identifier. */
  function DnaLog(p: Place, held: seq<bool>): seq<Event>
    requires Inside(p) && p.len <= 8
  {
    Loads(p, [0xD0, 0xFF]) + Loads(p, [0x31]) + Shown(p, held) + Ticks(1)
  }

  lemma DnaParts(p: Place, held: seq<bool>, log: seq<Event>)
    requires Inside(p) && p.len <= 8
    ensures log + Loads(p, [0xD0, 0xFF]) + Loads(p, [0x31]) + Shown(p, held) + Ticks(1) == log + DnaLog(p, held)
  {
    hide Loads, Shown, Ticks;
  }

  /** The identifier of the families that have one, the file, and ISC_DISABLE and BYPASS. */
  function LoadLog(p: Place, f: Family, held: seq<bool>, file: seq<bool>): seq<Event>
    requires Inside(p) && p.len <= 8
  {
    (if f == XC3SE || f == OtherFamily then [] else DnaLog(p, held)) + FlowLog(p, IdleClocks(f), file)
      + DisableLog(p, IdleClocks(f))
  }

  function DisableLog(p: Place, t: nat): seq<Event>
    requires Inside(p) && p.len <= 16
  {
    Loads(p, [0xD6, 0xFF]) + Ticks(t) + Loads(p, [0xFF, 0xFF]) + Shown(p, [false]) + Ticks(1)
  }

  lemma LoadParts(p: Place, f: Family, held: seq<bool>, file: seq<bool>, log: seq<Event>)
    requires Inside(p) && p.len <= 8
    ensures
      var t := IdleClocks(f);
      var log' := (if HasDna(f) then log + DnaLog(p, held) else log) + FlowLog(p, t, file);
      log' + Loads(p, [0xD6, 0xFF]) + Ticks(t) + Loads(p, [0xFF, 0xFF]) + Shown(p, [false]) + Ticks(1)
        == log + LoadLog(p, f, held, file)
  {
    hide Loads, Shown, Ticks, DnaLog, FlowLog;
  }

  /** The same instruction, given to read the status. */
  function Polls(p: Place, code: seq<byte>, n: nat): seq<Event>
    requires p.len <= 8 * |code|
  {
    Repeat(Load(BitsOf(code, p.len)), n)
  }

  lemma OnePoll(p: Place, code: seq<byte>)
    requires p.len <= 8 * |code|
    ensures Polls(p, code, 1) == Loads(p, code)
  {
  }

  lemma AnotherPoll(log: seq<Event>, p: Place, code: seq<byte>, n: nat)
    requires p.len <= 8 * |code|
    ensures log + Polls(p, code, n) + Loads(p, code) == log + Polls(p, code, n + 1)
  {
  }

  lemma NoPoll(log: seq<Event>, p: Place, code: seq<byte>)
    requires p.len <= 8 * |code|
    ensures log + Polls(p, code, 0) == log
  {
  }

  /** The whole algorithm: erase, poll CFG_IN `a` times until that is done, load, poll BYPASS `b` times. */
  function ArrayLog(p: Place, f: Family, held: seq<bool>, file: seq<bool>, a: nat, b: nat): seq<Event>
    requires Inside(p) && p.len <= 8
  {
    EraseLog(p, IdleClocks(f)) + Polls(p, [0xC5, 0xFF], a) + LoadLog(p, f, held, file) + Polls(p, [0xFF, 0xFF], b)
  }

  lemma ArrayParts(p: Place, f: Family, held: seq<bool>, file: seq<bool>, a: nat, b: nat, log: seq<Event>)
    requires Inside(p) && p.len <= 8
    ensures log + EraseLog(p, IdleClocks(f)) + Polls(p, [0xC5, 0xFF], a) + LoadLog(p, f, held, file)
      + Polls(p, [0xFF, 0xFF], b) == log + ArrayLog(p, f, held, file, a, b)
  {
    hide EraseLog, Polls, LoadLog;
  }

  // ----- what follows the file

  /** Up to CFG_IN. */
  function BeforeFile(p: Place, f: Family, held: seq<bool>, a: nat): seq<Event>
    requires Inside(p) && p.len <= 8
  {
    EraseLog(p, IdleClocks(f)) + Polls(p, [0xC5, 0xFF], a)
      + (if f == XC3SE || f == OtherFamily then [] else DnaLog(p, held))
      + Loads(p, [0xCD, 0xFF]) + Ticks(IdleClocks(f)) + Loads(p, [0xC5, 0xFF])
  }

  /** Behind the file's scan. */
  function AfterFile(p: Place, f: Family, b: nat): seq<Event>
    requires Inside(p) && p.len <= 8
  {
    Ticks(1) + StartLog(p, IdleClocks(f)) + DisableLog(p, IdleClocks(f)) + Polls(p, [0xFF, 0xFF], b)
  }

  predicate Contains(log: seq<Event>, ir: seq<bool>) { Load(ir) in log }

  /** The file's scan follows CFG_IN, the start-up follows the scan with at least twice the idle clocks of the family,
      and no device with an instruction register of three bits or more is told to erase itself again behind the scan;
      shorter ones cannot tell JPROGRAM from BYPASS. */
  lemma StartedAndKept(p: Place, f: Family, held: seq<bool>, file: seq<bool>, a: nat, b: nat)
    requires Inside(p) && 0 < p.len <= 8
    ensures ArrayLog(p, f, held, file, a, b) == BeforeFile(p, f, held, a) + Shown(p, file) + AfterFile(p, f, b)
    ensures
      var t := if f == XC6S || f == OtherFamily then 24 else 32;
      [Tick, Load(BitsOf([0xCC, 0xFF], p.len))] + Repeat(Tick, t) <= AfterFile(p, f, b)
    ensures Contains(AfterFile(p, f, b), BitsOf([0xCB, 0xFF], p.len)) <==> p.len < 3
  {
    FileWithin(p, f, held, file, a, b);
    AfterStarts(p, f, b);
    CodesDiffer(p.len);
    hide BitsOf;
    LoadsIn(p, f, b, BitsOf([0xCB, 0xFF], p.len));
  }

  lemma FileWithin(p: Place, f: Family, held: seq<bool>, file: seq<bool>, a: nat, b: nat)
    requires Inside(p) && p.len <= 8
    ensures ArrayLog(p, f, held, file, a, b) == BeforeFile(p, f, held, a) + Shown(p, file) + AfterFile(p, f, b)
  {
    hide EraseLog, Polls, DnaLog, Loads, Ticks, Shown, StartLog, DisableLog;
  }

  lemma AfterStarts(p: Place, f: Family, b: nat)
    requires Inside(p) && p.len <= 8
    ensures
      var t := IdleClocks(f);
      [Tick, Load(BitsOf([0xCC, 0xFF], p.len))] + Repeat(Tick, 2 * t) <= AfterFile(p, f, b)
  {
    hide BitsOf, Polls, DisableLog, Shown;
    assert Ticks(1) + Loads(p, [0xCC, 0xFF]) == [Tick, Load(BitsOf([0xCC, 0xFF], p.len))];
  }

  lemma LoadsIn(p: Place, f: Family, b: nat, ir: seq<bool>)
    requires Inside(p) && p.len <= 8
    ensures Contains(AfterFile(p, f, b), ir) <==>
      ir in {BitsOf([0xCC, 0xFF], p.len), BitsOf([0xFF, 0xFF], p.len), BitsOf([0xD6, 0xFF], p.len)}
  {
    hide BitsOf;
    var t := IdleClocks(f);
    assert Load(ir) !in Ticks(1) && Load(ir) !in Ticks(t) && Load(ir) !in Ticks(2 * t);
    assert Load(ir) !in Shown(p, [false]);
    hide Ticks, Shown;
    assert Load(ir) in Polls(p, [0xFF, 0xFF], b) ==> ir == BitsOf([0xFF, 0xFF], p.len);
  }

  lemma CodesDiffer(n: nat)
    requires 0 < n <= 8
    ensures BitsOf([0xCB, 0xFF], n) != BitsOf([0xCC, 0xFF], n) && BitsOf([0xCB, 0xFF], n) != BitsOf([0xD6, 0xFF], n)
    ensures BitsOf([0xCB, 0xFF], n) == BitsOf([0xFF, 0xFF], n) <==> n < 3
  {
    var a, b := BitsOf([0xCB, 0xFF], n), BitsOf([0xCC, 0xFF], n);
    var c, d := BitsOf([0xD6, 0xFF], n), BitsOf([0xFF, 0xFF], n);
    assert a[0] && !b[0] && !c[0];
    if n < 3 {
      assert a == d;
    } else {
      assert !a[2] && d[2];
    }
  }

  /** The number of instructions given before the last statuses are read, when there were `n` before the file. */
  function AtEnd(n: nat, f: Family): nat { n + if f == XC3SE || f == OtherFamily then 6 else 8 }

  lemma Zeros(n: nat)
    requires n <= 8
    ensures BitsOf([0], n) == Repeat(false, n) && Repeat(false, 1) == [false]
  {
  }
}
