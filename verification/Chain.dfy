/** A chain of boundary-scan devices in the sense of IEEE Std 1149.1: the target at the other end of the cable.

    Device 0 is the one next to TDI. Every register is written with the bit next to TDO first, so one shift clock
    drops the first bit and appends the bit that comes in. */
module Chain {
  import opened Bits
  import opened Tap

  // ----- shift registers in series

  /** One shift clock: every register takes in the bit its neighbour puts out. */
  function ShiftAll(regs: seq<seq<bool>>, b: bool): (r: seq<seq<bool>>)
    requires forall k :: 0 <= k < |regs| ==> regs[k] != []
    ensures |r| == |regs| && forall k :: 0 <= k < |r| ==> |r[k]| == |regs[k]|
  {
    seq(|regs|, k requires 0 <= k < |regs| => regs[k][1..] + [if k == 0 then b else regs[k - 1][0]])
  }

  /** The bits of registers `0..k`, in the order in which they come out behind register `k - 1`. */
  function Flat(regs: seq<seq<bool>>, k: nat): seq<bool>
    requires k <= |regs|
  {
    if k == 0 then [] else regs[k - 1] + Flat(regs, k - 1)
  }

  /** `n` shift clocks, one for each of the bits. */
  function ShiftMany(regs: seq<seq<bool>>, bits: seq<bool>): (r: seq<seq<bool>>)
    requires forall k :: 0 <= k < |regs| ==> regs[k] != []
    ensures |r| == |regs| && forall k :: 0 <= k < |r| ==> |r[k]| == |regs[k]|
  {
    if bits == [] then regs else ShiftAll(ShiftMany(regs, bits[..|bits| - 1]), bits[|bits| - 1])
  }

  /** The stream that runs into register `k` and out of the registers before it. */
  function Stream(regs: seq<seq<bool>>, bits: seq<bool>, k: nat): (r: seq<bool>)
    requires k <= |regs|
    ensures |r| == |Flat(regs, k)| + |bits|
  {
    Flat(regs, k) + bits
  }

  lemma StreamGrows(regs: seq<seq<bool>>, bits: seq<bool>, b: bool, k: nat)
    requires k <= |regs|
    ensures Stream(regs, bits + [b], k) == Stream(regs, bits, k) + [b]
  {
  }

  lemma StreamBehind(regs: seq<seq<bool>>, bits: seq<bool>, k: nat)
    requires k < |regs|
    ensures Stream(regs, bits, k + 1) == regs[k] + Stream(regs, bits, k)
  {
  }

  lemma StreamOfNone(regs: seq<seq<bool>>, bits: seq<bool>)
    ensures Stream(regs, bits, 0) == bits
  {
  }

  /** After some shift clocks a register holds the next bits of the stream that runs into it: its own old bits, then
      those of the registers before it, then the bits shifted in. */
  lemma {:induction false} ShiftedRegister(regs: seq<seq<bool>>, bits: seq<bool>, k: nat)
    requires forall j :: 0 <= j < |regs| ==> regs[j] != []
    requires k < |regs|
    ensures |Stream(regs, bits, k + 1)| >= |bits| + |regs[k]|
    ensures ShiftMany(regs, bits)[k] == Stream(regs, bits, k + 1)[|bits|..|bits| + |regs[k]|]
    decreases bits
  {
    hide Stream, Flat;
    StreamBehind(regs, bits, k);
    if bits == [] {
      assert Stream(regs, bits, k + 1)[..|regs[k]|] == regs[k];
    } else {
      ShiftedRegister(regs, bits[..|bits| - 1], k);
      ShiftedOnce(regs, bits, k);
    }
  }

  lemma ShiftedOnce(regs: seq<seq<bool>>, bits: seq<bool>, k: nat)
    requires forall j :: 0 <= j < |regs| ==> regs[j] != []
    requires k < |regs| && bits != []
    requires
      var n := |bits| - 1;
      var s := Stream(regs, bits[..n], k + 1);
      |s| >= n + |regs[k]| && ShiftMany(regs, bits[..n])[k] == s[n..n + |regs[k]|]
    ensures |Stream(regs, bits, k + 1)| >= |bits| + |regs[k]|
    ensures ShiftMany(regs, bits)[k] == Stream(regs, bits, k + 1)[|bits|..|bits| + |regs[k]|]
    decreases bits, 1
  {
    hide Stream, Flat, ShiftMany;
    var n := |bits| - 1;
    assert bits == bits[..n] + [bits[n]];
    StreamGrows(regs, bits[..n], bits[n], k + 1);
    ShiftedIn(regs, bits, k);
    ShiftManyStep(regs, bits, k);
    var s := Stream(regs, bits[..n], k + 1);
    var older := ShiftMany(regs, bits[..n]);
    Slide(s, bits[n], n, |regs[k]|, if k == 0 then bits[n] else older[k - 1][0]);
  }

  lemma Slide(s: seq<bool>, b: bool, n: nat, len: nat, next: bool)
    requires 0 < len && n + len <= |s| && next == (s + [b])[n + len]
    ensures s[n..n + len][1..] + [next] == (s + [b])[n + 1..n + 1 + len]
  {
  }

  lemma ShiftManyStep(regs: seq<seq<bool>>, bits: seq<bool>, k: nat)
    requires forall j :: 0 <= j < |regs| ==> regs[j] != []
    requires k < |regs| && bits != []
    ensures
      var older := ShiftMany(regs, bits[..|bits| - 1]);
      ShiftMany(regs, bits)[k] == older[k][1..] + [if k == 0 then bits[|bits| - 1] else older[k - 1][0]]
  {
    hide *;
    ShiftManyUnfold(regs, bits);
    ShiftAllAt(ShiftMany(regs, bits[..|bits| - 1]), bits[|bits| - 1], k);
  }

  lemma ShiftManyUnfold(regs: seq<seq<bool>>, bits: seq<bool>)
    requires forall j :: 0 <= j < |regs| ==> regs[j] != []
    requires bits != []
    ensures ShiftMany(regs, bits) == ShiftAll(ShiftMany(regs, bits[..|bits| - 1]), bits[|bits| - 1])
  {
    hide ShiftAll;
  }

  lemma ShiftAllAt(regs: seq<seq<bool>>, b: bool, k: nat)
    requires forall j :: 0 <= j < |regs| ==> regs[j] != []
    requires k < |regs|
    ensures ShiftAll(regs, b)[k] == regs[k][1..] + [if k == 0 then b else regs[k - 1][0]]
  {
  }

  lemma SameSlice(s: seq<bool>, b: bool, lo: nat, hi: nat)
    requires lo <= hi <= |s|
    ensures s[lo..hi] == (s + [b])[lo..hi]
  {
  }

  /** The bit that enters register `k` on the last of these clocks. */
  lemma {:induction false} ShiftedIn(regs: seq<seq<bool>>, bits: seq<bool>, k: nat)
    requires forall j :: 0 <= j < |regs| ==> regs[j] != []
    requires k < |regs| && bits != []
    ensures
      var n := |bits| - 1;
      var s := Stream(regs, bits, k + 1);
      && n + |regs[k]| < |s| && n < |Stream(regs, bits, k)|
      && (if k == 0 then bits[n] else ShiftMany(regs, bits[..n])[k - 1][0]) == s[n + |regs[k]|]
        == Stream(regs, bits, k)[n]
    decreases bits, 0
  {
    hide Stream, Flat, ShiftMany;
    var n := |bits| - 1;
    StreamBehind(regs, bits, k);
    if k == 0 {
      StreamOfNone(regs, bits);
    } else {
      ShiftedRegister(regs, bits[..n], k - 1);
      assert bits == bits[..n] + [bits[n]];
      StreamGrows(regs, bits[..n], bits[n], k);
    }
  }

  /** The bit in front of the register behind device `k - 1` after some shift clocks. */
  lemma ShiftedOut(regs: seq<seq<bool>>, bits: seq<bool>, k: nat)
    requires forall j :: 0 <= j < |regs| ==> regs[j] != []
    requires 0 < k <= |regs|
    ensures |bits| < |Stream(regs, bits, k)| && ShiftMany(regs, bits)[k - 1][0] == Stream(regs, bits, k)[|bits|]
  {
    ShiftedRegister(regs, bits, k - 1);
  }

  // ----- devices

  /** The instruction of a device: reset selects its identification register. */
  datatype Instruction = AfterReset | Loaded(bits: seq<bool>)

  /** What a device sees, in order: resets, the instructions it loads, DR scans, of which it sees the bits clocked in
      between Capture-DR and Update-DR, and the clocks that keep it in Run-Test/Idle. */
  datatype Event = Reset | Load(ir: seq<bool>) | Scan(bits: seq<bool>) | Tick

  datatype Device = Device(
    irLength: nat,
    status: (nat, nat) -> bool,           // bit by bit, what Capture-IR loads after so many instructions
    irScans: nat,                         // instructions loaded so far
    idcode: seq<bool>,                    // the register that reset selects
    regs: map<seq<bool>, seq<bool>>,      // data registers by instruction; all others select BYPASS
    inst: Instruction,
    log: seq<Event>)                      // all that it has seen so far

  /** The pattern that Capture-IR loads; which one it is may change from one scan to the next. */
  function Pattern(d: Device): (r: seq<bool>)
    ensures |r| == d.irLength
  {
    StatusAt(d, d.irScans)
  }

  function StatusAt(d: Device, n: nat): (r: seq<bool>)
    ensures |r| == d.irLength && forall i :: 0 <= i < |r| ==> r[i] == d.status(n, i)
  {
    seq(d.irLength, i requires 0 <= i < d.irLength => d.status(n, i))
  }

  /** Update-IR. */
  function Instructed(d: Device, ir: seq<bool>): Device {
    d.(inst := Loaded(ir), irScans := d.irScans + 1, log := d.log + [Load(ir)])
  }

  predicate AllOnes(s: seq<bool>) {
    forall i :: 0 <= i < |s| ==> s[i]
  }

  /** The value Capture-DR loads into the selected data register; BYPASS is one bit and captures a zero. */
  function Selected(d: Device): seq<bool> {
    match d.inst
    case AfterReset => d.idcode
    case Loaded(bits) => if !AllOnes(bits) && bits in d.regs then d.regs[bits] else [false]
  }

  function Updated(d: Device, dr: seq<bool>, got: seq<bool>): Device {
    var regs := match d.inst
      case AfterReset => d.regs
      case Loaded(bits) => if !AllOnes(bits) && bits in d.regs then d.regs[bits := dr] else d.regs;
    d.(regs := regs, log := d.log + [Scan(got)])
  }

  function Ticked(d: Device): Device { d.(log := d.log + [Tick]) }

  /** The controllers of all devices follow the same TMS and so are in one state. */
  datatype Chain = Chain(state: TapState, devs: seq<Device>, ir: seq<seq<bool>>, dr: seq<seq<bool>>,
    got: seq<seq<bool>>)

  predicate WellFormed(c: Chain) {
    && |c.ir| == |c.dr| == |c.got| == |c.devs|
    && forall k :: 0 <= k < |c.devs| ==>
         && c.ir[k] != [] && |c.ir[k]| == c.devs[k].irLength
         && c.dr[k] != [] && c.devs[k].idcode != []
         && forall i :: i in c.devs[k].regs ==> c.devs[k].regs[i] != []
  }

  /** What the clock does in the state it finds. */
  function Act(c: Chain, tdi: bool): (r: Chain)
    requires WellFormed(c)
    ensures WellFormed(r)
  {
    var n := |c.devs|;
    match c.state
    case Dr(Capture) =>
      c.(dr := seq(n, k requires 0 <= k < n => Selected(c.devs[k])), got := Repeat([], n))
    case Dr(Shift) =>
      c.(dr := ShiftAll(c.dr, tdi),
         got := seq(n, k requires 0 <= k < n => c.got[k] + [if k == 0 then tdi else c.dr[k - 1][0]]))
    case Ir(Capture) => c.(ir := seq(n, k requires 0 <= k < n => Pattern(c.devs[k])))
    case Ir(Shift) => c.(ir := ShiftAll(c.ir, tdi))
    case _ => c
  }

  /** What entering a state does (updates happen on the falling edge that follows). */
  function Enter(c: Chain, s: TapState): (r: Chain)
    requires WellFormed(c)
    ensures WellFormed(r)
  {
    var n := |c.devs|;
    var idle := c.state == RunTestIdle;
    var c := c.(state := s);
    match s
    case RunTestIdle =>
      if idle then c.(devs := seq(n, k requires 0 <= k < n => Ticked(c.devs[k]))) else c
    case Dr(Update) => c.(devs := seq(n, k requires 0 <= k < n => Updated(c.devs[k], c.dr[k], c.got[k])))
    case Ir(Update) => c.(devs := seq(n, k requires 0 <= k < n => Instructed(c.devs[k], c.ir[k])))
    case TestLogicReset =>
      c.(devs := seq(n, k requires 0 <= k < n => c.devs[k].(inst := AfterReset, log := c.devs[k].log + [Reset])))
    case _ => c
  }

  function Clock(c: Chain, e: Edge): (r: Chain)
    requires WellFormed(c)
    ensures WellFormed(r)
  {
    Enter(Act(c, e.tdi), TapStep(c.state, e.tms))
  }

  function Run(c: Chain, e: seq<Edge>): (r: Chain)
    requires WellFormed(c)
    ensures WellFormed(r)
  {
    if e == [] then c else Clock(Run(c, e[..|e| - 1]), e[|e| - 1])
  }

  /** The level of TDO: the first bit of the last device while shifting, pulled up otherwise. */
  function Tdo(c: Chain): bool
    requires WellFormed(c)
  {
    if c.devs == [] then true
    else match c.state
      case Dr(Shift) => c.dr[|c.dr| - 1][0]
      case Ir(Shift) => c.ir[|c.ir| - 1][0]
      case _ => true
  }

  lemma {:induction false} RunConcat(c: Chain, a: seq<Edge>, b: seq<Edge>)
    requires WellFormed(c)
    ensures Run(c, a + b) == Run(Run(c, a), b)
  {
    if b == [] {
      assert a + b == a;
    } else {
      assert (a + b)[..|a + b| - 1] == a + b[..|b| - 1];
      RunConcat(c, a, b[..|b| - 1]);
    }
  }

  /** The chain's controllers run as the standard says. */
  lemma {:induction false} RunState(c: Chain, e: seq<Edge>)
    requires WellFormed(c)
    ensures Run(c, e).state == TapRun(c.state, e)
  {
    if e != [] {
      RunState(c, e[..|e| - 1]);
    }
  }

  // ----- scans

  function Tdis(e: seq<Edge>): (r: seq<bool>)
    ensures |r| == |e| && forall i :: 0 <= i < |e| ==> r[i] == e[i].tdi
  {
    seq(|e|, i requires 0 <= i < |e| => e[i].tdi)
  }

  /** Clocks that stay in a Shift state, except that the last one may leave it. */
  predicate ShiftClocking(e: seq<Edge>) {
    forall i :: 0 <= i < |e| - 1 ==> !e[i].tms
  }

  predicate Leaves(e: seq<Edge>) {
    e != [] && e[|e| - 1].tms
  }

  /** What the devices received. */
  function Received(dr: seq<seq<bool>>, got: seq<seq<bool>>, bits: seq<bool>): (r: seq<seq<bool>>)
    requires |dr| == |got|
    ensures |r| == |got|
  {
    seq(|got|, k requires 0 <= k < |got| => got[k] + Stream(dr, bits, k)[..|bits|])
  }

  lemma ReceivedMore(dr: seq<seq<bool>>, got: seq<seq<bool>>, bits: seq<bool>, b: bool, k: nat)
    requires |dr| == |got| && k < |got| && forall j :: 0 <= j < |dr| ==> dr[j] != []
    ensures Received(dr, got, bits + [b])[k]
      == Received(dr, got, bits)[k] + [if k == 0 then b else ShiftMany(dr, bits)[k - 1][0]]
  {
    hide Stream, Flat, ShiftMany;
    StreamGrows(dr, bits, b, k);
    var s := Stream(dr, bits + [b], k);
    ShiftedIn(dr, bits + [b], k);
    assert (bits + [b])[..|bits|] == bits;
    assert s[..|bits| + 1] == s[..|bits|] + [s[|bits|]];
    SameSlice(Stream(dr, bits, k), b, 0, |bits|);
  }

  lemma NothingReceived(dr: seq<seq<bool>>, got: seq<seq<bool>>)
    requires |dr| == |got|
    ensures Received(dr, got, []) == got
  {
    hide Stream, Flat;
    assert forall k :: 0 <= k < |got| ==> Received(dr, got, [])[k] == got[k] + [] == got[k];
  }

  lemma {:induction false} DrShiftRun(c: Chain, e: seq<Edge>)
    requires WellFormed(c) && c.state == Dr(Shift) && ShiftClocking(e)
    ensures Run(c, e) == c.(
      state := if Leaves(e) then Dr(Exit1) else Dr(Shift),
      dr := ShiftMany(c.dr, Tdis(e)),
      got := Received(c.dr, c.got, Tdis(e)))
  {
    if e == [] {
      NothingReceived(c.dr, c.got);
      assert Tdis(e) == [];
    } else {
      hide Received, ShiftMany, Clock;
      var n := |e| - 1;
      DrShiftRun(c, e[..n]);
      DrShiftStep(c, Tdis(e[..n]), e[n]);
      assert Tdis(e) == Tdis(e[..n]) + [e[n].tdi];
    }
  }

  lemma DrShiftStep(c: Chain, bits: seq<bool>, e: Edge)
    requires WellFormed(c) && c.state == Dr(Shift)
    ensures
      var c' := c.(dr := ShiftMany(c.dr, bits), got := Received(c.dr, c.got, bits));
      Clock(c', e) == c.(
        state := if e.tms then Dr(Exit1) else Dr(Shift),
        dr := ShiftMany(c.dr, bits + [e.tdi]),
        got := Received(c.dr, c.got, bits + [e.tdi]))
  {
    var c' := c.(dr := ShiftMany(c.dr, bits), got := Received(c.dr, c.got, bits));
    var n, r := |c.devs|, Received(c.dr, c.got, bits + [e.tdi]);
    var a := Act(c', e.tdi);
    forall k | 0 <= k < n ensures a.got[k] == r[k] {
      ReceivedMore(c.dr, c.got, bits, e.tdi, k);
      GotMore(c', e.tdi, k);
    }
    hide Received, Stream, Flat;
    assert a.got == r;
    assert (bits + [e.tdi])[..|bits|] == bits;
  }

  lemma GotMore(c: Chain, tdi: bool, k: nat)
    requires WellFormed(c) && c.state == Dr(Shift) && k < |c.devs|
    ensures |Act(c, tdi).got| == |c.devs| && Act(c, tdi).got[k] == c.got[k] + [if k == 0 then tdi else c.dr[k - 1][0]]
  {
  }

  lemma {:induction false} IrShiftRun(c: Chain, e: seq<Edge>)
    requires WellFormed(c) && c.state == Ir(Shift) && ShiftClocking(e)
    ensures Run(c, e) == c.(state := if Leaves(e) then Ir(Exit1) else Ir(Shift), ir := ShiftMany(c.ir, Tdis(e)))
  {
    if e != [] {
      var n := |e| - 1;
      IrShiftRun(c, e[..n]);
      assert Tdis(e)[..n] == Tdis(e[..n]);
    }
  }

  function Captured(c: Chain): (r: seq<seq<bool>>)
    ensures |r| == |c.devs|
  {
    seq(|c.devs|, k requires 0 <= k < |c.devs| => Selected(c.devs[k]))
  }

  function Patterns(c: Chain): (r: seq<seq<bool>>)
    ensures |r| == |c.devs|
  {
    seq(|c.devs|, k requires 0 <= k < |c.devs| => Pattern(c.devs[k]))
  }

  lemma RunFirst(c: Chain, e: seq<Edge>)
    requires WellFormed(c) && e != []
    ensures Run(c, e) == Run(Clock(c, e[0]), e[1..])
  {
    assert e == [e[0]] + e[1..];
    RunConcat(c, [e[0]], e[1..]);
    assert [e[0]][..0] == [];
  }

  lemma RunThree(c: Chain, e: seq<Edge>)
    requires WellFormed(c) && |e| == 3
    ensures Run(c, e) == Clock(Clock(Clock(c, e[0]), e[1]), e[2])
  {
    hide Clock;
    RunFirst(c, e);
    RunFirst(Clock(c, e[0]), e[1..]);
    RunFirst(Clock(Clock(c, e[0]), e[1]), e[2..]);
    assert e[1..][1..] == e[2..] && e[2..][1..] == [];
  }

  const TO_SHIFT_DR: seq<bool> := [true, false, false]
  const TO_SHIFT_IR: seq<bool> := [true, true, false, false]
  const TO_IDLE: seq<bool> := [true, false]

  /** From Run-Test/Idle to Shift-DR. */
  lemma EnterDrScan(c: Chain)
    requires WellFormed(c) && c.state == RunTestIdle
    ensures Run(c, Moves(TO_SHIFT_DR)) == c.(state := Dr(Shift), dr := Captured(c), got := Repeat([], |c.devs|))
  {
    var e := Moves(TO_SHIFT_DR);
    FirstSteps(c);
    CaptureDr(c.(state := Dr(Capture)));
    hide *;
    RunThree(c, e);
  }

  lemma FirstSteps(c: Chain)
    requires WellFormed(c)
    ensures Clock(c.(state := RunTestIdle), Edge(true, true)) == c.(state := SelectDrScan)
    ensures Clock(c.(state := SelectDrScan), Edge(false, true)) == c.(state := Dr(Capture))
    ensures Clock(c.(state := SelectDrScan), Edge(true, true)) == c.(state := SelectIrScan)
    ensures Clock(c.(state := SelectIrScan), Edge(false, true)) == c.(state := Ir(Capture))
  {
    hide ShiftAll, Selected, Updated;
  }

  lemma CaptureDr(c: Chain)
    requires WellFormed(c) && c.state == Dr(Capture)
    ensures Clock(c, Edge(false, true)) == c.(state := Dr(Shift), dr := Captured(c), got := Repeat([], |c.devs|))
  {
    hide ShiftAll, Selected, Updated;
  }

  lemma CaptureIr(c: Chain)
    requires WellFormed(c) && c.state == Ir(Capture)
    ensures Clock(c, Edge(false, true)) == c.(state := Ir(Shift), ir := Patterns(c))
  {
    hide ShiftAll, Selected, Updated;
  }

  lemma EnterIrScan(c: Chain)
    requires WellFormed(c) && c.state == RunTestIdle
    ensures Run(c, Moves(TO_SHIFT_IR)) == c.(state := Ir(Shift), ir := Patterns(c))
  {
    var e := Moves(TO_SHIFT_IR);
    FirstSteps(c);
    CaptureIr(c.(state := Ir(Capture)));
    hide *;
    RunFirst(c, e);
    RunThree(Clock(c, e[0]), e[1..]);
  }

  /** From Exit1-DR through Update-DR to Run-Test/Idle. */
  lemma LeaveDrScan(c: Chain)
    requires WellFormed(c) && c.state == Dr(Exit1)
    ensures Run(c, Moves(TO_IDLE)) == c.(state := RunTestIdle,
      devs := seq(|c.devs|, k requires 0 <= k < |c.devs| => Updated(c.devs[k], c.dr[k], c.got[k])))
  {
    var e := Moves(TO_IDLE);
    RunFirst(c, e);
    RunFirst(Clock(c, e[0]), e[1..]);
    assert e[1..][1..] == [];
    hide Run, ShiftAll, Selected, Updated;
    assert Clock(c, e[0]) == Enter(c, Dr(Update));
  }

  lemma LeaveIrScan(c: Chain)
    requires WellFormed(c) && c.state == Ir(Exit1)
    ensures Run(c, Moves(TO_IDLE)) == c.(state := RunTestIdle,
      devs := seq(|c.devs|, k requires 0 <= k < |c.devs| => Instructed(c.devs[k], c.ir[k])))
  {
    var e := Moves(TO_IDLE);
    RunFirst(c, e);
    RunFirst(Clock(c, e[0]), e[1..]);
    assert e[1..][1..] == [];
    hide Run, ShiftAll, Selected, Updated;
    assert Clock(c, e[0]) == Enter(c, Ir(Update));
  }
}
