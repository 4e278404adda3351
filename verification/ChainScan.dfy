/** What whole scans do to a chain: theorems about the target, over the bits clocked in. */
module ChainScan {
  import opened Bits
  import opened Tap
  import opened Chain

  function DrScanned(c: Chain, bits: seq<bool>): (r: Chain)
    requires WellFormed(c)
  {
    var dr := ShiftMany(Captured(c), bits);
    var got := Received(Captured(c), Repeat([], |c.devs|), bits);
    c.(state := RunTestIdle, dr := dr, got := got,
       devs := seq(|c.devs|, k requires 0 <= k < |c.devs| => Updated(c.devs[k], dr[k], got[k])))
  }

  function IrScanned(c: Chain, bits: seq<bool>): (r: Chain)
    requires WellFormed(c)
  {
    var ir := ShiftMany(Patterns(c), bits);
    c.(state := RunTestIdle, ir := ir,
       devs := seq(|c.devs|, k requires 0 <= k < |c.devs| => Instructed(c.devs[k], ir[k])))
  }

  /** A whole DR scan from Run-Test/Idle and back. */
  lemma DrScanRun(c: Chain, s: seq<Edge>)
    requires WellFormed(c) && c.state == RunTestIdle && ShiftClocking(s) && Leaves(s)
    ensures Run(c, Moves(TO_SHIFT_DR) + s + Moves(TO_IDLE)) == DrScanned(c, Tdis(s))
  {
    hide Run, ShiftMany, Received, Captured, Updated, Moves;
    EnterDrScan(c);
    RunConcat(c, Moves(TO_SHIFT_DR), s);
    var c1 := Run(c, Moves(TO_SHIFT_DR));
    DrShiftRun(c1, s);
    LeaveDrScan(Run(c1, s));
    RunConcat(c, Moves(TO_SHIFT_DR) + s, Moves(TO_IDLE));
  }

  /** A whole IR scan from Run-Test/Idle and back. */
  lemma IrScanRun(c: Chain, s: seq<Edge>)
    requires WellFormed(c) && c.state == RunTestIdle && ShiftClocking(s) && Leaves(s)
    ensures Run(c, Moves(TO_SHIFT_IR) + s + Moves(TO_IDLE)) == IrScanned(c, Tdis(s))
  {
    hide Run, ShiftMany, Patterns, Moves;
    EnterIrScan(c);
    RunConcat(c, Moves(TO_SHIFT_IR), s);
    var c1 := Run(c, Moves(TO_SHIFT_IR));
    IrShiftRun(c1, s);
    LeaveIrScan(Run(c1, s));
    RunConcat(c, Moves(TO_SHIFT_IR) + s, Moves(TO_IDLE));
  }

  /** During the data clocks of a DR scan TDO shows the stream that comes out behind the last device. */
  lemma DrScanOut(c: Chain, s: seq<Edge>, i: nat)
    requires WellFormed(c) && c.state == RunTestIdle && ShiftClocking(s) && i < |s| && c.devs != []
    ensures
      var n := |c.devs|;
      i < |Stream(Captured(c), Tdis(s), n)|
      && Tdo(Run(c, Moves(TO_SHIFT_DR) + s[..i])) == Stream(Captured(c), Tdis(s), n)[i]
  {
    hide Run, Received, Captured, Moves, ShiftMany, Stream;
    var n := |c.devs|;
    EnterDrScan(c);
    RunConcat(c, Moves(TO_SHIFT_DR), s[..i]);
    var c1 := Run(c, Moves(TO_SHIFT_DR));
    DrShiftRun(c1, s[..i]);
    ShiftedOut(Captured(c), Tdis(s[..i]), n);
    assert Tdis(s) == Tdis(s[..i]) + Tdis(s)[i..];
    StreamPrefix(Captured(c), Tdis(s[..i]), Tdis(s)[i..], n);
  }

  lemma StreamPrefix(regs: seq<seq<bool>>, a: seq<bool>, b: seq<bool>, k: nat)
    requires k <= |regs|
    ensures Stream(regs, a, k) <= Stream(regs, a + b, k)
  {
  }

  lemma CapturedNonempty(c: Chain)
    requires WellFormed(c)
    ensures forall j :: 0 <= j < |c.devs| ==> Captured(c)[j] != []
  {
  }

  // ----- one selected device, the others in BYPASS

  predicate Bypassed(d: Device) {
    d.inst.Loaded? && AllOnes(d.inst.bits)
  }

  predicate OthersBypass(c: Chain, k: nat) {
    forall j :: 0 <= j < |c.devs| && j != k ==> Bypassed(c.devs[j])
  }

  lemma {:induction false} BypassFlat(c: Chain, k: nat, j: nat)
    requires WellFormed(c) && OthersBypass(c, k) && k < |c.devs| && j <= |c.devs|
    ensures j <= k ==> Flat(Captured(c), j) == Repeat(false, j)
    ensures j > k ==> Flat(Captured(c), j) == Repeat(false, j - 1 - k) + Selected(c.devs[k]) + Repeat(false, k)
  {
    if j == 0 {
      NoBits();
    } else {
      FlatUnfold(Captured(c), j);
      CapturedAt(c, j - 1);
      if j - 1 != k { BypassCaptures(c, k, j - 1); }
      hide *;
      BypassFlat(c, k, j - 1);
      OneMore(j, k, Selected(c.devs[k]));
    }
  }

  lemma NoBits()
    ensures Repeat(false, 0) == []
  {
  }

  lemma OneMore(j: nat, k: nat, d: seq<bool>)
    requires j > 0
    ensures j <= k ==> [false] + Repeat(false, j - 1) == Repeat(false, j)
    ensures j - 1 > k ==>
      [false] + (Repeat(false, j - 2 - k) + d + Repeat(false, k)) == Repeat(false, j - 1 - k) + d + Repeat(false, k)
    ensures j - 1 == k ==> d + Repeat(false, k) == Repeat(false, 0) + d + Repeat(false, k)
  {
    if j - 1 > k { assert [false] + Repeat(false, j - 2 - k) == Repeat(false, j - 1 - k); }
  }

  lemma BypassCaptures(c: Chain, k: nat, j: nat)
    requires OthersBypass(c, k) && j < |c.devs| && j != k
    ensures Captured(c)[j] == [false]
  {
  }

  /** The bits of a DR scan of device `k` of `n`. */
  function DrBits(n: nat, k: nat, data: seq<bool>): seq<bool>
    requires k < n
  {
    Repeat(true, n - 1 - k) + data + Repeat(false, k)
  }

  /** What the selected device receives: the zeros that the BYPASS registers in front of it captured, the pre bits,
      and then exactly the data. */
  function Delivered(n: nat, k: nat, data: seq<bool>): seq<bool>
    requires k < n
  {
    Repeat(false, k) + Repeat(true, n - 1 - k) + data
  }

  /** The selected device receives the data behind the padding, and when the data fill its register they end up
      in it. */
  lemma DrScanDelivers(c: Chain, k: nat, data: seq<bool>)
    requires WellFormed(c) && k < |c.devs| && OthersBypass(c, k)
    ensures
      var d, n := c.devs[k], |c.devs|;
      var c' := DrScanned(c, DrBits(n, k, data));
      && c'.got[k] == Delivered(n, k, data)
      && (|data| == |Selected(d)| ==> c'.dr[k] == data)
      && c'.devs[k] == Updated(d, c'.dr[k], Delivered(n, k, data))
  {
    hide *;
    var n, regs, bits := |c.devs|, Captured(c), DrBits(|c.devs|, k, data);
    DrScannedAt(c, bits, k);
    BypassFlat(c, k, k);
    BypassFlat(c, k, k + 1);
    CapturedAt(c, k);
    NoRepeat();
    assert |bits| == n - 1 + |data| by { DrBitsLength(n, k, data); }
    ZerosThrough(regs, k, n, data);
    if |data| == |Selected(c.devs[k])| {
      CapturedNonempty(c);
      ShiftedRegister(regs, bits, k);
      RegisterThrough(regs, k, n, data);
    }
  }

  lemma NoRepeat()
    ensures forall s: seq<bool> {:trigger Repeat(false, 0) + s} :: Repeat(false, 0) + s == s
  {
  }

  lemma DrBitsLength(n: nat, k: nat, data: seq<bool>)
    requires k < n
    ensures |DrBits(n, k, data)| == n - 1 + |data|
  {
  }

  lemma CapturedAt(c: Chain, k: nat)
    requires k < |c.devs|
    ensures Captured(c)[k] == Selected(c.devs[k])
  {
  }

  lemma DrScannedAt(c: Chain, bits: seq<bool>, k: nat)
    requires WellFormed(c) && k < |c.devs|
    ensures
      var c', s := DrScanned(c, bits), Stream(Captured(c), bits, k);
      && c'.got[k] == s[..|bits|]
      && c'.dr[k] == ShiftMany(Captured(c), bits)[k]
      && c'.devs[k] == Updated(c.devs[k], c'.dr[k], s[..|bits|])
  {
    hide *;
    CapturedNonempty(c);
    DrScannedParts(c, bits, k);
    FirstReceived(Captured(c), |c.devs|, bits, k);
  }

  lemma DrScannedParts(c: Chain, bits: seq<bool>, k: nat)
    requires WellFormed(c) && k < |c.devs|
    ensures
      var c' := DrScanned(c, bits);
      && c'.got == Received(Captured(c), Repeat([], |c.devs|), bits)
      && c'.dr == ShiftMany(Captured(c), bits)
      && |c'.devs| == |c'.dr| == |c.devs|
      && c'.devs[k] == Updated(c.devs[k], c'.dr[k], c'.got[k])
  {
    hide ShiftMany, Received, Captured, Updated, WellFormed;
  }

  lemma FirstReceived(regs: seq<seq<bool>>, n: nat, bits: seq<bool>, k: nat)
    requires k < n == |regs|
    ensures Received(regs, Repeat([], n), bits)[k] == Stream(regs, bits, k)[..|bits|]
  {
    hide Stream;
    assert Repeat<seq<bool>>([], n)[k] == [];
  }

  lemma ZerosThrough(regs: seq<seq<bool>>, k: nat, n: nat, data: seq<bool>)
    requires k < n == |regs| && Flat(regs, k) == Repeat(false, k)
    ensures Stream(regs, DrBits(n, k, data), k)[..n - 1 + |data|] == Delivered(n, k, data)
  {
    var s := Stream(regs, DrBits(n, k, data), k);
    assert s == Delivered(n, k, data) + Repeat(false, k);
  }

  lemma RegisterThrough(regs: seq<seq<bool>>, k: nat, n: nat, data: seq<bool>)
    requires k < n == |regs| && Flat(regs, k + 1) == regs[k] + Repeat(false, k) && |regs[k]| == |data|
    ensures
      var t := n - 1 + |data|;
      t + |data| <= |Stream(regs, DrBits(n, k, data), k + 1)|
      && Stream(regs, DrBits(n, k, data), k + 1)[t..t + |data|] == data
  {
    var s := Stream(regs, DrBits(n, k, data), k + 1);
    var front := regs[k] + Repeat(false, k) + Repeat(true, n - 1 - k);
    assert s == front + (data + Repeat(false, k));
    assert s[|front|..] == data + Repeat(false, k);
  }

  /** The bits read during the data clocks are the register that the selected device captured. */
  lemma DrScanReads(c: Chain, k: nat, data: seq<bool>, i: nat)
    requires WellFormed(c) && k < |c.devs| && OthersBypass(c, k)
    requires i < |data| && i < |Selected(c.devs[k])|
    ensures
      var n := |c.devs|;
      var s := Stream(Captured(c), DrBits(n, k, data), n);
      n - 1 - k + i < |s| && s[n - 1 - k + i] == Selected(c.devs[k])[i]
  {
    hide Selected;
    var n := |c.devs|;
    BypassFlat(c, k, n);
    assert Flat(Captured(c), n)[n - 1 - k + i] == Selected(c.devs[k])[i];
  }

  lemma DrScanReadsOut(c: Chain, k: nat, data: seq<bool>, s: seq<Edge>, i: nat)
    requires WellFormed(c) && c.state == RunTestIdle && k < |c.devs| && OthersBypass(c, k)
    requires ShiftClocking(s) && Tdis(s) == DrBits(|c.devs|, k, data)
    requires i < |data| && i < |Selected(c.devs[k])|
    ensures |c.devs| - k - 1 + i < |s|
      && Tdo(Run(c, Moves(TO_SHIFT_DR) + s[..|c.devs| - k - 1 + i])) == Selected(c.devs[k])[i]
  {
    DrBitsLength(|c.devs|, k, data);
    DrScanOut(c, s, |c.devs| - k - 1 + i);
    DrScanReads(c, k, data, i);
    hide DrBits, Stream, Captured, Run, Tdo, Selected;
  }

  // ----- instructions

  lemma {:induction false} FlatGrows(regs: seq<seq<bool>>, j: nat, k: nat)
    requires j <= k <= |regs|
    ensures |Flat(regs, j)| <= |Flat(regs, k)|
  {
    if j < k { FlatGrows(regs, j, k - 1); }
  }

  /** The bits of an IR scan: `data` for device `k`, ones for all others. */
  function IrScanBits(regs: seq<seq<bool>>, k: nat, data: seq<bool>): seq<bool>
    requires k < |regs|
  {
    FlatGrows(regs, k + 1, |regs|);
    Repeat(true, |Flat(regs, |regs|)| - |Flat(regs, k + 1)|) + data + Repeat(true, |Flat(regs, k)|)
  }

  /** When as many bits are clocked as the chain is long, register `j` holds the bits at its own place. */
  lemma FullShift(regs: seq<seq<bool>>, bits: seq<bool>, j: nat)
    requires forall i :: 0 <= i < |regs| ==> regs[i] != []
    requires j < |regs| && |bits| == |Flat(regs, |regs|)|
    ensures
      var at := |bits| - |Flat(regs, j + 1)|;
      0 <= at && at + |regs[j]| <= |bits| && ShiftMany(regs, bits)[j] == bits[at..at + |regs[j]|]
  {
    hide ShiftMany;
    FlatGrows(regs, j + 1, |regs|);
    ShiftedRegister(regs, bits, j);
    var s, f := Stream(regs, bits, j + 1), Flat(regs, j + 1);
    assert s[|bits|..|bits| + |regs[j]|] == bits[|bits| - |f|..|bits| - |f| + |regs[j]|];
  }

  /** After an IR scan the selected device holds exactly the instruction and every other device holds all ones. */
  lemma IrScanSelects(c: Chain, k: nat, data: seq<bool>, j: nat)
    requires WellFormed(c) && k < |c.devs| && j < |c.devs| && |data| == c.devs[k].irLength
    ensures
      var c' := IrScanned(c, IrScanBits(Patterns(c), k, data));
      && c'.devs[j] == Instructed(c.devs[j], if j == k then data else Repeat(true, c.devs[j].irLength))
      && (j != k ==> Bypassed(c'.devs[j]))
  {
    hide *;
    var regs := Patterns(c);
    PatternsNonempty(c);
    PatternAt(c, k);
    PatternAt(c, j);
    OwnPlace(regs, k, data, j);
    FullShift(regs, IrScanBits(regs, k, data), j);
    IrScannedAt(c, IrScanBits(regs, k, data), j);
  }

  lemma PatternAt(c: Chain, k: nat)
    requires k < |c.devs|
    ensures Patterns(c)[k] == Pattern(c.devs[k])
  {
  }

  lemma IrScannedAt(c: Chain, bits: seq<bool>, j: nat)
    requires WellFormed(c) && j < |c.devs| && |ShiftMany(Patterns(c), bits)| == |c.devs|
    ensures |IrScanned(c, bits).devs| == |c.devs|
    ensures
      var ir, d := ShiftMany(Patterns(c), bits)[j], IrScanned(c, bits).devs[j];
      d == Instructed(c.devs[j], ir) && (AllOnes(ir) ==> Bypassed(d))
  {
    hide ShiftMany, AllOnes;
  }

  /** During the data clocks of an IR scan TDO likewise shows the patterns that were captured. */
  lemma IrScanOut(c: Chain, s: seq<Edge>, i: nat)
    requires WellFormed(c) && c.state == RunTestIdle && ShiftClocking(s) && i < |s| && c.devs != []
    ensures
      var n := |c.devs|;
      i < |Stream(Patterns(c), Tdis(s), n)|
      && Tdo(Run(c, Moves(TO_SHIFT_IR) + s[..i])) == Stream(Patterns(c), Tdis(s), n)[i]
  {
    hide *;
    var n := |c.devs|;
    PatternsNonempty(c);
    EnterIrScan(c);
    RunConcat(c, Moves(TO_SHIFT_IR), s[..i]);
    var c1 := Run(c, Moves(TO_SHIFT_IR));
    PrefixStays(s, i);
    IrShiftRun(c1, s[..i]);
    TdoShiftingIr(Run(c1, s[..i]));
    ShiftedOut(Patterns(c), Tdis(s[..i]), n);
    StreamPrefix(Patterns(c), Tdis(s[..i]), Tdis(s)[i..], n);
  }

  lemma PrefixStays(s: seq<Edge>, i: nat)
    requires ShiftClocking(s) && i < |s|
    ensures ShiftClocking(s[..i]) && !Leaves(s[..i]) && Tdis(s) == Tdis(s[..i]) + Tdis(s)[i..]
  {
  }

  lemma TdoShiftingIr(c: Chain)
    requires WellFormed(c) && c.state == Ir(Shift) && c.devs != []
    ensures |c.ir| == |c.devs| && c.ir[|c.ir| - 1] != [] && Tdo(c) == c.ir[|c.ir| - 1][0]
  {
  }

  lemma PatternsNonempty(c: Chain)
    requires WellFormed(c)
    ensures forall j :: 0 <= j < |c.devs| ==> Patterns(c)[j] != []
  {
  }

  /** The bits read during the data clocks are the pattern that the selected device captured. */
  lemma IrScanReads(c: Chain, k: nat, data: seq<bool>, i: nat)
    requires WellFormed(c) && k < |c.devs| && |data| == c.devs[k].irLength && i < |data|
    ensures
      var regs, n := Patterns(c), |c.devs|;
      var pre := |Flat(regs, n)| - |Flat(regs, k + 1)|;
      var s := Stream(regs, IrScanBits(regs, k, data), n);
      0 <= pre + i < |s| && s[pre + i] == Pattern(c.devs[k])[i]
  {
    hide *;
    var regs, n := Patterns(c), |c.devs|;
    PatternAt(c, k);
    OwnSlice(regs, n, k);
    FrontOfStream(regs, IrScanBits(regs, k, data), n, |Flat(regs, n)| - |Flat(regs, k + 1)|, i, regs[k]);
  }

  lemma FrontOfStream(regs: seq<seq<bool>>, bits: seq<bool>, n: nat, at: nat, i: nat, reg: seq<bool>)
    requires n <= |regs| && at + |reg| <= |Flat(regs, n)| && i < |reg| && Flat(regs, n)[at..at + |reg|] == reg
    ensures at + i < |Stream(regs, bits, n)| && Stream(regs, bits, n)[at + i] == reg[i]
  {
    hide Flat;
  }

  lemma {:induction false} OwnSlice(regs: seq<seq<bool>>, n: nat, k: nat)
    requires k < n <= |regs|
    ensures
      var pre := |Flat(regs, n)| - |Flat(regs, k + 1)|;
      0 <= pre && pre + |regs[k]| <= |Flat(regs, n)| && Flat(regs, n)[pre..pre + |regs[k]|] == regs[k]
  {
    hide *;
    FlatUnfold(regs, n);
    if k == n - 1 {
      Front(regs[k], Flat(regs, k));
    } else {
      OwnSlice(regs, n - 1, k);
      var at := |Flat(regs, n - 1)| - |Flat(regs, k + 1)|;
      Deeper(regs[n - 1], Flat(regs, n - 1), at, |regs[k]|);
      assert |Flat(regs, n)| - |Flat(regs, k + 1)| == |regs[n - 1]| + at;
    }
  }

  lemma Front(a: seq<bool>, b: seq<bool>)
    ensures (a + b)[0..|a|] == a
  {
  }

  lemma FlatUnfold(regs: seq<seq<bool>>, n: nat)
    requires 0 < n <= |regs|
    ensures Flat(regs, n) == regs[n - 1] + Flat(regs, n - 1)
  {
  }

  lemma Deeper(a: seq<bool>, b: seq<bool>, at: nat, len: nat)
    requires at + len <= |b|
    ensures (a + b)[|a| + at..|a| + at + len] == b[at..at + len]
  {
  }

  /** The place of register `j` in the bits of an IR scan. */
  lemma OwnPlace(regs: seq<seq<bool>>, k: nat, data: seq<bool>, j: nat)
    requires k < |regs| && j < |regs| && |data| == |regs[k]|
    ensures
      var bits := IrScanBits(regs, k, data);
      var at := |bits| - |Flat(regs, j + 1)|;
      && |bits| == |Flat(regs, |regs|)| && 0 <= at && at + |regs[j]| <= |bits|
      && (j == k ==> bits[at..at + |regs[j]|] == data)
      && (j != k ==> bits[at..at + |regs[j]|] == Repeat(true, |regs[j]|) && AllOnes(bits[at..at + |regs[j]|]))
  {
    hide *;
    Places(regs, k, j);
    var at := |Flat(regs, |regs|)| - |Flat(regs, j + 1)|;
    OwnPlaceIn(regs, k, data, |regs[j]|, at);
    if j != k { OnesAre(IrScanBits(regs, k, data)[at..at + |regs[j]|]); }
  }

  lemma OnesAre(s: seq<bool>)
    requires AllOnes(s)
    ensures s == Repeat(true, |s|)
  {
  }

  lemma OwnPlaceIn(regs: seq<seq<bool>>, k: nat, data: seq<bool>, len: nat, at: nat)
    requires k < |regs| && |data| == |regs[k]| && at + len <= |Flat(regs, |regs|)|
    ensures
      var bits, pre := IrScanBits(regs, k, data), |Flat(regs, |regs|)| - |Flat(regs, k + 1)|;
      && |bits| == |Flat(regs, |regs|)|
      && (at == pre && len == |data| ==> bits[at..at + len] == data)
      && (at + len <= pre || at >= pre + |data| ==> AllOnes(bits[at..at + len]))
  {
    Places(regs, k, k);
    hide Flat, AllOnes;
    var n := |regs|;
    var pre, post := Repeat(true, |Flat(regs, n)| - |Flat(regs, k + 1)|), Repeat(true, |Flat(regs, k)|);
    Pieces(pre, data, post, at, len);
  }

  lemma Places(regs: seq<seq<bool>>, k: nat, j: nat)
    requires k < |regs| && j < |regs|
    ensures
      var total, pre := |Flat(regs, |regs|)|, |Flat(regs, |regs|)| - |Flat(regs, k + 1)|;
      var at := total - |Flat(regs, j + 1)|;
      && 0 <= pre && 0 <= at && pre + |regs[k]| + |Flat(regs, k)| == total && at + |regs[j]| <= total
      && (j == k ==> at == pre) && (j < k ==> at >= pre + |regs[k]|) && (j > k ==> at + |regs[j]| <= pre)
  {
    hide Flat;
    FlatGrows(regs, k + 1, |regs|);
    FlatGrows(regs, j + 1, |regs|);
    FlatStep(regs, k);
    FlatStep(regs, j);
    if j < k { FlatGrows(regs, j + 1, k); } else if j > k { FlatGrows(regs, k + 1, j); }
    PlacesAdd(|Flat(regs, |regs|)|, |Flat(regs, k)|, |Flat(regs, k + 1)|, |regs[k]|, |Flat(regs, j)|,
      |Flat(regs, j + 1)|, |regs[j]|);
  }

  lemma PlacesAdd(total: nat, fk: nat, fk1: nat, lk: nat, fj: nat, fj1: nat, lj: nat)
    requires fk1 <= total && fj1 <= total && fk1 == lk + fk && fj1 == lj + fj
    ensures total - fk1 + lk + fk == total && total - fj1 + lj <= total
    ensures fj1 <= fk ==> total - fj1 >= total - fk1 + lk
    ensures fk1 <= fj ==> total - fj1 + lj <= total - fk1
  {
  }

  lemma FlatStep(regs: seq<seq<bool>>, j: nat)
    requires j < |regs|
    ensures |Flat(regs, j + 1)| == |regs[j]| + |Flat(regs, j)|
  {
  }

  /** A slice of `pre + data + post` that is `data`, or lies in `pre` or in `post`. */
  lemma Pieces(pre: seq<bool>, data: seq<bool>, post: seq<bool>, at: nat, len: nat)
    requires at + len <= |pre + data + post|
    requires pre == Repeat(true, |pre|) && post == Repeat(true, |post|)
    ensures at == |pre| && len == |data| ==> (pre + data + post)[at..at + len] == data
    ensures at + len <= |pre| || at >= |pre| + |data| ==> AllOnes((pre + data + post)[at..at + len])
  {
  }
}
