/** `getChain` on a chain of devices with identification registers. */
module Detection {
  import opened Bits
  import opened Tap
  import opened IoFtdi
  import opened Jtag
  import opened Chain
  import opened ChainScan
  import opened Scans

  /** Clocks never change which devices there are. */
  ghost predicate SameDevices(c: Chain, c': Chain) {
    |c'.devs| == |c.devs| && forall k :: 0 <= k < |c.devs| ==>
      c'.devs[k].idcode == c.devs[k].idcode && c'.devs[k].irLength == c.devs[k].irLength
        && c'.devs[k].status == c.devs[k].status
  }

  lemma {:induction false} DevicesStay(c: Chain, e: seq<Edge>)
    requires WellFormed(c)
    ensures SameDevices(c, Run(c, e))
  {
    if e != [] {
      DevicesStay(c, e[..|e| - 1]);
      ClockKeepsDevices(Run(c, e[..|e| - 1]), e[|e| - 1]);
    }
  }

  lemma ClockKeepsDevices(c: Chain, e: Edge)
    requires WellFormed(c)
    ensures SameDevices(c, Clock(c, e))
  {
    ActKeepsDevices(c, e.tdi);
    EnterKeepsDevices(Act(c, e.tdi), TapStep(c.state, e.tms));
    hide Act, Enter, TapStep, WellFormed;
  }

  lemma ActKeepsDevices(c: Chain, tdi: bool)
    requires WellFormed(c)
    ensures Act(c, tdi).devs == c.devs
  {
    hide ShiftAll, Selected, Pattern;
  }

  lemma EnterKeepsDevices(c: Chain, s: TapState)
    requires WellFormed(c)
    ensures SameDevices(c, Enter(c, s))
  {
  }

  /** A chain that has been clocked into Test-Logic-Reset selects its identification registers. */
  lemma ResetSelectsIds(c: Chain, e: seq<Edge>)
    requires WellFormed(c) && e != [] && Run(c, e).state == TestLogicReset
    ensures |Run(c, e).devs| == |c.devs| && forall k :: 0 <= k < |c.devs| ==> Run(c, e).devs[k].inst == AfterReset
  {
    DevicesStay(c, e[..|e| - 1]);
  }

  function Ids(c: Chain): (r: seq<seq<bool>>)
    ensures |r| == |c.devs|
  {
    seq(|c.devs|, k requires 0 <= k < |c.devs| => c.devs[k].idcode)
  }

  const RESET_TO_SHIFT_DR: seq<bool> := [false, true, false, false]

  lemma ResetRoute()
    ensures Route(TestLogicReset, Dr(Shift)) == RESET_TO_SHIFT_DR
  {
  }

  /** After the start of the detection every device shifts its identification register. */
  lemma DetectStarts(c: Chain, e: seq<Edge>)
    requires WellFormed(c)
    ensures Run(c, DetectStart(e)).state == Dr(Shift) && Run(c, DetectStart(e)).dr == Ids(c)
    ensures |Run(c, DetectStart(e)).devs| == |c.devs|
  {
    hide Run, Route;
    var e1 := e + Moves(Repeat(true, 5));
    ResetSettles(e, 5);
    RunState(c, e1);
    DevicesStay(c, e1);
    ResetSelectsIds(c, e1);
    ResetRoute();
    var c1 := Run(c, e1);
    assert RESET_TO_SHIFT_DR + Repeat(false, 0) == RESET_TO_SHIFT_DR;
    assert DetectStart(e) == e1 + Moves(RESET_TO_SHIFT_DR);
    RunConcat(c, e1, Moves(RESET_TO_SHIFT_DR));
    assert Moves(RESET_TO_SHIFT_DR)[1..] == Moves(TO_SHIFT_DR);
    RunFirst(c1, Moves(RESET_TO_SHIFT_DR));
    var c2 := Clock(c1, Edge(false, true));
    assert c2 == c1.(state := RunTestIdle);
    EnterDrScan(c2);
    assert Captured(c2) == Ids(c);
  }

  lemma ZerosShift(i: nat)
    ensures ShiftClocking(Repeat(Edge(false, false), i)) && !Leaves(Repeat(Edge(false, false), i))
    ensures Tdis(Repeat(Edge(false, false), i)) == Repeat(false, i)
  {
  }

  /** Bit `i` that comes out: the identification registers, nearest to TDO first, and then zeros. */
  lemma WordsOut(c: Chain, e: seq<Edge>, m: nat, i: nat)
    requires WellFormed(c) && c.devs != [] && i < 32 * m
    ensures
      var start := DetectStart(e);
      var s := Stream(Ids(c), Repeat(false, i), |c.devs|);
      i < |s| && TargetOf(c)(DetectWords(start, m)[..|start| + i]) == s[i]
  {
    hide Run, DetectStart, Stream, TargetOf, ShiftMany;
    var start, zeros := DetectStart(e), Repeat(Edge(false, false), i);
    assert DetectWords(start, m)[..|start| + i] == start + zeros;
    DetectStarts(c, e);
    RunConcat(c, start, zeros);
    ZerosShift(i);
    DrShiftRun(Run(c, start), zeros);
    ShiftedOut(Ids(c), Repeat(false, i), |c.devs|);
    TargetIs(c, start + zeros);
  }

  /** The words that the detection reads: the bits of all identification registers in a row, nearest to TDO first, and
      zeros behind them; ones when there is no device. A device without an identification register shows the one bit
      of BYPASS instead. */
  function WordBits(c: Chain, j: nat): (w: seq<bool>)
    ensures |w| == 32
  {
    if c.devs == [] then Repeat(true, 32) else Window(Flat(Ids(c), |c.devs|), 32 * j)
  }

  /** 32 bits of a row from a place on, with zeros behind its end. */
  function Window(row: seq<bool>, at: nat): (w: seq<bool>)
    ensures |w| == 32 && forall i :: 0 <= i < 32 ==> w[i] == (at + i < |row| && row[at + i])
  {
    seq(32, i requires 0 <= i < 32 => at + i < |row| && row[at + i])
  }

  lemma WindowFrom(row: seq<bool>, at: nat)
    requires at <= |row|
    ensures Window(row, at) == Window(row[at..], 0)
  {
  }

  lemma WindowFirst(a: seq<bool>, rest: seq<bool>)
    ensures |a| == 32 ==> Window(a + rest, 0) == a
    ensures |a| == 1 ==> Window(a + rest, 0) == a + Window(rest, 0)[..31]
    ensures Window([], 0) == Repeat(false, 32)
  {
  }

  function WordAt(c: Chain, j: nat): nat { Number(WordBits(c, j)) }

  /** The `n` devices nearest to TDO have identification registers of 32 bits. */
  predicate Proper(c: Chain, n: nat) {
    n <= |c.devs| && forall k :: |c.devs| - n <= k < |c.devs| ==> |c.devs[k].idcode| == 32
  }

  /** Behind `j` registers of 32 bits the row goes on with the other devices. */
  lemma {:induction false} IdsInRow(c: Chain, n: nat, j: nat)
    requires j <= n <= |c.devs| && forall k :: n - j <= k < n ==> |c.devs[k].idcode| == 32
    ensures |Flat(Ids(c), n)| == 32 * j + |Flat(Ids(c), n - j)|
    ensures Flat(Ids(c), n)[32 * j..] == Flat(Ids(c), n - j)
    decreases j
  {
    if j > 0 {
      var a, rest := c.devs[n - 1].idcode, Flat(Ids(c), n - 1);
      assert Flat(Ids(c), n) == a + rest && |a| == 32;
      hide Flat, Ids;
      IdsInRow(c, n - 1, j - 1);
      RowBehind(a, rest, 32 * (j - 1));
    }
  }

  lemma RowBehind(a: seq<bool>, b: seq<bool>, at: nat)
    requires |a| == 32 && at <= |b|
    ensures (a + b)[at + 32..] == b[at..]
  {
  }

  lemma ZeroId(b: seq<bool>)
    requires b == Repeat(false, 32)
    ensures Number(b) == 0
  {
    PackUnique([0, 0, 0, 0], b);
    WordValue(b);
  }

  lemma OnesId(b: seq<bool>)
    requires b == Repeat(true, 32)
    ensures Number(b) == 0xFFFFFFFF
  {
    PackUnique([0xFF, 0xFF, 0xFF, 0xFF], b);
    WordValue(b);
  }

  /** Word `j` read during the detection, whatever registers the devices have. */
  lemma WordRead(io: IoFtdi, c: Chain, e: seq<Edge>, m: nat, j: nat)
    requires WellFormed(c) && io.target == TargetOf(c) && j < m
    ensures
      var start := DetectStart(e);
      io.Samples(DetectWords(start, m), |start| + 32 * j, 32) == WordBits(c, j)
  {
    hide Run, DetectStart, Stream, TargetOf, Tdo, Flat, DetectWords;
    var start := DetectStart(e);
    var w := DetectWords(start, m);
    var bits := io.Samples(w, |start| + 32 * j, 32);
    forall i | 0 <= i < 32 ensures bits[i] == WordBits(c, j)[i] {
      assert bits[i] == io.Sample(w, |start| + 32 * j + i) == io.target(w[..|start| + 32 * j + i]);
      if c.devs == [] {
        EmptyChain(c, w[..|start| + 32 * j + i]);
      } else {
        WordsOut(c, e, m, 32 * j + i);
        StreamBit(Ids(c), |c.devs|, 32 * j + i);
      }
    }
  }

  lemma StreamBit(regs: seq<seq<bool>>, n: nat, i: nat)
    requires n <= |regs|
    ensures
      var s, row := Stream(regs, Repeat(false, i), n), Flat(regs, n);
      i < |s| ==> s[i] == (i < |row| && row[i])
  {
    hide Flat;
  }

  lemma EmptyChain(c: Chain, e: seq<Edge>)
    requires WellFormed(c) && c.devs == []
    ensures TargetOf(c)(e)
  {
    DevicesStay(c, e);
  }

  // ----- which devices are found

  /** The identification code of a device. */
  function Code(d: Device): nat { Number(d.idcode) }

  /** `n` is how many devices the detection finds: as many as there are words up to the first that is no proper code. */
  ghost predicate Finds(c: Chain, n: nat) {
    && n <= 1000 && (forall j :: 0 <= j < n ==> IsId(WordAt(c, j)))
    && (n < 1000 ==> !IsId(WordAt(c, n)))
  }

  /** The record begins with those words, the last first. */
  ghost predicate Records(c: Chain, n: nat, devices: seq<ChainParam>) {
    n <= |devices| && forall k :: 0 <= k < n ==> devices[k].idcode == WordAt(c, n - 1 - k)
  }

  /** What the detection finds, for any chain in any state. */
  lemma ChainFound(io: IoFtdi, jtag: Jtag, c: Chain, e: seq<Edge>, n: nat, devices: seq<ChainParam>,
                   before: seq<ChainParam>)
    requires WellFormed(c) && io.target == TargetOf(c) && jtag.io == io && n <= 1000
    requires
      var w := DetectWords(DetectStart(e), if n < 1000 then n + 1 else n);
      && jtag.Found(w, |DetectStart(e)|, n, devices, before)
      && (n < 1000 ==> !IsId(jtag.IdAt(w, |DetectStart(e)|, n)))
    ensures Finds(c, n) && Records(c, n, devices)
  {
    hide Run, DetectStart, TargetOf, Pack, IdOf, DetectWords, WordBits, Number;
    var m := if n < 1000 then n + 1 else n;
    var w, at := DetectWords(DetectStart(e), m), |DetectStart(e)|;
    forall j | 0 <= j < m ensures jtag.IdAt(w, at, j) == WordAt(c, j) {
      WordRead(io, c, e, m, j);
    }
    forall j | 0 <= j < n ensures IsId(WordAt(c, j)) {
      assert devices[n - 1 - j].idcode == jtag.IdAt(w, at, n - 1 - (n - 1 - j));
    }
  }

  /** Among devices with identification registers the words are the codes, nearest to TDO first. */
  lemma WordIs(c: Chain, j: nat)
    requires Proper(c, j + 1)
    ensures WordAt(c, j) == Code(c.devs[|c.devs| - 1 - j])
  {
    var d, rest := c.devs[|c.devs| - 1 - j].idcode, Flat(Ids(c), |c.devs| - 1 - j);
    assert |d| == 32 && Code(c.devs[|c.devs| - 1 - j]) == Number(d) by { hide Number; }
    hide *;
    RowAt(c, j);
    WordFrom(c, j);
    WindowFirst(d, rest);
  }

  lemma RowAt(c: Chain, j: nat)
    requires Proper(c, j + 1)
    ensures
      var n, row := |c.devs|, Flat(Ids(c), |c.devs|);
      32 * j <= |row| && row[32 * j..] == c.devs[n - 1 - j].idcode + Flat(Ids(c), n - 1 - j)
  {
    var n := |c.devs|;
    IdsInRow(c, n, j);
    assert Ids(c)[n - 1 - j] == c.devs[n - 1 - j].idcode;
    hide *;
    FlatUnfold(Ids(c), n - j);
  }

  lemma WordFrom(c: Chain, j: nat)
    requires c.devs != [] && 32 * j <= |Flat(Ids(c), |c.devs|)|
    ensures WordBits(c, j) == Window(Flat(Ids(c), |c.devs|)[32 * j..], 0) && WordAt(c, j) == Number(WordBits(c, j))
  {
    hide Flat, Number;
    WindowFrom(Flat(Ids(c), |c.devs|), 32 * j);
  }

  /** Behind the last device there is no code. */
  lemma NoneBehind(c: Chain)
    requires Proper(c, |c.devs|)
    ensures !IsId(WordAt(c, |c.devs|))
  {
    var n := |c.devs|;
    IdsInRow(c, n, n);
    ZeroId(Repeat(false, 32));
    OnesId(Repeat(true, 32));
    assert Flat(Ids(c), 0) == [];
    hide Number, Flat, Ids, Window;
    if n > 0 {
      WordFrom(c, n);
      WindowFirst([], []);
    }
  }

  /** When all devices have proper codes, the detection finds all of them, and entry `k` of the record is the `k`-th
      from TDI. */
  lemma AllFound(c: Chain, n: nat, devices: seq<ChainParam>)
    requires Finds(c, n) && Records(c, n, devices) && |c.devs| <= 1000 && Proper(c, |c.devs|)
    requires forall k :: 0 <= k < |c.devs| ==> IsId(Code(c.devs[k]))
    ensures n == |c.devs| && forall k :: 0 <= k < n ==> devices[k].idcode == Code(c.devs[k])
  {
    hide WordAt, Code, IsId;
    NoneBehind(c);
    if n < |c.devs| { WordIs(c, n); }
    if n == |c.devs| {
      forall k | 0 <= k < n ensures devices[k].idcode == Code(c.devs[k]) { WordIs(c, n - 1 - k); }
    }
  }

  /** A device that selects BYPASS on reset takes one bit only: the word in its place is a zero and what belongs to the
      devices behind it, so that from there on no code is read as it is. */
  lemma BypassShifts(c: Chain, j: nat)
    requires Proper(c, j) && j < |c.devs| && c.devs[|c.devs| - 1 - j].idcode == [false]
    ensures WordBits(c, j) == [false] + Window(Flat(Ids(c), |c.devs| - 1 - j), 0)[..31] && WordAt(c, j) % 2 == 0
  {
    var n := |c.devs|;
    var rest := Flat(Ids(c), n - 1 - j);
    assert Ids(c)[n - j - 1] == [false];
    hide WordBits, WordAt, Window;
    FlatUnfold(Ids(c), n - j);
    IdsInRow(c, n, j);
    hide *;
    WordFrom(c, j);
    WindowFirst([false], rest);
    EvenWord(WordBits(c, j));
  }

  lemma EvenWord(w: seq<bool>)
    requires |w| == 32 && !w[0]
    ensures Number(w) % 2 == 0
  {
  }

  lemma FindsOnce(c: Chain, m: nat, n: nat)
    requires Finds(c, m) && Finds(c, n)
    ensures m == n
  {
  }
}
