/** The TAP controller of section 6.1 of IEEE Std 1149.1, and the route that `Jtag::setTapState` takes through it. */
module Tap {
  import opened Bits

  datatype Phase = Capture | Shift | Exit1 | Pause | Exit2 | Update

  /** The sixteen controller states; `Dr(p)` and `Ir(p)` are the two scan columns. */
  datatype TapState =
    | TestLogicReset
    | RunTestIdle
    | SelectDrScan
    | SelectIrScan
    | Dr(phase: Phase)
    | Ir(phase: Phase)

  /** What `Jtag::current_state` holds: a state, or UNKNOWN before the first reset. */
  datatype Tracked = Unknown | Known(state: TapState)

  /** One TCK cycle as the target sees it. */
  datatype Edge = Edge(tms: bool, tdi: bool)

  // ----- the standard's controller

  function TapStep(s: TapState, tms: bool): TapState {
    match s
    case TestLogicReset => if tms then TestLogicReset else RunTestIdle
    case RunTestIdle => if tms then SelectDrScan else RunTestIdle
    case SelectDrScan => if tms then SelectIrScan else Dr(Capture)
    case SelectIrScan => if tms then TestLogicReset else Ir(Capture)
    case Dr(Update) => if tms then SelectDrScan else RunTestIdle
    case Ir(Update) => if tms then SelectDrScan else RunTestIdle
    case Dr(p) => Dr(PhaseStep(p, tms))
    case Ir(p) => Ir(PhaseStep(p, tms))
  }

  function PhaseStep(p: Phase, tms: bool): Phase
    requires p != Update
  {
    match p
    case Capture => if tms then Exit1 else Shift
    case Shift => if tms then Exit1 else Shift
    case Exit1 => if tms then Update else Pause
    case Pause => if tms then Exit2 else Pause
    case Exit2 => if tms then Update else Shift
  }

  function TapRun(s: TapState, e: seq<Edge>): TapState {
    if e == [] then s else TapStep(TapRun(s, e[..|e| - 1]), e[|e| - 1].tms)
  }

  /** Five TCK cycles with TMS high reset the controller from anywhere (section 6.1.1.2). */
  lemma FiveOnesReset(s: TapState, e: seq<Edge>)
    requires |e| >= 5 && forall i :: |e| - 5 <= i < |e| ==> e[i].tms
    ensures TapRun(s, e) == TestLogicReset
  {
    var n := |e|;
    assert e[..n - 1][..n - 2] == e[..n - 2];
    assert e[..n - 2][..n - 3] == e[..n - 3];
    assert e[..n - 3][..n - 4] == e[..n - 4];
    assert e[..n - 4][..n - 5] == e[..n - 5];
    var s1 := TapRun(s, e[..n - 5]);
    assert TapRun(s, e[..n - 4]) == TapStep(s1, true);
    assert TapRun(s, e[..n - 3]) == TapStep(TapStep(s1, true), true);
    assert TapRun(s, e[..n - 2]) == TapStep(TapStep(TapStep(s1, true), true), true);
  }

  lemma {:induction false} TapRunConcat(s: TapState, a: seq<Edge>, b: seq<Edge>)
    ensures TapRun(s, a + b) == TapRun(TapRun(s, a), b)
  {
    if b == [] {
      assert a + b == a;
    } else {
      assert (a + b)[..|a + b| - 1] == a + b[..|b| - 1];
      TapRunConcat(s, a, b[..|b| - 1]);
    }
  }

  /** States that the controller stays in while TMS is held, and the TMS level that holds it there. */
  predicate Stable(s: TapState) {
    s in {TestLogicReset, RunTestIdle, Dr(Shift), Dr(Pause), Ir(Shift), Ir(Pause)}
  }

  /** The level of TMS on the clock that entered a stable state is the level that stays in it. */
  lemma HeldLevel(s: TapState, e: seq<Edge>)
    requires e != [] && Stable(TapRun(s, e))
    ensures e[|e| - 1].tms <==> TapRun(s, e) == TestLogicReset
  {
  }

  /** Holding TMS at its last level keeps the controller where it is exactly in the stable states. */
  lemma {:induction false} HeldRun(s: TapState, e: seq<Edge>, held: seq<Edge>)
    requires e != []
    requires forall i :: 0 <= i < |held| ==> held[i].tms == e[|e| - 1].tms
    ensures TapRun(s, e + held) == TapRun(s, e) <==> held == [] || Stable(TapRun(s, e))
    ensures held != [] && !Stable(TapRun(s, e)) ==>
      TapRun(s, e + held) != TapRun(s, e) && HeldAway(TapRun(s, e), TapRun(s, e + held))
  {
    var n := |held|;
    if n == 0 {
      assert e + held == e;
    } else {
      assert (e + held)[..|e + held| - 1] == e + held[..n - 1];
      HeldRun(s, e, held[..n - 1]);
      if n == 1 { assert held[..0] == [] && e + held[..0] == e; }
    }
  }

  /** `b` lies ahead of `a` on the way the controller drifts when TMS is held after entering `a`. */
  predicate HeldAway(a: TapState, b: TapState) {
    match a
    case SelectDrScan => b in {SelectIrScan, TestLogicReset}
    case SelectIrScan => b == TestLogicReset
    case Dr(Capture) => b == Dr(Shift)
    case Ir(Capture) => b == Ir(Shift)
    case Dr(Exit1) => b in {Dr(Update), SelectDrScan, SelectIrScan, TestLogicReset}
    case Ir(Exit1) => b in {Ir(Update), SelectDrScan, SelectIrScan, TestLogicReset}
    case Dr(Exit2) => b in {Dr(Update), SelectDrScan, SelectIrScan, TestLogicReset}
    case Ir(Exit2) => b in {Ir(Update), SelectDrScan, SelectIrScan, TestLogicReset}
    case Dr(Update) => b in {SelectDrScan, SelectIrScan, TestLogicReset}
    case Ir(Update) => b in {SelectDrScan, SelectIrScan, TestLogicReset}
    case _ => false
  }

  // ----- the driver's route

  /** One turn of the switch in `Jtag::setTapState`: the TMS bit it emits and the state it records. */
  function Move(c: TapState, target: TapState): (bool, TapState)
    requires c != target
  {
    match c
    case TestLogicReset => (false, RunTestIdle)
    case RunTestIdle => (true, SelectDrScan)
    case SelectDrScan => if target.Dr? then (false, Dr(Capture)) else (true, SelectIrScan)
    case SelectIrScan => if target.Ir? then (false, Ir(Capture)) else (true, TestLogicReset)
    case Dr(Capture) => if target == Dr(Shift) then (false, Dr(Shift)) else (true, Dr(Exit1))
    case Dr(Shift) => (true, Dr(Exit1))
    case Dr(Exit1) => if target in {Dr(Pause), Dr(Exit2), Dr(Shift)} then (false, Dr(Pause)) else (true, Dr(Update))
    case Dr(Pause) => (true, Dr(Exit2))
    case Dr(Exit2) => if target in {Dr(Shift), Dr(Exit1), Dr(Pause)} then (false, Dr(Shift)) else (true, Dr(Update))
    case Dr(Update) => if target == RunTestIdle then (false, RunTestIdle) else (true, SelectDrScan)
    case Ir(Capture) => if target == Ir(Shift) then (false, Ir(Shift)) else (true, Ir(Exit1))
    case Ir(Shift) => (true, Ir(Exit1))
    case Ir(Exit1) => if target in {Ir(Pause), Ir(Exit2), Ir(Shift)} then (false, Ir(Pause)) else (true, Ir(Update))
    case Ir(Pause) => (true, Ir(Exit2))
    case Ir(Exit2) => if target in {Ir(Shift), Ir(Exit1), Ir(Pause)} then (false, Ir(Shift)) else (true, Ir(Update))
    case Ir(Update) => if target == RunTestIdle then (false, RunTestIdle) else (true, SelectDrScan)
  }

  /** Every recorded move is the standard's move for the emitted TMS bit. */
  lemma MoveIsStandard(c: TapState, target: TapState)
    requires c != target
    ensures TapStep(c, Move(c, target).0) == Move(c, target).1
  {
  }

  // A bound on the moves left: the route first leaves the wrong column, then runs round the outer ring to the
  // gate of the target, then goes down the target's column.

  function Rank(c: TapState, target: TapState): nat {
    if c == target then 0
    else match c
      case Dr(p) => if target.Dr? then InColumn(p, target.phase) else 20 + Leave(p)
      case Ir(p) => if target.Ir? then InColumn(p, target.phase) else 20 + Leave(p)
      case _ => 10 + (Ring(Gate(target)) + 4 - Ring(c)) % 4
  }

  function Leave(p: Phase): nat {
    match p case Capture | Shift | Pause => 2 case Exit1 | Exit2 => 1 case Update => 0
  }

  function InColumn(p: Phase, target: Phase): nat {
    if target == Capture || p == Update then 20 + Leave(p)
    else match target
      case Shift => if p == Exit1 then 3 else if p == Pause then 2 else 1
      case Exit1 => if p == Pause then 3 else if p == Exit2 then 2 else 1
      case Pause => if p == Exit2 then 3 else if p == Exit1 then 1 else 2
      case Exit2 => if p == Pause then 1 else if p == Exit1 then 2 else 3
      case _ => Leave(p)
  }

  function Ring(c: TapState): nat {
    match c case TestLogicReset => 0 case RunTestIdle => 1 case SelectDrScan => 2 case _ => 3
  }

  function Gate(target: TapState): TapState {
    match target case Dr(_) => SelectDrScan case Ir(_) => SelectIrScan case _ => target
  }

  lemma MoveDescends(c: TapState, target: TapState)
    requires c != target
    ensures Rank(Move(c, target).1, target) < Rank(c, target)
  {
    if c.Dr? && target.Dr? {
      MoveDescendsDr(c, target);
    } else if c.Ir? && target.Ir? {
      MoveDescendsIr(c, target);
    } else if c.Dr? || c.Ir? {
      LeavesColumn(c, target);
    } else {
      MoveDescendsRing(c, target);
    }
  }

  lemma LeavesColumn(c: TapState, target: TapState)
    requires (c.Dr? && !target.Dr?) || (c.Ir? && !target.Ir?)
    ensures Rank(Move(c, target).1, target) < Rank(c, target)
  {
  }

  /** Outside the columns. */
  lemma MoveDescendsRing(c: TapState, target: TapState)
    requires c != target && !c.Dr? && !c.Ir?
    ensures Rank(Move(c, target).1, target) < Rank(c, target)
  {
  }

  lemma MoveDescendsDr(c: TapState, target: TapState)
    requires c != target && c.Dr? && target.Dr?
    ensures Rank(Move(c, target).1, target) < Rank(c, target)
  {
    match c.phase
    case Capture =>
    case Shift =>
    case Exit1 => if target.phase == Shift {} else if target.phase == Pause {}
    case Pause => if target.phase == Exit1 {} else if target.phase == Shift {}
    case Exit2 => if target.phase == Shift {} else if target.phase == Pause {}
    case Update =>
  }

  lemma MoveDescendsIr(c: TapState, target: TapState)
    requires c != target && c.Ir? && target.Ir?
    ensures Rank(Move(c, target).1, target) < Rank(c, target)
  {
    match c.phase
    case Capture =>
    case Shift =>
    case Exit1 => if target.phase == Shift {} else if target.phase == Pause {}
    case Pause => if target.phase == Exit1 {} else if target.phase == Shift {}
    case Exit2 => if target.phase == Shift {} else if target.phase == Pause {}
    case Update =>
  }

  /** The TMS bits `setTapState` emits between two known states. */
  function Route(c: TapState, target: TapState): seq<bool>
    decreases Rank(c, target)
  {
    if c == target then []
    else
      MoveDescends(c, target);
      [Move(c, target).0] + Route(Move(c, target).1, target)
  }

  /** TMS moves carry TDI high (tx_tms sets bit 7 of the data byte). */
  function Moves(tms: seq<bool>): (r: seq<Edge>)
    ensures |r| == |tms| && forall i :: 0 <= i < |tms| ==> r[i] == Edge(tms[i], true)
  {
    seq(|tms|, i requires 0 <= i < |tms| => Edge(tms[i], true))
  }

  /** The route ends in the state asked for, whatever the pair of states. */
  lemma {:induction false} RouteArrives(c: TapState, target: TapState)
    ensures TapRun(c, Moves(Route(c, target))) == target
    decreases Rank(c, target)
  {
    if c != target {
      MoveDescends(c, target);
      MoveIsStandard(c, target);
      RouteArrives(Move(c, target).1, target);
      MoveFirst(c, Move(c, target).0, Route(Move(c, target).1, target));
    }
  }

  lemma MoveFirst(c: TapState, tms: bool, rest: seq<bool>)
    ensures TapRun(c, Moves([tms] + rest)) == TapRun(TapStep(c, tms), Moves(rest))
  {
    var first := [Edge(tms, true)];
    assert Moves([tms] + rest) == first + Moves(rest);
    TapRunConcat(c, first, Moves(rest));
    assert first[..0] == [];
  }

  // ----- agreement of the recorded state with the controller

  /** Whatever state the controller was in before, the clocks `e` leave it in `s`. */
  ghost predicate Settles(e: seq<Edge>, s: TapState) {
    forall start: TapState :: TapRun(start, e) == s
  }

  lemma SettlesThen(e: seq<Edge>, s: TapState, more: seq<Edge>)
    requires Settles(e, s)
    ensures Settles(e + more, TapRun(s, more))
  {
    forall start: TapState ensures TapRun(start, e + more) == TapRun(s, more) {
      TapRunConcat(start, e, more);
    }
  }

  lemma SettlesOnce(e: seq<Edge>, s: TapState, t: TapState)
    requires Settles(e, s) && Settles(e, t)
    ensures s == t && e != []
  {
    assert TapRun(TestLogicReset, e) == s == t;
    assert TapRun(RunTestIdle, e) == s;
  }

  /** The recorded state is right, once there is one. */
  ghost predicate Tracks(e: seq<Edge>, c: Tracked) {
    c.Known? ==> Settles(e, c.state)
  }

  /** TMS bits that `setTapState` emits; from UNKNOWN it resets first, with one extra clock. */
  function Plan(c: Tracked, target: TapState): seq<bool> {
    if c.Unknown? then Repeat(true, 6) + Route(TestLogicReset, target) else Route(c.state, target)
  }

  lemma ResetSettles(e: seq<Edge>, n: nat)
    requires n >= 5
    ensures Settles(e + Moves(Repeat(true, n)), TestLogicReset)
  {
    var ones := e + Moves(Repeat(true, n));
    forall start: TapState ensures TapRun(start, ones) == TestLogicReset { FiveOnesReset(start, ones); }
  }

  lemma PlanArrives(e: seq<Edge>, c: Tracked, target: TapState)
    requires Tracks(e, c)
    ensures Settles(e + Moves(Plan(c, target)), target)
  {
    hide Route, TapStep, TapRun;
    if c.Known? {
      RouteArrives(c.state, target);
      SettlesThen(e, c.state, Moves(Plan(c, target)));
    } else {
      var ones := e + Moves(Repeat(true, 6));
      ResetSettles(e, 6);
      RouteArrives(TestLogicReset, target);
      SettlesThen(ones, TestLogicReset, Moves(Route(TestLogicReset, target)));
      assert ones + Moves(Route(TestLogicReset, target)) == e + Moves(Plan(c, target));
    }
  }

  /** States that TMS low holds. */
  predicate HeldLow(s: TapState) {
    s in {RunTestIdle, Dr(Shift), Dr(Pause), Ir(Shift), Ir(Pause)}
  }

  /** A run of clocks with TMS low. */
  lemma {:induction false} LowRun(s: TapState, e: seq<Edge>)
    requires HeldLow(s) && forall i :: 0 <= i < |e| ==> !e[i].tms
    ensures TapRun(s, e) == s
  {
    if e != [] { LowRun(s, e[..|e| - 1]); }
  }

  // ----- a missing last clock

  /** Where the controller ends when it takes the moves planned for `c` while it is really in `a`. */
  function Astray(c: TapState, a: TapState, target: TapState): TapState
    decreases Rank(c, target)
  {
    if c == target then a
    else
      MoveDescends(c, target);
      Astray(Move(c, target).1, TapStep(a, Move(c, target).0), target)
  }

  lemma {:induction false} AstrayRun(c: TapState, a: TapState, target: TapState)
    ensures TapRun(a, Moves(Route(c, target))) == Astray(c, a, target)
    decreases Rank(c, target)
  {
    if c != target {
      MoveDescends(c, target);
      var (tms, next) := Move(c, target);
      AstrayRun(next, TapStep(a, tms), target);
      MoveFirst(a, tms, Route(next, target));
    }
  }

  /** When the clock that leaves a Shift state is missing, no choice of next state repairs the difference. */
  lemma MissedClock(s: TapState, target: TapState)
    requires s in {Dr(Shift), Ir(Shift)}
    ensures Astray(if s.Dr? then Dr(Exit1) else Ir(Exit1), s, target) != target
  {
    match target
    case TestLogicReset =>
    case RunTestIdle =>
    case SelectDrScan =>
    case SelectIrScan =>
    case Dr(p) => if s.Dr? { MissedClockSame(s, p); } else { MissedIrClock(p); }
    case Ir(p) => if s.Ir? { MissedClockSame(s, p); } else { MissedDrClock(p); }
  }

  lemma MissedClockSame(s: TapState, p: Phase)
    requires s in {Dr(Shift), Ir(Shift)}
    ensures s.Dr? ==> Astray(Dr(Exit1), s, Dr(p)) != Dr(p)
    ensures s.Ir? ==> Astray(Ir(Exit1), s, Ir(p)) != Ir(p)
  {
    match p
    case Capture =>
    case Shift =>
    case Exit1 =>
    case Pause =>
    case Exit2 =>
    case Update =>
  }

  lemma MissedDrClock(p: Phase)
    ensures Astray(Dr(Exit1), Dr(Shift), Ir(p)) != Ir(p)
  {
    match p
    case Capture =>
    case Shift =>
    case Exit1 =>
    case Pause =>
    case Exit2 =>
    case Update =>
  }

  lemma MissedIrClock(p: Phase)
    ensures Astray(Ir(Exit1), Ir(Shift), Dr(p)) != Dr(p)
  {
    match p
    case Capture =>
    case Shift =>
    case Exit1 =>
    case Pause =>
    case Exit2 =>
    case Update =>
  }
}
