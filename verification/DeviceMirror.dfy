/** The device manager and a client with the messages between them. The two sides and the wire take steps in any
    order; in particular the manager goes on reporting while the client waits for a device list. */
module DeviceMirror {
  import opened DeviceManager
  import opened FpgaClient

  /** Where a request of the client is: nowhere, on its way (for the device list, or for something else), or answered
      and the answer on its way. */
  datatype Phase = Idle | Asked | Called | Answered

  datatype World = World(
    deviceMap: map<UsbDevice, Device>,
    serialMap: map<string, Device>,
    devices: set<string>,     // of the client
    wire: seq<Message>,       // messages under way, in order
    phase: Phase)

  datatype Step = Plug(dev: UsbDevice, strings: Strings, ready: bool) | Unplug(dev: UsbDevice)
    | Poll(failing: set<string>)
    | Change(serial: string) | Request | Call | Answer | Reply | Deliver(n: nat)

  /** What each step does. Steps that cannot happen do nothing. `Answer` is the device list; `Reply` is any other
      answer, such as that to another request or an error. */
  ghost predicate StepTo(prefixes: seq<string>, w: World, step: Step, w': World) {
    match step
    case Plug(dev, strings, ready) =>
      if dev !in w.deviceMap && strings.Serial? && strings.serial !in w.serialMap
        && Described(strings.serial, prefixes) && ready
      then
        var d := Device(dev, strings.serial);
        w' == w.(deviceMap := w.deviceMap[dev := d], serialMap := w.serialMap[d.serial := d],
          wire := w.wire + [Added(d.serial)])
      else w' == w
    case Unplug(dev) =>
      if dev in w.deviceMap then
        var s := w.deviceMap[dev].serial;
        w' == w.(deviceMap := w.deviceMap - {dev}, serialMap := w.serialMap - {s}, wire := w.wire + [Removed(s)])
      else w' == w
    case Poll(failing) =>
      exists order :: Lists(order, w.serialMap.Keys * failing) && w' == w.(
        deviceMap := Without(w.deviceMap, failing), serialMap := w.serialMap - failing,
        wire := w.wire + Removals(order))
    case Change(serial) => w' == w.(wire := w.wire + [RegChanged(serial)])
    case Request => w' == if w.phase == Idle then w.(phase := Asked) else w
    case Answer =>
      if w.phase == Asked
      then exists list :: Lists(list, w.serialMap.Keys) && w' == w.(wire := w.wire + [List(list)], phase := Answered)
      else w' == w
    case Call => w' == if w.phase == Idle then w.(phase := Called) else w
    case Reply =>
      w' == if w.phase == Asked || w.phase == Called
        then w.(wire := w.wire + [Message.Answer], phase := Answered) else w
    case Deliver(n) =>
      if n <= |w.wire| then
        var chunk := w.wire[..n];
        w' == w.(wire := w.wire[n..], devices := Taken(w.devices, chunk),
          phase := if Answers(chunk) == [] then w.phase else Idle)
      else w' == w
  }

  /** What reading a chunk does to the client's devices, when it waits for the first answer in it if there is one. */
  function Taken(devices: set<string>, chunk: seq<Message>): set<string> {
    if Answers(chunk) != [] && Answers(chunk)[0].List? then Elements(Answers(chunk)[0].serials)
    else Effects(devices, chunk)
  }

  /** One answer is on the wire exactly while a request is answered, and if it is a device list it is right: with the
      events behind it, it gives the attached devices. */
  ghost predicate Sound(w: World) {
    if w.phase == Answered
    then |Answers(w.wire)| == 1 && (Answers(w.wire)[0].List? ==> Known({}, w.wire) == w.serialMap.Keys)
    else Answers(w.wire) == []
  }

  /** The client's devices and the messages under way together give the attached devices. */
  ghost predicate InStep(w: World) { Known(w.devices, w.wire) == w.serialMap.Keys }

  /** The step brings the client the device list it waits for. */
  predicate BringsList(w: World, step: Step) {
    step.Deliver? && step.n <= |w.wire| && Answers(w.wire[..step.n]) != [] && Answers(w.wire[..step.n])[0].List?
  }

  /** No event that came in the same chunk behind the list is lost: whatever it says of a device the list says too,
      unless a later message for the device is still under way. */
  ghost predicate Harmless(w: World, step: Step)
    requires BringsList(w, step)
  {
    var chunk, rest := w.wire[..step.n], w.wire[step.n..];
    Agree(Taken(w.devices, chunk), Behind(chunk), rest)
  }

  ghost predicate Agree(devices: set<string>, late: seq<Message>, rest: seq<Message>) {
    forall s :: FateOf(s, late) != Untouched && FateOf(s, rest) == Untouched ==>
      (FateOf(s, late) == Attached <==> s in devices)
  }

  /** The messages behind the first answer. */
  function Behind(ms: seq<Message>): seq<Message>
    requires Answers(ms) != []
  {
    if IsAnswer(ms[0]) then ms[1..] else Behind(ms[1..])
  }

  // ----- messages

  lemma {:induction false} KnownConcat(devices: set<string>, a: seq<Message>, b: seq<Message>)
    ensures Known(devices, a + b) == Known(Known(devices, a), b)
    decreases |a|
  {
    if a == [] {
      assert a + b == b;
    } else {
      assert (a + b)[1..] == a[1..] + b;
      KnownConcat(if a[0].List? then Elements(a[0].serials) else Effect(devices, a[0]), a[1..], b);
    }
  }

  predicate NoList(ms: seq<Message>) { forall k :: 0 <= k < |ms| ==> !ms[k].List? }

  lemma {:induction false} AnswersList(ms: seq<Message>)
    ensures Answers(ms) == [] ==> NoList(ms)
    ensures |Answers(ms)| == 1 && !Answers(ms)[0].List? ==> NoList(ms)
  {
    if ms != [] { AnswersList(ms[1..]); }
  }

  lemma {:induction false} KnownEvents(devices: set<string>, ms: seq<Message>)
    requires NoList(ms)
    ensures Known(devices, ms) == Effects(devices, ms)
    decreases |ms|
  {
    if ms != [] { KnownEvents(Effect(devices, ms[0]), ms[1..]); }
  }

  lemma {:induction false} AnswersConcat(a: seq<Message>, b: seq<Message>)
    ensures Answers(a + b) == Answers(a) + Answers(b)
  {
    if a == [] {
      assert a + b == b;
    } else {
      AnswersFirst(a);
      AnswersFirst(a + b);
      hide Answers;
      assert (a + b)[1..] == a[1..] + b;
      AnswersConcat(a[1..], b);
    }
  }

  lemma AnswersFirst(ms: seq<Message>)
    requires ms != []
    ensures Answers(ms) == if IsAnswer(ms[0]) then [ms[0]] + Answers(ms[1..]) else Answers(ms[1..])
  {
  }

  /** A device list overrides what the client knew before. */
  lemma {:induction false} ListOverrides(devices: set<string>, ms: seq<Message>)
    requires Answers(ms) != [] && Answers(ms)[0].List?
    ensures Known(devices, ms) == Known(Elements(Answers(ms)[0].serials), Behind(ms))
    decreases |ms|
  {
    if !IsAnswer(ms[0]) { ListOverrides(Effect(devices, ms[0]), ms[1..]); }
  }

  lemma {:induction false} AnswersBehind(ms: seq<Message>)
    requires Answers(ms) != []
    ensures Answers(Behind(ms)) == Answers(ms)[1..]
    decreases |ms|
  {
    if !IsAnswer(ms[0]) { AnswersBehind(ms[1..]); }
  }

  lemma {:induction false} RemovalsKnown(devices: set<string>, serials: seq<string>)
    ensures Known(devices, Removals(serials)) == devices - Elements(serials) && Answers(Removals(serials)) == []
  {
    if serials != [] {
      var n := |serials| - 1;
      RemovalsKnown(devices, serials[..n]);
      KnownConcat(devices, Removals(serials[..n]), [Removed(serials[n])]);
      AnswersConcat(Removals(serials[..n]), [Removed(serials[n])]);
      assert Elements(serials) == Elements(serials[..n]) + {serials[n]};
      OneEvent(devices - Elements(serials[..n]), Removed(serials[n]));
    }
  }

  lemma OneEvent(devices: set<string>, m: Message)
    requires !IsAnswer(m)
    ensures Known(devices, [m]) == Effect(devices, m) && Answers([m]) == []
  {
  }

  /** When the events `late` are lost, what is known in the end is still the same exactly when they agree with what
      was known before them. */
  lemma LostEvents(devices: set<string>, late: seq<Message>, rest: seq<Message>)
    ensures Effects(devices, rest) == Effects(Effects(devices, late), rest) <==> Agree(devices, late, rest)
  {
    hide Effects, FateOf;
    forall s
      ensures (s in Effects(devices, rest) <==> s in Effects(Effects(devices, late), rest)) <==>
        (FateOf(s, late) != Untouched && FateOf(s, rest) == Untouched ==>
          (FateOf(s, late) == Attached <==> s in devices))
    {
      EffectsByFate(devices, rest, s);
      EffectsByFate(Effects(devices, late), rest, s);
      EffectsByFate(devices, late, s);
    }
  }

  // ----- steps

  /** Messages of the manager keep the wire right, and keep the client in step. */
  lemma Reported(w: World, ms: seq<Message>, w': World)
    requires Sound(w) && Answers(ms) == [] && w'.phase == w.phase && w'.wire == w.wire + ms && w'.devices == w.devices
    requires w'.serialMap.Keys == Known(w.serialMap.Keys, ms)
    ensures Sound(w') && (InStep(w) ==> InStep(w'))
  {
    AnswersConcat(w.wire, ms);
    KnownConcat({}, w.wire, ms);
    KnownConcat(w.devices, w.wire, ms);
  }

  /** Every step of the manager and every request keeps the client in step, and an answer brings it back into step. */
  lemma ServerStep(prefixes: seq<string>, w: World, step: Step, w': World)
    requires Matching(w.deviceMap, w.serialMap) && Sound(w) && StepTo(prefixes, w, step, w') && !step.Deliver?
    ensures Sound(w') && (InStep(w) ==> InStep(w'))
  {
    hide Known, Answers, Removals, Lists;
    match step {
      case Plug(dev, strings, ready) =>
        if w' != w {
          OneEvent(w.serialMap.Keys, Added(strings.serial));
          Reported(w, [Added(strings.serial)], w');
        }
      case Unplug(dev) =>
        if w' != w {
          var s := w.deviceMap[dev].serial;
          OneEvent(w.serialMap.Keys, Removed(s));
          Reported(w, [Removed(s)], w');
        }
      case Poll(failing) =>
        var order :| Lists(order, w.serialMap.Keys * failing) && w' == w.(
          deviceMap := Without(w.deviceMap, failing), serialMap := w.serialMap - failing,
          wire := w.wire + Removals(order));
        RemovalsKnown(w.serialMap.Keys, order);
        ListedOnly(order, w.serialMap.Keys, failing);
        Reported(w, Removals(order), w');
      case Change(serial) =>
        OneEvent(w.serialMap.Keys, RegChanged(serial));
        Reported(w, [RegChanged(serial)], w');
      case Request =>
      case Call =>
      case Reply =>
        if w' != w { ReplySent(w, w'); }
      case Answer =>
        if w.phase == Asked {
          var list :| Lists(list, w.serialMap.Keys) && w' == w.(wire := w.wire + [List(list)], phase := Answered);
          ListSent(w, list, w');
        }
    }
  }

  lemma ListedOnly(order: seq<string>, keys: set<string>, failing: set<string>)
    requires Lists(order, keys * failing)
    ensures keys - Elements(order) == keys - failing
  {
  }

  lemma ReplySent(w: World, w': World)
    requires Answers(w.wire) == [] && w' == w.(wire := w.wire + [Message.Answer], phase := Answered)
    ensures Sound(w') && (InStep(w) <==> InStep(w'))
  {
    AnswersConcat(w.wire, [Message.Answer]);
    assert Answers([Message.Answer]) == [Message.Answer];
    KnownConcat(w.devices, w.wire, [Message.Answer]);
    assert Known(Known(w.devices, w.wire), [Message.Answer]) == Known(w.devices, w.wire);
  }

  lemma ListSent(w: World, list: seq<string>, w': World)
    requires Answers(w.wire) == [] && Lists(list, w.serialMap.Keys)
    requires w' == w.(wire := w.wire + [List(list)], phase := Answered)
    ensures Sound(w') && InStep(w')
  {
    AnswersConcat(w.wire, [List(list)]);
    assert Answers([List(list)]) == [List(list)];
    assert Elements(list) == w.serialMap.Keys;
    forall d: set<string> ensures Known(d, w'.wire) == w.serialMap.Keys {
      KnownConcat(d, w.wire, [List(list)]);
      assert Known(Known(d, w.wire), [List(list)]) == Known(Elements(list), []);
    }
  }

  /** Reading a chunk without the list changes nothing about being in step, whatever other answer it brings. */
  lemma DeliverEvents(prefixes: seq<string>, w: World, step: Step, w': World)
    requires Sound(w) && StepTo(prefixes, w, step, w') && step.Deliver? && !BringsList(w, step)
    ensures Sound(w') && (InStep(w') <==> InStep(w))
  {
    if step.n <= |w.wire| {
      var a, b := w.wire[..step.n], w.wire[step.n..];
      assert w.wire == a + b;
      AnswersConcat(a, b);
      AnswersList(a);
      KnownEvents(w.devices, a);
      KnownEvents({}, a);
      KnownConcat(w.devices, a, b);
      KnownConcat({}, a, b);
      if Answers(b) != [] && Answers(b)[0].List? {
        ListOverrides({}, b);
        ListOverrides(Effects({}, a), b);
      }
    }
  }

  /** Reading a chunk with the list leaves the client in step exactly when no event behind the list is lost. */
  lemma DeliverList(prefixes: seq<string>, w: World, step: Step, w': World)
    requires Sound(w) && StepTo(prefixes, w, step, w') && BringsList(w, step)
    ensures InStep(w) && Sound(w') && (InStep(w') <==> Harmless(w, step))
  {
    var a, b := w.wire[..step.n], w.wire[step.n..];
    assert w.wire == a + b;
    AnswersConcat(a, b);
    assert Answers(a) == Answers(w.wire) && Answers(b) == [];
    var list := Elements(Answers(a)[0].serials);
    ListOverrides(w.devices, a);
    ListOverrides({}, a);
    AnswersBehind(a);
    AnswersList(Behind(a));
    AnswersList(b);
    KnownConcat(w.devices, a, b);
    KnownConcat({}, a, b);
    KnownEvents(list, Behind(a));
    KnownEvents(list, b);
    KnownEvents(Effects(list, Behind(a)), b);
    LostEvents(list, Behind(a), b);
  }

  /** A chunk that ends with the list loses nothing. */
  lemma PromptList(w: World, step: Step)
    requires BringsList(w, step) && Behind(w.wire[..step.n]) == []
    ensures Harmless(w, step)
  {
  }

  /** A request that is answered puts the client back into step, however far it was out of it. */
  lemma AnswerRecovers(prefixes: seq<string>, w: World, w': World)
    requires Sound(w) && w.phase == Asked && StepTo(prefixes, w, Step.Answer, w')
    ensures InStep(w')
  {
    var list :| Lists(list, w.serialMap.Keys) && w' == w.(wire := w.wire + [List(list)], phase := Answered);
    ListSent(w, list, w');
  }

  // ----- runs

  ghost predicate IsRun(prefixes: seq<string>, trace: seq<World>, steps: seq<Step>) {
    |trace| == |steps| + 1 && forall i :: 0 <= i < |steps| ==> StepTo(prefixes, trace[i], steps[i], trace[i + 1])
  }

  /** The two maps stay in one-to-one agreement. */
  lemma StepMatches(prefixes: seq<string>, w: World, step: Step, w': World)
    requires Matching(w.deviceMap, w.serialMap) && StepTo(prefixes, w, step, w')
    ensures Matching(w'.deviceMap, w'.serialMap)
  {
  }

  /** One step, of whatever kind. */
  lemma OneStep(prefixes: seq<string>, w: World, step: Step, w': World)
    requires Matching(w.deviceMap, w.serialMap) && Sound(w) && StepTo(prefixes, w, step, w')
    ensures Matching(w'.deviceMap, w'.serialMap) && Sound(w')
    ensures BringsList(w, step) ==> (InStep(w') <==> Harmless(w, step))
    ensures InStep(w) && !BringsList(w, step) ==> InStep(w')
  {
    StepMatches(prefixes, w, step, w');
    if !step.Deliver? {
      ServerStep(prefixes, w, step, w');
    } else if BringsList(w, step) {
      DeliverList(prefixes, w, step, w');
    } else {
      DeliverEvents(prefixes, w, step, w');
    }
  }

  /** In every run, however the steps interleave, the client is in step at all times exactly when it starts in step
      and no list comes with events behind it that are lost. */
  lemma {:induction false} RunInStep(prefixes: seq<string>, trace: seq<World>, steps: seq<Step>)
    requires IsRun(prefixes, trace, steps) && Matching(trace[0].deviceMap, trace[0].serialMap) && Sound(trace[0])
    ensures forall i :: 0 <= i < |trace| ==> Matching(trace[i].deviceMap, trace[i].serialMap) && Sound(trace[i])
    ensures (forall i :: 0 <= i < |trace| ==> InStep(trace[i])) <==>
      InStep(trace[0]) && forall i :: 0 <= i < |steps| && BringsList(trace[i], steps[i]) ==>
        Harmless(trace[i], steps[i])
  {
    hide StepTo, Matching, Sound, InStep, BringsList, Harmless;
    if steps != [] {
      var n := |steps| - 1;
      RunInStep(prefixes, trace[..n + 1], steps[..n]);
      assert trace[..n + 1][n] == trace[n];
      OneStep(prefixes, trace[n], steps[n], trace[n + 1]);
    }
  }

  class DeviceMirror {
    const manager: DeviceManager
    const client: FpgaClient
    var wire: seq<Message>
    var phase: Phase

    ghost function State(): World
      reads this, manager, client
    {
      World(manager.deviceMap, manager.serialMap, client.devices, wire, phase)
    }

    ghost predicate Valid()
      reads this, manager, client
    {
      manager.Valid() && client.answers == [] && Sound(State())
    }

    /** A client connects to a manager that may have devices already. */
    constructor (manager: DeviceManager)
      requires manager.Valid()
      ensures Valid() && this.manager == manager && fresh(client) && wire == [] && phase == Idle && client.devices == {}
    {
      this.manager := manager;
      client := new FpgaClient();
      wire, phase := [], Idle;
    }

    /** Any interleaving of hot-plug events, failing devices, register changes, requests, answers and deliveries.
        `trace` are the states that the run goes through. The two sides are in step in all of them exactly when they
        start in step and no event is lost behind a device list; whenever nothing is under way they then have the same
        devices. */
    method Run(steps: seq<Step>) returns (ghost trace: seq<World>)
      requires Valid()
      modifies this, manager, client
      ensures Valid() && IsRun(manager.prefixes, trace, steps)
      ensures trace[0] == old(State()) && trace[|steps|] == State()
      ensures (forall i :: 0 <= i < |trace| ==> InStep(trace[i])) <==>
        InStep(trace[0]) && forall i :: 0 <= i < |steps| && BringsList(trace[i], steps[i]) ==>
          Harmless(trace[i], steps[i])
      ensures InStep(State()) && wire == [] ==> client.devices == manager.serialMap.Keys
    {
      hide StepTo, Sound, BringsList, Harmless;
      trace := [State()];
      for i := 0 to |steps|
        invariant Valid() && |trace| == i + 1 && trace[0] == old(State()) && trace[i] == State()
        invariant forall k :: 0 <= k < i ==> StepTo(manager.prefixes, trace[k], steps[k], trace[k + 1])
      {
        Take(steps[i]);
        trace := trace + [State()];
      }
      RunInStep(manager.prefixes, trace, steps);
    }

    method Take(step: Step)
      requires Valid()
      modifies this, manager, client
      ensures Valid() && StepTo(manager.prefixes, old(State()), step, State())
    {
      ghost var w := State();
      hide Sound, Matching, InStep, BringsList, Harmless;
      match step {
        case Plug(dev, strings, ready) =>
          var n := |manager.reported|;
          manager.UsbDeviceAdded(dev, strings, ready);
          wire := wire + manager.reported[n..];
        case Unplug(dev) =>
          var n := |manager.reported|;
          manager.UsbDeviceRemoved(dev);
          wire := wire + manager.reported[n..];
        case Poll(failing) =>
          var n := |manager.reported|;
          ghost var order := manager.PeriodicRegisterUpdates(failing);
          wire := wire + manager.reported[n..];
        case Change(serial) =>
          wire := wire + [RegChanged(serial)];
        case Request =>
          if phase == Idle { phase := Asked; }
        case Answer =>
          if phase == Asked { SendList(); }
        case Call =>
          if phase == Idle { phase := Called; }
        case Reply =>
          if phase == Asked || phase == Called { wire, phase := wire + [Message.Answer], Answered; }
        case Deliver(n) =>
          if n <= |wire| { Read(n); }
      }
      OneStep(manager.prefixes, w, step, State());
    }

    method SendList()
      requires Valid() && phase == Asked
      modifies this
      ensures StepTo(manager.prefixes, old(State()), Step.Answer, State())
    {
      var list := manager.GetDeviceList();
      wire := wire + [List(list)];
      phase := Answered;
    }

    /** The client reads the first `n` messages, and the answer that it waits for when that is among them. */
    method Read(n: nat)
      requires Valid() && n <= |wire|
      modifies this, client
      ensures client.answers == [] && StepTo(manager.prefixes, old(State()), Deliver(n), State())
    {
      assert wire == wire[..n] + wire[n..];
      AnswersConcat(wire[..n], wire[n..]);
      client.ParseData(wire[..n]);
      wire := wire[n..];
      if phase != Idle && client.answers != [] {
        var ok := client.TakeAnswer();
        phase := Idle;
      }
    }
  }

  // ----- late events, on the client's own method

  /** Refresh the list from chunks of which the last has events behind the list: the client then has what all messages
      together say exactly when the last event for every device that those events touch agrees with the list. */
  method LateEvents(client: FpgaClient, chunks: seq<seq<Message>>, before: seq<Message>, list: seq<string>,
                    late: seq<Message>)
    requires client.answers == [] && Answers(before) == [] && Answers(late) == []
    requires forall k :: 0 <= k < |chunks| ==> Answers(chunks[k]) == []
    modifies client
    ensures client.devices == Elements(list)
    ensures client.devices == Known(old(client.devices), Joined(chunks) + (before + [List(list)] + late)) <==>
      forall s :: FateOf(s, late) != Untouched ==> (FateOf(s, late) == Attached <==> s in list)
  {
    var last := before + [List(list)] + late;
    FirstAndOnly(before, list, late);
    ghost var start, all := client.devices, chunks + [last];
    assert FirstAnswer(all, |chunks|);
    var ok, taken := client.GetDeviceList(chunks + [last]);
    KnownConcat(start, Joined(chunks), last);
    ListOverrides(Known(start, Joined(chunks)), last);
    AnswersList(late);
    KnownEvents(Elements(list), late);
    LostEvents(Elements(list), late, []);
  }

  lemma FirstAndOnly(before: seq<Message>, list: seq<string>, late: seq<Message>)
    requires Answers(before) == [] && Answers(late) == []
    ensures Answers(before + [List(list)] + late) == [List(list)] && Behind(before + [List(list)] + late) == late
  {
    AnswersConcat(before + [List(list)], late);
    AnswersConcat(before, [List(list)]);
    BehindConcat(before, [List(list)] + late);
    assert before + [List(list)] + late == before + ([List(list)] + late);
  }

  lemma {:induction false} BehindConcat(a: seq<Message>, b: seq<Message>)
    requires Answers(a) == [] && Answers(b) != []
    ensures Answers(a + b) != [] && Behind(a + b) == Behind(b)
  {
    AnswersConcat(a, b);
    if a == [] {
      assert a + b == b;
    } else {
      assert (a + b)[1..] == a[1..] + b;
      BehindConcat(a[1..], b);
    }
  }

  /** A run at whose end nothing is under way and the client does not know a device that is attached: the device was
      plugged in behind the answer and both came in one chunk. */
  method LateAdded(dev: UsbDevice, serial: string) returns (m: DeviceMirror)
    ensures m.Valid() && m.wire == [] && m.phase == Idle
    ensures m.client.devices == {} && m.manager.serialMap.Keys == {serial}
  {
    var manager := new DeviceManager([serial]);
    m := new DeviceMirror(manager);
    ghost var trace := m.Run(LateSteps(dev, serial));
    LateWorlds(dev, serial, trace);
  }

  function LateSteps(dev: UsbDevice, serial: string): seq<Step> {
    [Request, Step.Answer, Plug(dev, Serial(serial), true), Deliver(2)]
  }

  lemma LateWorlds(dev: UsbDevice, serial: string, trace: seq<World>)
    requires IsRun([serial], trace, LateSteps(dev, serial)) && trace[0] == World(map[], map[], {}, [], Idle)
    ensures var w := trace[4]; w.wire == [] && w.phase == Idle && w.devices == {} && w.serialMap.Keys == {serial}
  {
    var steps := LateSteps(dev, serial);
    assert StepTo([serial], trace[0], steps[0], trace[1]) && StepTo([serial], trace[1], steps[1], trace[2]);
    assert StepTo([serial], trace[2], steps[2], trace[3]) && StepTo([serial], trace[3], steps[3], trace[4]);
    var list :| Lists(list, {}) && trace[2] == trace[1].(wire := [] + [List(list)], phase := Answered);
    assert list == [] && [] + [List(list)] == [List([])];
    assert [serial][0] <= serial && Described(serial, [serial]);
    assert trace[3].wire == [List([]), Added(serial)];
    assert trace[3].wire[..2] == trace[3].wire;
    assert Answers([List([]), Added(serial)]) == [List([])] by { assert Answers([Added(serial)]) == []; }
  }
}
