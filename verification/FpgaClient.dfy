/** The client's mirror of the attached devices (FpgaClientBase.py), fed by the messages of the device manager. */
module FpgaClient {
  import opened DeviceManager

  /** What an event does to the set of devices; answers and register changes do nothing. */
  function Effect(devices: set<string>, m: Message): set<string> {
    match m
    case Added(s) => devices + {s}
    case Removed(s) => devices - {s}
    case _ => devices
  }

  function Effects(devices: set<string>, ms: seq<Message>): set<string>
    decreases |ms|
  {
    if ms == [] then devices else Effects(Effect(devices, ms[0]), ms[1..])
  }

  function Elements(list: seq<string>): set<string> { set s | s in list }

  /** What a client will know once it has taken in all messages, if a device list counts where it stands. */
  function Known(devices: set<string>, ms: seq<Message>): set<string>
    decreases |ms|
  {
    if ms == [] then devices
    else if ms[0].List? then Known(Elements(ms[0].serials), ms[1..])
    else Known(Effect(devices, ms[0]), ms[1..])
  }

  predicate IsAnswer(m: Message) { m.List? || m.Answer? }

  function Answers(ms: seq<Message>): seq<Message> {
    if ms == [] then [] else (if IsAnswer(ms[0]) then [ms[0]] else []) + Answers(ms[1..])
  }

  class FpgaClient {
    var answers: seq<Message>
    var devices: set<string>

    constructor ()
      ensures answers == [] && devices == {}
    {
      answers, devices := [], {};
    }

    /** Take in messages: answers wait, events take effect at once. */
    method ParseData(packets: seq<Message>)
      modifies this
      ensures answers == old(answers) + Answers(packets) && devices == Effects(old(devices), packets)
    {
      for i := 0 to |packets|
        invariant answers + Answers(packets[i..]) == old(answers) + Answers(packets)
        invariant Effects(devices, packets[i..]) == Effects(old(devices), packets)
      {
        ghost var rest := packets[i..];
        assert rest[0] == packets[i] && rest[1..] == packets[i + 1..];
        match packets[i] {
          case List(_) | Answer =>
            answers := answers + [packets[i]];
          case Added(serial) =>
            HandleAdded(serial);
          case Removed(serial) =>
            HandleRemoved(serial);
          case RegChanged(_) | Unknown =>
        }
      }
      assert packets[|packets|..] == [];
    }

    method HandleAdded(serial: string)
      modifies this`devices
      ensures devices == old(devices) + {serial}
    {
      if serial in devices { return; }
      devices := devices + {serial};
    }

    method HandleRemoved(serial: string)
      modifies this`devices
      ensures devices == old(devices) - {serial}
    {
      if serial !in devices { return; }
      devices := devices - {serial};
    }

    /** Add what is missing of a device list and remove what is not in it. */
    method HandleDeviceListChanges(list: seq<string>)
      modifies this`devices
      ensures devices == Elements(list)
    {
      for i := 0 to |list|
        invariant old(devices) <= devices <= old(devices) + Elements(list) && forall k :: 0 <= k < i ==>
          list[k] in devices
      {
        if list[i] !in devices {
          HandleAdded(list[i]);
        }
      }
      var left := devices;
      while left != {}
        invariant left <= devices && Elements(list) <= devices && forall s :: s in devices ==> s in left || s in list
        decreases left
      {
        var serial :| serial in left;
        left := left - {serial};
        if serial !in list {
          HandleRemoved(serial);
        }
      }
    }

    /** The answer that waited longest; a device list takes effect, any other answer is an error here. */
    method TakeAnswer() returns (ok: bool)
      requires answers != []
      modifies this
      ensures ok == old(answers)[0].List? && answers == old(answers)[1..]
      ensures devices == if ok then Elements(old(answers)[0].serials) else old(devices)
    {
      var packet := answers[0];
      answers := answers[1..];
      if !packet.List? { return false; }
      HandleDeviceListChanges(packet.serials);
      return true;
    }

    /** Ask for the device list. Unless an answer waits already, `chunks` of data are read until there is one; `taken`
        is how many. A list takes effect after everything else that was read. */
    method GetDeviceList(chunks: seq<seq<Message>>) returns (ok: bool, taken: nat)
      requires answers != [] || exists i :: 0 <= i < |chunks| && FirstAnswer(chunks, i)
      modifies this
      ensures if old(answers) != [] then taken == 0 else 0 < taken <= |chunks| && FirstAnswer(chunks, taken - 1)
      ensures var all := old(answers) + if taken == 0 then [] else Answers(chunks[taken - 1]);
        && all != [] && ok == all[0].List? && answers == all[1..]
        && devices == if ok then Elements(all[0].serials) else Effects(old(devices), Joined(chunks[..taken]))
    {
      taken := WaitForAnswer(chunks);
      ok := TakeAnswer();
    }

    /** The loop that reads chunks until an answer waits. */
    method WaitForAnswer(chunks: seq<seq<Message>>) returns (taken: nat)
      requires answers != [] || exists i :: 0 <= i < |chunks| && FirstAnswer(chunks, i)
      modifies this
      ensures if old(answers) != [] then taken == 0 else 0 < taken <= |chunks| && FirstAnswer(chunks, taken - 1)
      ensures answers != [] && answers == old(answers) + if taken == 0 then [] else Answers(chunks[taken - 1])
      ensures taken <= |chunks| && devices == Effects(old(devices), Joined(chunks[..taken]))
    {
      hide Effects, Answers, Joined;
      taken := 0;
      NoChunk(devices, chunks);
      while answers == []
        invariant 0 <= taken <= |chunks| && (old(answers) != [] ==> taken == 0)
        invariant forall i :: 0 <= i < taken - 1 ==> Answers(chunks[i]) == []
        invariant if taken == 0 then answers == old(answers) else answers == Answers(chunks[taken - 1])
        invariant devices == Effects(old(devices), Joined(chunks[..taken]))
        invariant old(answers) == [] ==> exists i :: 0 <= i < |chunks| && FirstAnswer(chunks, i)
        decreases |chunks| - taken
      {
        NextChunk(old(devices), chunks, taken);
        ParseData(chunks[taken]);
        taken := taken + 1;
      }
    }
  }

  lemma NoChunk(devices: set<string>, chunks: seq<seq<Message>>)
    ensures Effects(devices, Joined(chunks[..0])) == devices
  {
  }

  lemma NextChunk(devices: set<string>, chunks: seq<seq<Message>>, k: nat)
    requires k < |chunks|
    ensures Effects(devices, Joined(chunks[..k + 1])) == Effects(Effects(devices, Joined(chunks[..k])), chunks[k])
  {
    assert chunks[..k + 1][..k] == chunks[..k];
    EffectsConcat(devices, Joined(chunks[..k]), chunks[k]);
  }

  function Joined(chunks: seq<seq<Message>>): seq<Message> {
    if chunks == [] then [] else Joined(chunks[..|chunks| - 1]) + chunks[|chunks| - 1]
  }

  lemma {:induction false} EffectsConcat(devices: set<string>, a: seq<Message>, b: seq<Message>)
    ensures Effects(devices, a + b) == Effects(Effects(devices, a), b)
    decreases |a|
  {
    if a == [] {
      assert a + b == b;
    } else {
      assert (a + b)[1..] == a[1..] + b;
      EffectsConcat(Effect(devices, a[0]), a[1..], b);
    }
  }

  /** Chunk `i` is the first with an answer. */
  predicate FirstAnswer(chunks: seq<seq<Message>>, i: nat)
    requires i < |chunks|
  {
    (forall k :: 0 <= k < i ==> Answers(chunks[k]) == []) && Answers(chunks[i]) != []
  }

  // ----- what events do to one device

  datatype Fate = Untouched | Attached | Detached

  /** What the last event for a device says. */
  function FateOf(serial: string, ms: seq<Message>): Fate {
    if ms == [] then Untouched
    else
      var later := FateOf(serial, ms[1..]);
      if later != Untouched then later
      else if ms[0] == Added(serial) then Attached
      else if ms[0] == Removed(serial) then Detached
      else Untouched
  }

  lemma {:induction false} EffectsByFate(devices: set<string>, ms: seq<Message>, serial: string)
    ensures serial in Effects(devices, ms) <==>
      match FateOf(serial, ms) case Untouched => serial in devices case Attached => true case Detached => false
    decreases |ms|
  {
    if ms != [] { EffectsByFate(Effect(devices, ms[0]), ms[1..], serial); }
  }
}
