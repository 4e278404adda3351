/** The map of attached devices (DeviceManager.cpp) and the events that it reports. */
module DeviceManager {

  /** A USB device as the library identifies it. */
  type UsbDevice = nat

  datatype Device = Device(dev: UsbDevice, serial: string)

  /** What clients are told. A device list answers a request, other answers carry none. */
  datatype Message = Added(serial: string) | Removed(serial: string) | RegChanged(serial: string)
    | List(serials: seq<string>) | Answer | Unknown

  /** What reading the strings of a device gives: its serial number, or an exception. */
  datatype Strings = Serial(serial: string) | Unreadable

  class DeviceManager {
    const prefixes: seq<string>    // of the device descriptions
    var deviceMap: map<UsbDevice, Device>
    var serialMap: map<string, Device>
    var reported: seq<Message>

    /** The two maps hold the same devices, under their USB device and their serial number. */
    ghost predicate Valid()
      reads this`deviceMap, this`serialMap
    {
      Matching(deviceMap, serialMap)
    }

    constructor (prefixes: seq<string>)
      ensures Valid() && deviceMap == map[] && serialMap == map[] && reported == [] && this.prefixes == prefixes
    {
      this.prefixes, deviceMap, serialMap, reported := prefixes, map[], map[], [];
    }

    /** A device was plugged in. `ready` is whether it could be opened and programmed. */
    method UsbDeviceAdded(dev: UsbDevice, strings: Strings, ready: bool)
      requires Valid()
      modifies this
      ensures Valid()
      ensures var joins := dev !in old(deviceMap) && strings.Serial? && strings.serial !in old(serialMap)
          && Described(strings.serial, prefixes) && ready;
        if joins then
          var d := Device(dev, strings.serial);
          && deviceMap == old(deviceMap)[dev := d] && serialMap == old(serialMap)[d.serial := d]
          && reported == old(reported) + [Added(d.serial)]
        else
          deviceMap == old(deviceMap) && serialMap == old(serialMap) && reported == old(reported)
    {
      if dev in deviceMap { return; }
      if strings.Unreadable? { return; }
      var serial := strings.serial;
      if serial in serialMap { return; }
      var known := FindDescription(serial);
      if !known { return; }
      if !ready { return; }
      var device := Device(dev, serial);
      deviceMap := deviceMap[dev := device];
      serialMap := serialMap[serial := device];
      reported := reported + [Added(serial)];
    }

    method FindDescription(serial: string) returns (known: bool)
      ensures known == Described(serial, prefixes)
    {
      for i := 0 to |prefixes|
        invariant forall k :: 0 <= k < i ==> !(prefixes[k] <= serial)
      {
        if prefixes[i] <= serial { return true; }
      }
      return false;
    }

    method UsbDeviceRemoved(dev: UsbDevice)
      requires Valid()
      modifies this
      ensures Valid()
      ensures if dev in old(deviceMap) then
          && deviceMap == old(deviceMap) - {dev} && serialMap == old(serialMap) - {old(deviceMap)[dev].serial}
          && reported == old(reported) + [Removed(old(deviceMap)[dev].serial)]
        else
          deviceMap == old(deviceMap) && serialMap == old(serialMap) && reported == old(reported)
    {
      if dev in deviceMap {
        RemoveDevice(deviceMap[dev].serial);
      }
    }

    method RemoveDevice(serial: string)
      requires Valid()
      modifies this
      ensures Valid()
      ensures serialMap == old(serialMap) - {serial}
      ensures deviceMap ==
        if serial in old(serialMap) then old(deviceMap) - {old(serialMap)[serial].dev} else old(deviceMap)
      ensures reported == old(reported) + if serial in old(serialMap) then [Removed(serial)] else []
    {
      if serial in serialMap {
        reported := reported + [Removed(serial)];
        var dev := serialMap[serial].dev;
        serialMap := serialMap - {serial};
        deviceMap := deviceMap - {dev};
      }
    }

    /** Poll all devices; those in `failing` no longer answer and are removed, each with one message. */
    method PeriodicRegisterUpdates(failing: set<string>) returns (ghost order: seq<string>)
      requires Valid()
      modifies this
      ensures Valid() && serialMap == old(serialMap) - failing && deviceMap == Without(old(deviceMap), failing)
      ensures reported == old(reported) + Removals(order)
      ensures Lists(order, old(serialMap).Keys * failing)
    {
      Agrees();
      ghost var devices, serials := deviceMap, serialMap;
      hide *;
      order := PollDevices(failing);
      Agrees();
      Remaining(devices, serials, deviceMap, failing);
    }

    /** The loop over the devices. */
    method PollDevices(failing: set<string>) returns (ghost order: seq<string>)
      requires Valid()
      modifies this
      ensures Valid() && serialMap == old(serialMap) - failing
      ensures reported == old(reported) + Removals(order)
      ensures Lists(order, old(serialMap).Keys * failing)
    {
      hide *;
      ghost var start, gone := serialMap, {};
      var left := serialMap.Keys;
      order := [];
      NonePolled(start, failing);
      while left != {}
        invariant Valid() && left <= start.Keys && left !! gone
        invariant reported == old(reported) + Removals(order)
        invariant serialMap == start - gone && gone == (start.Keys - left) * failing
        invariant Lists(order, gone)
        decreases left
      {
        var serial :| serial in left;
        Polled(start.Keys, left, serial, failing);
        left := left - {serial};
        ghost var order', gone';
        order', gone' := PollOne(serial, failing, start, gone, order);
        RemovalsStep(order, serial);
        order, gone := order', gone';
      }
      AllPolled(start, gone, left, failing);
    }

    lemma Agrees()
      requires Valid()
      ensures Matching(deviceMap, serialMap)
    {
    }

    /** The serial numbers of all attached devices, each once. */
    method GetDeviceList() returns (list: seq<string>)
      ensures Lists(list, serialMap.Keys)
    {
      hide *;
      list := [];
      ghost var done := {};
      var left := serialMap.Keys;
      NonePolled(serialMap, {});
      while left != {}
        invariant done + left == serialMap.Keys && done !! left && Lists(list, done)
        decreases left
      {
        var serial :| serial in left;
        OneMoreListed(list, done, serial);
        left, done := left - {serial}, done + {serial};
        list := list + [serial];
      }
    }

    /** Poll one device. */
    method PollOne(serial: string, failing: set<string>, ghost start: map<string, Device>, ghost gone: set<string>,
                   ghost order: seq<string>)
      returns (ghost order': seq<string>, ghost gone': set<string>)
      requires Valid() && serial in start && serial !in gone && serialMap == start - gone
      requires Lists(order, gone)
      modifies this
      ensures Valid() && serialMap == start - gone'
      ensures gone' == if serial in failing then gone + {serial} else gone
      ensures order' == if serial in failing then order + [serial] else order
      ensures reported == old(reported) + if serial in failing then [Removed(serial)] else []
      ensures Lists(order', gone')
    {
      order', gone' := order, gone;
      if serial in failing {
        RemoveDevice(serial);
        order', gone' := order + [serial], gone + {serial};
        assert start - gone - {serial} == start - gone';
      }
    }
  }

  ghost predicate Matching(deviceMap: map<UsbDevice, Device>, serialMap: map<string, Device>) {
    && (forall d :: d in deviceMap ==>
          deviceMap[d].dev == d && deviceMap[d].serial in serialMap && serialMap[deviceMap[d].serial] == deviceMap[d])
    && (forall s :: s in serialMap ==>
          serialMap[s].serial == s && serialMap[s].dev in deviceMap && deviceMap[serialMap[s].dev] == serialMap[s])
  }

  /** The devices but for some. */
  function Without(deviceMap: map<UsbDevice, Device>, serials: set<string>): map<UsbDevice, Device> {
    map d | d in deviceMap && deviceMap[d].serial !in serials :: deviceMap[d]
  }

  lemma Remaining(before: map<UsbDevice, Device>, serials: map<string, Device>, after: map<UsbDevice, Device>,
                  gone: set<string>)
    requires Matching(before, serials) && Matching(after, serials - gone)
    ensures after == Without(before, gone)
  {
    forall d | d in after ensures d in Without(before, gone) && after[d] == Without(before, gone)[d] {
      assert serials[after[d].serial] == after[d];
    }
    forall d | d in Without(before, gone) ensures d in after {
      assert (serials - gone)[before[d].serial] == before[d];
    }
  }

  predicate Described(serial: string, prefixes: seq<string>) {
    exists k :: 0 <= k < |prefixes| && prefixes[k] <= serial
  }

  /** The elements of a set, each once. */
  ghost predicate Lists(order: seq<string>, s: set<string>) {
    |order| == |s| && forall x :: x in order <==> x in s
  }

  lemma OneMoreListed(order: seq<string>, s: set<string>, x: string)
    requires Lists(order, s) && x !in s
    ensures Lists(order + [x], s + {x})
  {
  }

  function Removals(serials: seq<string>): seq<Message> {
    if serials == [] then [] else Removals(serials[..|serials| - 1]) + [Removed(serials[|serials| - 1])]
  }

  lemma Polled<T>(keys: set<T>, left: set<T>, x: T, failing: set<T>)
    requires x in left && left <= keys
    ensures (keys - (left - {x})) * failing ==
      if x in failing then (keys - left) * failing + {x} else (keys - left) * failing
  {
  }

  lemma NonePolled<U>(start: map<string, U>, failing: set<string>)
    ensures start - {} == start && (start.Keys - start.Keys) * failing == {}
    ensures Removals([]) == [] && Lists([], {})
  {
  }

  lemma AllPolled<U>(start: map<string, U>, gone: set<string>, left: set<string>, failing: set<string>)
    requires left == {} && gone == (start.Keys - left) * failing
    ensures gone == start.Keys * failing && start - gone == start - failing
  {
  }

  lemma RemovalsStep(serials: seq<string>, serial: string)
    ensures Removals(serials + [serial]) == Removals(serials) + [Removed(serial)]
  {
    assert (serials + [serial])[..|serials|] == serials;
  }
}
