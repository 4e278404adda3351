/** Programming the board's FPGA (DeviceProgrammer.cpp): from a cable with an unknown chain in an unknown state and
    the bytes of a .bit file to what the device sees. */
module DeviceProgrammer {
  import opened Bits
  import opened Tap
  import opened Mpsse
  import opened IoFtdi
  import opened Jtag
  import opened Chain
  import opened ChainScan
  import opened Scans
  import opened Detection
  import opened ProgAlg
  import opened BitFormat
  import BitFile

  const XC6_XC7_IRLEN := 6

  function FamilyOf(idcode: nat): Option<Family> {
    if idcode == 0x24001093 then Some(XC6S) else if idcode == 0x0362D093 then Some(OtherFamily) else None
  }

  datatype Connection = Connected(p: DeviceProgrammer) | ChainError | UnexpectedDevice

  datatype Outcome = Programmed | BadFile | ConfigurationFailed

  class DeviceProgrammer {
    const jtag: Jtag

    /** The algorithm has no state of its own, so that one object serves all files. */
    const algorithm: ProgAlgXC3S

    ghost predicate Valid()
      reads jtag, jtag.io, jtag.io.usbuf, jtag.io.tmsBuf
    {
      algorithm.jtag == jtag && algorithm.Standby() && algorithm.At().len <= 8
    }

    constructor (jtag: Jtag, family: Family, ghost chain: Chain)
      ensures this.jtag == jtag && fresh(algorithm) && algorithm.jtag == jtag
      ensures algorithm.family == family && algorithm.chain == chain
    {
      this.jtag := jtag;
      algorithm := new ProgAlgXC3S(jtag, family, chain);
    }

    /** Program a file. When it can be read, the device sees the algorithm with exactly the bytes of the file's data
        field, high bit first. */
    method Program(file: seq<byte>, ghost until: nat)
      returns (r: Outcome, ghost cleared: nat, ghost held: seq<bool>, ghost polls: nat)
      requires Valid() && algorithm.Now().irScans + 2 <= until && algorithm.StatusBit(until, 4)
      requires var p := ParseFile(file, Header([], [], [], []));
        p.Complete? ==> (p.data != [] || algorithm.At().k > 0) && |p.data| < 0x1_0000_0000
      modifies jtag`current, jtag`shiftDRincomplete, jtag.io, jtag.io.usbuf, jtag.io.tmsBuf
      ensures Valid()
      ensures var p := ParseFile(file, Header([], [], [], []));
        if !p.Complete? then r == BadFile && algorithm.Now() == old(algorithm.Now())
        else
          && var before := old(algorithm.Now());
          && |held| == 64 && algorithm.Now().inst == Given(algorithm.At(), [0xFF, 0xFF])
          && before.irScans + 2 <= cleared && algorithm.ClearedAt(before.irScans + 2, cleared)
          && algorithm.Now().log == before.log + ArrayLog(algorithm.At(), algorithm.family, held,
            MsbFirst(AllReversed(p.data)), cleared - before.irScans - 1, polls)
          && algorithm.ReadAtEnd(cleared, AtEnd(cleared + 1, algorithm.family), polls)
          && r == if algorithm.Succeeds(cleared) then Programmed else ConfigurationFailed
    {
      hide Run, Interpret, SlotsFit, Settles, TapRun, WellFormed, TargetOf, OthersBypass, Given, ArrayLog, MsbFirst,
        AllReversed, ParseFile;
      var bitfile, code := BitFile.LoadNew(file);
      cleared, held, polls := 0, [], 0;
      if code != 0 { return BadFile, cleared, held, polls; }
      var data := bitfile.buffer[..bitfile.length];
      AllReversedTwice(data);
      NotEmpty(data);
      assert |data| < 0x1_0000_0000 && (data == [] ==> algorithm.At().k > 0);
      var ok;
      ok, cleared, held, polls := algorithm.ArrayProgram(data, AllReversed(data), until);
      r := if ok then Programmed else ConfigurationFailed;
    }
  }

  lemma NotEmpty(data: seq<byte>)
    ensures data != [] ==> AllReversed(data) != []
  {
  }

  /** Open the cable, find the chain and get ready. The chain may be any chain in any state. When the detection finds
      one code and it is that of a known FPGA, the driver is ready exactly if that is the only device and has the
      instruction register it should have: a device without a proper code between it and TDI is overlooked. */
  method Connect(chain: Chain, stale: nat -> byte) returns (r: Connection)
    requires WellFormed(chain)
    ensures r.ChainError? <==> !Finds(chain, 1)
    ensures r.UnexpectedDevice? <==> Finds(chain, 1) && WordAt(chain, 0) !in {0x2400_1093, 0x0362_D093}
    ensures r.Connected? ==> r.p.algorithm.chain == chain
    ensures r.Connected? ==> r.p.algorithm.family == if WordAt(chain, 0) == 0x2400_1093 then XC6S else OtherFamily
    ensures r.Connected? ==> (r.p.Valid() <==> |chain.devs| == 1 && chain.devs[0].irLength == 6)
    ensures r.Connected? && r.p.Valid() ==> r.p.algorithm.At() == Place(1, 0, 6)
  {
    hide *;
    var io := new IoFtdi(TargetOf(chain), stale);
    var jtag := new Jtag(io);
    var n := Find(jtag, chain);
    OneFound(chain, n, jtag.devices);
    if n != 1 { return ChainError; }
    var family := FamilyOf(jtag.devices[0].idcode);
    KnownCodes(jtag.devices[0].idcode);
    if family.None? { return UnexpectedDevice; }
    var p := Prepare(jtag, family.value, chain);
    r := Connected(p);
  }

  lemma KnownCodes(id: nat)
    ensures FamilyOf(id) ==
      if id == 0x2400_1093 then Some(XC6S) else if id == 0x0362_D093 then Some(OtherFamily) else None
  {
  }

  lemma OneFound(c: Chain, n: nat, devices: seq<ChainParam>)
    requires Finds(c, n) && Records(c, n, devices)
    ensures Finds(c, 1) <==> n == 1
    ensures n == 1 ==> |devices| >= 1 && devices[0].idcode == WordAt(c, 0)
  {
    assert n == 1 ==> |devices| >= 1 && devices[0].idcode == WordAt(c, 0);
    hide *;
    if Finds(c, 1) { FindsOnce(c, n, 1); }
  }

  /** A first `getChain` finds the devices that there are to be found. */
  method Find(jtag: Jtag, ghost chain: Chain) returns (n: int)
    requires jtag.Valid() && jtag.numDevices == -1 && jtag.devices == []
    requires WellFormed(chain) && jtag.io.target == TargetOf(chain)
    modifies jtag`current, jtag`devices, jtag`numDevices, jtag.io, jtag.io.usbuf, jtag.io.tmsBuf
    ensures jtag.Valid() && jtag.Agrees() && jtag.current == Known(TestLogicReset)
    ensures 0 <= n == jtag.numDevices && Finds(chain, n) && Records(chain, n, jtag.devices)
  {
    hide *;
    assert jtag.io.TmsClear() by { Recorded(jtag); }
    ghost var e := jtag.Edges();
    n := jtag.GetChain(false);
    ChainFound(jtag.io, jtag, chain, e, n, jtag.devices, []);
  }

  lemma Recorded(jtag: Jtag)
    requires jtag.Valid()
    ensures jtag.io.TmsClear()
  {
  }

  /** Record the length of the instruction register and select the device. */
  method Prepare(jtag: Jtag, family: Family, ghost chain: Chain) returns (p: DeviceProgrammer)
    requires jtag.Valid() && jtag.Agrees() && jtag.current == Known(TestLogicReset) && jtag.numDevices == 1
    requires WellFormed(chain) && jtag.io.target == TargetOf(chain)
    requires jtag.postDR == jtag.postIR == RunTestIdle && !jtag.shiftDRincomplete
    modifies jtag`current, jtag`devices, jtag`deviceIndex, jtag.io, jtag.io.usbuf, jtag.io.tmsBuf
    ensures fresh(p) && fresh(p.algorithm) && p.algorithm.chain == chain && p.algorithm.family == family
    ensures p.Valid() <==> |chain.devs| == 1 && chain.devs[0].irLength == 6
    ensures p.Valid() ==> p.algorithm.At() == Place(1, 0, 6)
  {
    hide Run, Interpret, SlotsFit, Settles, TapRun, WellFormed, TargetOf;
    var length := jtag.SetDeviceIRLength(0, XC6_XC7_IRLEN);
    jtag.SetTapState(TestLogicReset, 0);
    var selected := jtag.SelectDevice(0);
    p := new DeviceProgrammer(jtag, family, chain);
  }
}
