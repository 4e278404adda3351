/** The MPSSE command interpreter of FTDI application note AN_108, sections 3.4 and 3.5, for the commands a JTAG
    driver with an idle-low TCK uses: least significant bit first, data changed on the falling edge.

    It is the meaning of the byte stream that ioftdi.cpp writes, and knows nothing of how that stream is built. */
module Mpsse {
  import opened Bits
  import opened Tap

  /** A reply byte holds the TDO samples of the `n` clocks that start at clock `at`. */
  datatype Slot = Slot(at: nat, n: nat)

  /** Everything the adapter has done: the clocks it made and the reply bytes it owes for them. */
  datatype Wave = Wave(edges: seq<Edge>, slots: seq<Slot>)

  /** The levels of the TMS and TDI pins after some clocks; both are low at power-up (ioftdi.cpp line 57). */
  function Level(e: seq<Edge>): Edge {
    if e == [] then Edge(false, false) else e[|e| - 1]
  }

  predicate IsTms(op: byte) { op == 0x4B || op == 0x6F }
  predicate IsBytes(op: byte) { op == 0x19 || op == 0x2D || op == 0x3D }
  predicate IsBits(op: byte) { op == 0x1B || op == 0x2F || op == 0x3F }
  predicate Reads(op: byte) { op & 0x20 != 0 }
  predicate Writes(op: byte) { op & 0x10 != 0 }

  /** The 16-bit count field of a byte-mode command; it encodes one less than the number of bytes. */
  function Count(s: seq<byte>): nat
    requires |s| >= 3
  {
    s[1] as nat + 256 * s[2] as nat + 1
  }

  /** Length of the first command of `s`, or 0 when it is incomplete or not one of the commands above. */
  function CommandLength(s: seq<byte>): (n: nat)
    ensures n <= |s|
  {
    var n :=
      if s == [] then 0
      else if s[0] == 0x87 then 1
      else if IsTms(s[0]) then 3
      else if IsBits(s[0]) then (if Writes(s[0]) then 3 else 2)
      else if IsBytes(s[0]) && |s| >= 3 then (if Writes(s[0]) then 3 + Count(s) else 3)
      else 0;
    if n <= |s| && (n >= 2 ==> (IsBits(s[0]) ==> s[1] <= 7) && (IsTms(s[0]) ==> s[1] <= 6)) then n else 0
  }

  /** Clocks of a data command: TMS stays where it was, TDI follows the data or stays where it was. */
  function DataClocks(held: Edge, data: Option<seq<byte>>, n: nat): (r: seq<Edge>)
    requires data.Some? ==> n <= 8 * |data.value|
    ensures |r| == n
  {
    seq(n, i requires 0 <= i < n => Edge(held.tms, if data.Some? then BitAt(data.value, i) else held.tdi))
  }

  /** Clocks of a TMS command: TMS follows the low bits of the data byte, TDI takes its bit 7. */
  function TmsClocks(d: byte, n: nat): (r: seq<Edge>)
    requires n <= 8
    ensures |r| == n
  {
    seq(n, i requires 0 <= i < n => Edge(Bit(d, i), Bit(d, 7)))
  }

  /** The reply bytes of a byte-mode command that starts at clock `at`. */
  function ByteSlots(at: nat, n: nat): (r: seq<Slot>)
    ensures |r| == n && forall i :: 0 <= i < n ==> r[i] == Slot(at + 8 * i, 8)
  {
    seq(n, i requires 0 <= i < n => Slot(at + 8 * i, 8))
  }

  function Execute(c: seq<byte>, w: Wave): (r: Wave)
    requires c != [] && CommandLength(c) == |c|
    ensures w.edges <= r.edges && w.slots <= r.slots
  {
    var op := c[0];
    var at := |w.edges|;
    if op == 0x87 then w
    else if IsTms(op) then
      var n := c[1] as nat + 1;
      Wave(w.edges + TmsClocks(c[2], n), w.slots + if Reads(op) then [Slot(at, n)] else [])
    else if IsBits(op) then
      var n := c[1] as nat + 1;
      Wave(w.edges + DataClocks(Level(w.edges), if Writes(op) then Some([c[2]]) else None, n),
           w.slots + if Reads(op) then [Slot(at, n)] else [])
    else
      var n := Count(c);
      Wave(w.edges + DataClocks(Level(w.edges), if Writes(op) then Some(c[3..]) else None, 8 * n),
           w.slots + if Reads(op) then ByteSlots(at, n) else [])
  }

  /** Run a whole stream of commands; None if it is cut inside a command or holds an unknown one. */
  function Interpret(s: seq<byte>, w: Wave): (r: Option<Wave>)
    ensures r.Some? ==> w.edges <= r.value.edges && w.slots <= r.value.slots
    decreases |s|
  {
    if s == [] then Some(w)
    else
      var n := CommandLength(s);
      if n == 0 then None
      else
        FirstCommand(s);
        Interpret(s[n..], Execute(s[..n], w))
  }

  lemma FirstCommand(s: seq<byte>)
    requires CommandLength(s) != 0
    ensures s != [] && CommandLength(s[..CommandLength(s)]) == CommandLength(s)
  {
  }

  /** More bytes after a complete command do not change it. */
  lemma CommandLengthExtends(a: seq<byte>, b: seq<byte>)
    requires CommandLength(a) != 0
    ensures CommandLength(a + b) == CommandLength(a)
  {
  }

  lemma {:induction false} InterpretConcat(a: seq<byte>, b: seq<byte>, w: Wave)
    requires Interpret(a, w).Some?
    ensures Interpret(a + b, w) == Interpret(b, Interpret(a, w).value)
    decreases |a|
  {
    if a == [] {
      assert a + b == b;
    } else {
      var n := CommandLength(a);
      CommandLengthExtends(a, b);
      assert (a + b)[n..] == a[n..] + b && (a + b)[..n] == a[..n];
      FirstCommand(a);
      InterpretConcat(a[n..], b, Execute(a[..n], w));
    }
  }

  /** A stream followed by one command runs the stream and then that command. */
  lemma InterpretThen(a: seq<byte>, c: seq<byte>, w: Wave)
    requires Interpret(a, w).Some?
    requires c != [] && CommandLength(c) == |c|
    ensures Interpret(a + c, w) == Some(Execute(c, Interpret(a, w).value))
  {
    InterpretConcat(a, c, w);
    assert c[|c|..] == [] && c[..|c|] == c;
  }

  // ----- replies

  /** Every reply byte is owed for clocks that were made. */
  predicate SlotsFit(w: Wave) {
    forall k :: 0 <= k < |w.slots| ==> 1 <= w.slots[k].n <= 8 && w.slots[k].at + w.slots[k].n <= |w.edges|
  }

  lemma ExecuteFits(c: seq<byte>, w: Wave)
    requires c != [] && CommandLength(c) == |c| && SlotsFit(w)
    ensures SlotsFit(Execute(c, w))
  {
  }

  /** The receive shift register: each sample enters at the top and pushes the older ones down. */
  function Receive(samples: seq<bool>, stale: byte): byte {
    if samples == [] then stale
    else (Receive(samples[..|samples| - 1], stale) >> 1) | if samples[|samples| - 1] then 0x80 else 0
  }

  /** After `n` samples the first one is at bit `8 - n`: short replies sit in the top bits. */
  lemma {:induction false} ReceivedBits(samples: seq<bool>, stale: byte, i: nat)
    requires i < |samples| <= 8
    ensures Bit(Receive(samples, stale), 8 - |samples| + i) == samples[i]
  {
    var n := |samples|;
    var older := Receive(samples[..n - 1], stale);
    ShiftIn(older, samples[n - 1], 8 - n + i);
    if i < n - 1 {
      ReceivedBits(samples[..n - 1], stale, i);
    }
  }

  lemma ShiftIn(b: byte, top: bool, i: nat)
    requires i < 8
    ensures Bit((b >> 1) | if top then 0x80 else 0, i) == if i == 7 then top else Bit(b, i + 1)
  {
  }
}
