/** The output queue of a client connection (ClientConnection.cpp). The event loop runs one handler at a time; its
    steps are sending a packet, running a posted write, and the completion of a write. */
module ClientConnection {
  import opened Bits

  datatype Event = Send(packet: seq<byte>) | RunPosted | Written(bytes: nat)

  function Flat(packets: seq<seq<byte>>): seq<byte> {
    if packets == [] then [] else packets[0] + Flat(packets[1..])
  }

  lemma {:induction false} FlatConcat(a: seq<seq<byte>>, b: seq<seq<byte>>)
    ensures Flat(a + b) == Flat(a) + Flat(b)
  {
    if a == [] {
      assert a + b == b;
    } else {
      assert (a + b)[1..] == a[1..] + b;
      FlatConcat(a[1..], b);
      assert a[0] + (Flat(a[1..]) + Flat(b)) == (a[0] + Flat(a[1..])) + Flat(b);
    }
  }

  /** The state of a connection, with the bytes that the socket has taken and the packets sent so far. */
  datatype State = State(queue: seq<seq<byte>>, offset: nat, posted: nat, writing: nat, socket: seq<byte>,
    sent: seq<seq<byte>>)

  /** What an event does; an event that cannot happen does nothing. */
  function After(c: State, e: Event): State {
    match e
    case Send(packet) =>
      c.(posted := if c.queue == [] then c.posted + 1 else c.posted,
         queue := c.queue + [packet], sent := c.sent + [packet])
    case RunPosted =>
      if c.posted == 0 then c
      else c.(posted := c.posted - 1, writing := if c.queue == [] then c.writing else c.writing + 1)
    case Written(n) =>
      if c.writing == 0 || c.queue == [] || c.offset + n > |c.queue[0]| then c
      else
        var taken := c.socket + c.queue[0][c.offset..c.offset + n];
        if c.offset + n < |c.queue[0]| then c.(socket := taken, offset := c.offset + n)
        else
          c.(socket := taken, offset := 0, queue := c.queue[1..],
             writing := if |c.queue| == 1 then c.writing - 1 else c.writing)
  }

  function AfterAll(c: State, events: seq<Event>): State {
    if events == [] then c else After(AfterAll(c, events[..|events| - 1]), events[|events| - 1])
  }

  /** At most one write is posted or in flight, and none exactly when the queue is empty; the socket has taken a
      prefix of all packets sent, in order, and the queue holds the rest. */
  predicate Good(c: State) {
    && c.posted + c.writing == (if c.queue == [] then 0 else 1)
    && c.offset <= (if c.queue == [] then 0 else |c.queue[0]|) <= |Flat(c.queue)|
    && Flat(c.sent) == c.socket + Flat(c.queue)[c.offset..]
  }

  /** Every event keeps that. */
  lemma AfterKeeps(c: State, e: Event)
    requires Good(c)
    ensures Good(After(c, e)) && c.socket <= After(c, e).socket
    ensures After(c, e).sent == c.sent + match e case Send(p) => [p] case _ => []
  {
    match e
    case Send(packet) => SendKeeps(c, packet);
    case RunPosted =>
    case Written(n) =>
      if c.writing > 0 && c.offset + n <= |c.queue[0]| { WrittenKeeps(c, n); }
  }

  lemma SendKeeps(c: State, packet: seq<byte>)
    requires Good(c)
    ensures Good(After(c, Send(packet)))
  {
    Appended(c.sent, packet);
    Appended(c.queue, packet);
    hide Flat;
    AppendedRest(Flat(c.sent), c.socket, Flat(c.queue), c.offset, packet);
  }

  lemma Appended(packets: seq<seq<byte>>, packet: seq<byte>)
    ensures Flat(packets + [packet]) == Flat(packets) + packet && |Flat(packets) + packet| >= |packet|
    ensures (packets + [packet])[0] == if packets == [] then packet else packets[0]
    ensures |Flat(packets + [packet])| >= |Flat(packets)|
  {
    FlatConcat(packets, [packet]);
    assert Flat([packet]) == packet + Flat([]) == packet;
  }

  lemma AppendedRest(sent: seq<byte>, socket: seq<byte>, all: seq<byte>, at: nat, packet: seq<byte>)
    requires at <= |all| && sent == socket + all[at..]
    ensures sent + packet == socket + (all + packet)[at..]
  {
  }

  lemma WrittenKeeps(c: State, n: nat)
    requires Good(c) && c.writing > 0 && c.queue != [] && c.offset + n <= |c.queue[0]|
    ensures Good(After(c, Written(n)))
  {
    var all, first, at := Flat(c.queue), c.queue[0], c.offset;
    assert all == first + Flat(c.queue[1..]);
    assert |c.queue| > 1 ==> |c.queue[1]| <= |Flat(c.queue[1..])|;
    hide Flat;
    assert all[at..] == first[at..at + n] + all[at + n..];
    assert at + n == |first| ==> all[at + n..] == Flat(c.queue[1..]) == Flat(c.queue[1..])[0..];
    assert c.socket + (first[at..at + n] + all[at + n..]) == c.socket + first[at..at + n] + all[at + n..];
  }

  lemma AfterWritten(c: State, n: nat, d: State)
    requires Good(c) && c.writing > 0 && c.queue != [] && c.offset + n <= |c.queue[0]| && d == After(c, Written(n))
    ensures Good(d)
    ensures
      var ends := c.offset + n == |c.queue[0]|;
      && d.posted == c.posted && d.sent == c.sent && d.socket == c.socket + c.queue[0][c.offset..c.offset + n]
      && d.queue == (if ends then c.queue[1..] else c.queue) && d.offset == (if ends then 0 else c.offset + n)
      && d.writing == (if ends && c.queue[1..] == [] then c.writing - 1 else c.writing)
  {
    AfterKeeps(c, Written(n));
    hide Good, Flat;
  }

  class ClientConnection {
    var queue: seq<seq<byte>>    // m_msgbuffer_out
    var offset: nat              // m_msgbuffer_out_offset

    // The event loop and the socket.
    var posted: nat              // posted calls of do_write
    var writing: nat             // writes in flight
    var socket: seq<byte>        // bytes that the socket has taken
    ghost var sent: seq<seq<byte>>

    ghost function Now(): State
      reads this
    {
      State(queue, offset, posted, writing, socket, sent)
    }

    ghost predicate Valid()
      reads this
    {
      Good(Now())
    }

    constructor ()
      ensures Valid() && sent == [] && socket == []
    {
      queue, offset, posted, writing, socket, sent := [], 0, 0, 0, [], [];
    }

    method SendPacket(packet: seq<byte>)
      requires Valid()
      modifies this
      ensures Valid() && Now() == After(old(Now()), Send(packet))
    {
      AfterKeeps(Now(), Send(packet));
      hide Flat, Good;
      if queue == [] {
        posted := posted + 1;
      }
      queue := queue + [packet];
      sent := sent + [packet];
    }

    method DoWrite()
      modifies this`writing
      ensures writing == old(writing) + if queue == [] then 0 else 1
    {
      if queue == [] { return; }
      writing := writing + 1;
    }

    /** The event loop runs a posted do_write. */
    method Post()
      requires Valid() && posted > 0
      modifies this`posted, this`writing
      ensures Valid() && Now() == After(old(Now()), RunPosted)
    {
      AfterKeeps(Now(), RunPosted);
      hide Flat, Good;
      posted := posted - 1;
      DoWrite();
    }

    /** The socket has taken `n` bytes of what was offered, and the completion handler runs. */
    method Complete(n: nat)
      requires Valid() && writing > 0 && offset + n <= |queue[0]|
      modifies this
      ensures Valid() && Now() == After(old(Now()), Written(n))
    {
      ghost var was, next := Now(), After(Now(), Written(n));
      assert queue != [];
      AfterWritten(was, n, next);
      hide Flat, Good, After;
      writing := writing - 1;
      socket := socket + queue[0][offset..offset + n];
      offset := offset + n;
      if offset != |queue[0]| {
        DoWrite();
      } else {
        queue := queue[1..];
        offset := 0;
        if queue != [] {
          DoWrite();
        }
      }
      assert Now() == next;
    }

    /** One event; one that cannot happen is ignored. */
    method Take(e: Event)
      requires Valid()
      modifies this
      ensures Valid() && Now() == After(old(Now()), e)
    {
      match e {
        case Send(packet) =>
          SendPacket(packet);
        case RunPosted =>
          if posted > 0 { Post(); }
        case Written(n) =>
          if writing > 0 && offset + n <= |queue[0]| { Complete(n); }
      }
    }

    /** Any interleaving of the steps: the state is what the events make of it one after the other, and in it at most
        one write is posted or in flight, none exactly when the queue is empty, and the socket has a prefix of what
        was sent. */
    method Run(events: seq<Event>)
      requires Valid()
      modifies this
      ensures Now() == AfterAll(old(Now()), events) && sent == old(sent) + Packets(events)
      ensures Valid() && posted + writing == if queue == [] then 0 else 1
      ensures old(socket) <= socket <= Flat(sent) && (queue == [] ==> socket == Flat(sent))
    {
      for i := 0 to |events|
        invariant Valid() && Now() == AfterAll(old(Now()), events[..i])
        invariant sent == old(sent) + Packets(events[..i]) && old(socket) <= socket
      {
        assert events[..i + 1][..i] == events[..i];
        hide Flat, Good, After;
        AfterKeeps(Now(), events[i]);
        Take(events[i]);
      }
      assert events[..|events|] == events;
    }

    /** If the socket takes everything it is offered, the queue runs empty and every byte that was sent is on the
        socket. */
    method Drain()
      requires Valid()
      modifies this
      ensures Valid() && queue == [] && sent == old(sent) && socket == Flat(sent)
    {
      while queue != []
        invariant Valid() && sent == old(sent)
        decreases |queue|
      {
        hide Flat;
        if posted > 0 { Post(); }
        Complete(|queue[0]| - offset);
      }
    }
  }

  /** The packets of the send events. */
  function Packets(events: seq<Event>): seq<seq<byte>> {
    if events == [] then []
    else Packets(events[..|events| - 1]) + match events[|events| - 1] case Send(p) => [p] case _ => []
  }
}
