/** The receiving half of a connection: its window, what the buffer holds, and what it advertises. */
module Receiving {
  import opened Common
  import opened Machine
  import opened Connection
  import Window
  import Modulo

  /** One position, the EOF, has been queued but is never acknowledged. */
  function EofBit(s: State): nat {
    if s.CLOSE_WAIT? || s.LAST_ACK? then 1 else 0
  }

  ghost predicate RecvPointers(c: Conn) {
    && c.recvWindow == WINDOW
    && c.rnext == c.rack + EofBit(c.state)
    && c.rread <= c.rnext <= c.rread + WINDOW + EofBit(c.state)
  }

  ghost predicate RecvInv(c: Conn) {
    && RecvPointers(c)
    && c.sendWindow <= WINDOW
    && (c.state.CLOSED? || c.state.SYN_SENT? ==> c.rack == c.rread == 0)
  }

  // The window test

  /** The right edge of the window. */
  function Edge(c: Conn): nat {
    c.rread + c.recvWindow
  }

  /** In a reachable state the window is no longer than half the buffer, so the modular tests decide
      exactly: a segment is acceptable when it ends inside the window, old when it starts in the half
      circle behind it, and never both. */
  lemma TestsAreExact(c: Conn, num: nat, len: nat)
    requires RecvInv(c) && len <= WINDOW
    ensures 0 <= Edge(c) - c.rack <= SIZE / 2
    ensures IsValid(c, num, len) <==> Window.Ahead(SIZE, num, c.rack) + len < Edge(c) - c.rack
    ensures IsOld(c, num) <==> Window.Ahead(SIZE, num, c.rack) > SIZE / 2
    ensures !(IsValid(c, num, len) && IsOld(c, num))
  {
    var d := Window.Ahead(SIZE, num, c.rack);
    Window.WindowIsExact(SIZE, c.rack, Edge(c), num);
    Window.WindowIsExact(SIZE, c.rack, Edge(c), num + len);
    Window.CmpByDistance(SIZE, num, c.rack);
    Modulo.Sum(num - c.rack, len, SIZE);
    assert Window.Ahead(SIZE, num + len, c.rack) == (d + len) % SIZE;
    if d < SIZE / 2 {
      Modulo.Small(d + len, SIZE);
    }
  }

  /** The tests see positions modulo the buffer only. They agree with the comparison of the numbers
      themselves for every segment less than half a buffer away. */
  lemma TestsAgreeNearby(c: Conn, num: nat, len: nat)
    requires RecvInv(c) && len <= WINDOW
    requires c.rack - SIZE / 2 < num <= c.rack + SIZE / 2
    ensures IsValid(c, num, len) <==> c.rack <= num && num + len < Edge(c)
    ensures IsOld(c, num) <==> num < c.rack
  {
    TestsAreExact(c, num, len);
    if num >= c.rack {
      Modulo.Small(num - c.rack, SIZE);
    } else {
      Modulo.Residue(num - c.rack, SIZE, -1, num - c.rack + SIZE);
    }
  }

  /** An acceptable packet leaves room for at least one position. */
  lemma ValidHasRoom(c: Conn, num: nat, len: nat)
    requires RecvInv(c) && IsValid(c, num, len)
    ensures c.rack < Edge(c)
  {
    Window.WindowIsExact(SIZE, c.rack, Edge(c), num);
  }

  // Steps

  /** The fields the pointers' invariant looks at, besides the state. */
  function PointersOf(c: Conn): (nat, nat, nat, uint16, uint16) {
    (c.rack, c.rnext, c.rread, c.recvWindow, c.sendWindow)
  }

  lemma SamePointers(c: Conn, d: Conn)
    requires RecvInv(c) && PointersOf(d) == PointersOf(c) && d.state == c.state
    ensures RecvInv(d)
  {
  }

  /** Before a step the acknowledged control position may already be counted: that shrinks
      `sendWindow` below nothing only where the step will reset the socket, and moves SYN_SENT's
      pointers from zero only for the packets that make it leave. */
  ghost predicate BeforeStep(c: Conn, input: Input) {
    && RecvPointers(c)
    && (Lookup(c.state, input).Some? ==> c.sendWindow <= WINDOW)
    && (c.state.CLOSED? && Lookup(c.state, input).Some? ==> c.rack == c.rread == 0)
    && (c.state.SYN_SENT? ==> c.rread == 0 && (input.ON_RECV_SYN_ACK? ==> c.rack == 1))
  }

  /** What a step makes of the receiving pointers. */
  ghost predicate PointersAfter(c: Conn, input: Input, p: Option<Packet>, r: Conn)
    requires input.ON_RECV_SYN_ACK? ==> p.Some?
  {
    match Lookup(c.state, input)
    case None => r.state.CLOSED? && PointersOf(r) == (0, 0, 0, WINDOW, WINDOW)
    case Some(To(next, action)) =>
      && r.state == next
      && PointersOf(r) ==
        if next.CLOSED? then (0, 0, 0, WINDOW, WINDOW)
        else if action.DoConnect? then
          (c.rack + p.value.seqNum, c.rnext + p.value.seqNum, p.value.seqNum, c.recvWindow, c.sendWindow)
        else (c.rack, if next.CLOSE_WAIT? && !c.state.CLOSE_WAIT? then c.rnext + 1 else c.rnext, c.rread,
              c.recvWindow, c.sendWindow)
  }

  lemma StepOnPointers(c: Conn, input: Input, p: Option<Packet>, routed: bool)
    requires Valid(c)
    requires Lookup(c.state, input).None? || input.ON_RECV_SYN_ACK? ==> p.Some?
    ensures PointersAfter(c, input, p, Step(c, input, p, routed).conn)
  {
  }

  lemma PointersSuffice(c: Conn, input: Input, p: Option<Packet>, r: Conn)
    requires BeforeStep(c, input) && (input.ON_RECV_SYN_ACK? ==> p.Some?) && PointersAfter(c, input, p, r)
    ensures RecvInv(r)
  {
  }

  lemma StepKeepsReceiving(c: Conn, input: Input, p: Option<Packet>, routed: bool)
    requires Valid(c) && BeforeStep(c, input)
    requires Lookup(c.state, input).None? || input.ON_RECV_SYN_ACK? ==> p.Some?
    ensures RecvInv(Step(c, input, p, routed).conn)
  {
    StepOnPointers(c, input, p, routed);
    PointersSuffice(c, input, p, Step(c, input, p, routed).conn);
  }

  lemma BeforeDataKeepsReceiving(c: Conn, p: Packet, routed: bool)
    requires Valid(c) && RecvInv(c) && IsValid(c, p.seqNum, |p.payload|)
    ensures RecvInv(BeforeData(c, p, routed).conn)
  {
    ValidHasRoom(c, p.seqNum, |p.payload|);
    var c1 := ProcessAck(UpdateWindow(c, p.window), p);
    SamePointers(c, c1);
    var c2 := if IsControl(p) then AckData(c1, 1) else c1;
    StepKeepsReceiving(c2, PacketToInput(p.flags), Some(p), routed);
  }

  /** What is accepted fits, so the assertions on the way into the buffer hold. */
  lemma AcceptedFits(c: Conn, p: Packet, routed: bool)
    requires Valid(c) && RecvInv(c) && Accepts(c, p, routed)
    ensures var mid := BeforeData(c, p, routed).conn;
      |p.payload| <= WINDOW && mid.rnext == mid.rack && mid.rnext + |p.payload| <= mid.rread + WINDOW
  {
    BeforeDataKeepsReceiving(c, p, routed);
  }

  lemma TakeDataKeepsReceiving(c: Conn, data: seq<byte>)
    requires Valid(c) && RecvInv(c)
    requires CanReceive(c.state) && c.rnext + |data| <= c.rread + WINDOW
    ensures RecvInv(TakeData(c, data).conn)
  {
  }

  lemma DumbKeepsReceiving(c: Conn, p: Packet, flags: byte, routed: bool)
    requires Valid(c) && RecvInv(c)
    ensures RecvInv(SendDumb(c, p, flags, routed).conn)
  {
  }

  lemma RefusalKeepsReceiving(c: Conn, p: Packet, routed: bool)
    requires Valid(c) && RecvInv(c) && !IsValid(c, p.seqNum, |p.payload|)
    ensures RecvInv(Receive(c, p, routed).conn)
  {
    var c1 := UpdateWindow(c, p.window);
    SamePointers(c, c1);
    DumbKeepsReceiving(c1, p, ACK, routed);
    DumbKeepsReceiving(c, p, RST, routed);
  }

  lemma ReceiveKeepsReceiving(c: Conn, p: Packet, routed: bool)
    requires Valid(c) && RecvInv(c)
    ensures Accepts(c, p, routed) ==> |p.payload| <= SIZE
    ensures RecvInv(Receive(c, p, routed).conn)
  {
    if !IsValid(c, p.seqNum, |p.payload|) {
      RefusalKeepsReceiving(c, p, routed);
    } else {
      BeforeDataKeepsReceiving(c, p, routed);
      var mid := BeforeData(c, p, routed).conn;
      if Accepts(c, p, routed) {
        AcceptedFits(c, p, routed);
        TakeDataKeepsReceiving(mid, p.payload);
        assert Receive(c, p, routed).conn == TakeData(mid, p.payload).conn;
      } else {
        assert Receive(c, p, routed).conn == mid;
      }
    }
  }

  lemma WatchdogKeepsReceiving(c: Conn, timeWait: bool, retransmit: bool, connecting: bool)
    requires Valid(c) && RecvInv(c)
    ensures RecvInv(Watchdog(c, timeWait, retransmit, connecting).conn)
  {
    var r := Watchdog(c, timeWait, retransmit, connecting).conn;
    if c.state.TIME_WAIT? && timeWait {
      StepOnPointers(c, ON_TIMEOUT, None, true);
      assert r.state.CLOSED? && PointersOf(r) == (0, 0, 0, WINDOW, WINDOW);
    } else if c.state.SYN_SENT? && connecting {
      assert r.state.CLOSED? && PointersOf(r) == (0, 0, 0, WINDOW, WINDOW);
    } else {
      assert r.state == c.state && PointersOf(r) == PointersOf(c);
    }
  }

  lemma UserKeepsReceiving(c: Conn, isn: nat)
    requires Valid(c) && RecvInv(c)
    ensures RecvInv(Connect(c, isn).conn)
    ensures RecvInv(Listen(c).conn)
    ensures RecvInv(Close(c).conn)
  {
    if CanConnect(c.state) {
      StepKeepsReceiving(c.(una := isn, next := isn, written := isn, high := isn), ON_ACTIVE_OPEN, None, true);
      StepKeepsReceiving(c, ON_PASSIVE_OPEN, None, true);
    }
    if CanClose(c.state) {
      StepKeepsReceiving(c, ON_CLOSE, None, true);
    }
  }

  /** Sending, and the user's writing, do not touch the receiving pointers. */
  lemma SendersTouchNothing(c: Conn, op: Op)
    requires Valid(c) && Asserts(c, op) && (op.OpWrite? || op.OpTransmit?)
    ensures var d := Apply(c, op).conn;
      d.state == c.state && d.rbuf == c.rbuf && d.got == c.got && PointersOf(d) == PointersOf(c)
  {
  }

  /** Whatever happens to a connection, any packet whatever included, keeps the receiving invariant. */
  lemma OpKeepsReceiving(c: Conn, op: Op)
    requires Valid(c) && RecvInv(c) && Asserts(c, op)
    ensures RecvInv(Apply(c, op).conn)
  {
    match op
    case OpConnect(isn) => UserKeepsReceiving(c, isn);
    case OpListen => UserKeepsReceiving(c, 0);
    case OpWrite(_) => SendersTouchNothing(c, op);
    case OpRead(_) =>
    case OpClose => UserKeepsReceiving(c, 0);
    case OpTransmit => SendersTouchNothing(c, op);
    case OpArrive(p, routed) => if !HasRst(p.flags) { ReceiveKeepsReceiving(c, p, routed); }
    case OpWatchdog(t, r, k) => WatchdogKeepsReceiving(c, t, r, k);
  }
}
