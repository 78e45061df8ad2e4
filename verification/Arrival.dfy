/** What the receive buffer holds: the bytes accepted so far, blanks ahead of them on the first lap, and
    the bytes of an earlier lap afterwards. */
module Arrival {
  import opened Common
  import opened RingBuffer
  import opened Machine
  import opened Connection
  import opened Receiving
  import Sending

  /** Before the peer's first byte can be accepted. */
  predicate Opening(s: State) {
    s.CLOSED? || s.LISTEN? || s.SYN_SENT? || s.SYN_RCVD?
  }

  /** The position of the first byte accepted, while the peer's FIN has not been. */
  function Base(c: Conn): int {
    c.rack - |c.got|
  }

  /** The positions from `lo` to one lap past `base` have never been written. */
  ghost predicate BlankAhead(b: seq<Cell>, base: int, lo: nat)
    requires |b| == SIZE
  {
    forall p :: lo <= p < base + SIZE ==> At(b, p) == Cell(BLANK, 0)
  }

  /** The invariant of the receive buffer, until a FIN is accepted. The position just before the first
      byte is the SYN's: it is passed over and never written. */
  ghost predicate RecvData(c: Conn) {
    && Valid(c)
    && (Opening(c.state) ==>
          && c.got == [] && c.rbuf == Blank()
          && c.rread + (if c.state.SYN_RCVD? then 1 else 0) >= c.rack)
    && (CanReceive(c.state) ==>
          && 0 <= Base(c) <= c.rread + 1
          && Sending.Holds(c.rbuf, DataCells(c.got), c.rack)
          && BlankAhead(c.rbuf, Base(c), c.rack))
  }

  function DataOf(c: Conn): (seq<Cell>, seq<byte>) {
    (c.rbuf, c.got)
  }

  lemma SameData(c: Conn, d: Conn)
    requires RecvData(c) && Valid(d) && DataOf(d) == DataOf(c) && d.state == c.state
    requires PointersOf(d) == PointersOf(c)
    ensures RecvData(d)
  {
  }

  // Acceptance

  lemma TakeDataHolds(c: Conn, data: seq<byte>)
    requires RecvInv(c) && RecvData(c) && CanReceive(c.state)
    requires c.rnext + |data| <= c.rread + WINDOW
    ensures RecvData(TakeData(c, data).conn)
    ensures TakeData(c, data).conn.got == c.got + data
  {
    var d := TakeData(c, data).conn;
    Sending.HoldsPutRange(c.rbuf, DataCells(c.got), c.rack, data);
    assert DataCells(c.got + data) == DataCells(c.got) + DataCells(data);
    forall p | d.rack <= p < Base(c) + SIZE
      ensures At(d.rbuf, p) == Cell(BLANK, 0)
    {
      PutRangeWithinLap(c.rbuf, c.rack, data, p);
    }
  }

  /** What a step of the machine makes of the receive buffer. */
  lemma StepOnData(c: Conn, input: Input, p: Option<Packet>, routed: bool)
    requires Valid(c)
    requires Lookup(c.state, input).None? || input.ON_RECV_SYN_ACK? ==> p.Some?
    ensures var r, t := Step(c, input, p, routed).conn, Lookup(c.state, input);
      if t.None? || t.value.next.CLOSED? then
        r.state.CLOSED? && DataOf(r) == (Blank(), []) && r.rack == r.rread == 0
      else if t.value.action.DoConnect? then
        r.state.ESTAB? && DataOf(r) == DataOf(c)
        && r.rack == c.rack + p.value.seqNum && r.rread == p.value.seqNum
      else
        && r.state == t.value.next && r.rack == c.rack && r.rread == c.rread && r.got == c.got
        && (r.rbuf == c.rbuf || r.state.CLOSE_WAIT?)
  {
  }

  /** A buffer that nothing has been accepted into meets the invariant, at most one position past what has
      been read. */
  lemma OpenedData(r: Conn)
    requires Valid(r) && CanReceive(r.state)
    requires r.got == [] && r.rbuf == Blank() && r.rack <= r.rread + 1
    ensures RecvData(r)
  {
  }

  /** While data can be accepted. */
  lemma BeforeDataKeepsOpen(c: Conn, p: Packet, routed: bool)
    requires RecvInv(c) && RecvData(c) && CanReceive(c.state)
    ensures RecvData(BeforeData(c, p, routed).conn)
    ensures CanReceive(BeforeData(c, p, routed).conn.state)
      ==> var r := BeforeData(c, p, routed).conn;
          DataOf(r) == DataOf(c) && r.rack == c.rack && r.rread == c.rread
  {
    var c1 := ProcessAck(UpdateWindow(c, p.window), p);
    var c2 := if IsControl(p) then AckData(c1, 1) else c1;
    StepOnData(c2, PacketToInput(p.flags), Some(p), routed);
    var r := BeforeData(c, p, routed).conn;
    if CanReceive(r.state) {
      SameHolding(c, r);
    }
  }

  lemma SameHolding(c: Conn, d: Conn)
    requires RecvData(c) && CanReceive(c.state) && CanReceive(d.state) && Valid(d)
    requires DataOf(d) == DataOf(c) && d.rack == c.rack && d.rread >= c.rread
    ensures RecvData(d)
  {
  }

  /** Before any byte can be accepted. */
  lemma BeforeDataKeepsOpening(c: Conn, p: Packet, routed: bool)
    requires RecvInv(c) && RecvData(c) && Opening(c.state)
    ensures RecvData(BeforeData(c, p, routed).conn)
  {
    var c1 := ProcessAck(UpdateWindow(c, p.window), p);
    var c2 := if IsControl(p) then AckData(c1, 1) else c1;
    StepOnData(c2, PacketToInput(p.flags), Some(p), routed);
    var r := BeforeData(c, p, routed).conn;
    if CanReceive(r.state) {
      OpenedData(r);
    }
  }

  lemma BeforeDataKeepsData(c: Conn, p: Packet, routed: bool)
    requires RecvInv(c) && RecvData(c)
    ensures RecvData(BeforeData(c, p, routed).conn)
  {
    if CanReceive(c.state) {
      BeforeDataKeepsOpen(c, p, routed);
    } else if Opening(c.state) {
      BeforeDataKeepsOpening(c, p, routed);
    } else {
      var c1 := ProcessAck(UpdateWindow(c, p.window), p);
      StepOnData(if IsControl(p) then AckData(c1, 1) else c1, PacketToInput(p.flags), Some(p), routed);
    }
  }

  lemma RefusalKeepsData(c: Conn, p: Packet, routed: bool)
    requires RecvInv(c) && RecvData(c) && !IsValid(c, p.seqNum, |p.payload|)
    ensures var r := Receive(c, p, routed).conn;
      && RecvData(r)
      && (r.state.CLOSED?
          || (r.state == c.state && DataOf(r) == DataOf(c) && r.rread == c.rread && r.rack == c.rack))
  {
  }

  /** Any packet keeps the invariant; while data can still be accepted, it adds to the bytes accepted
      its payload or nothing. */
  lemma ReceiveKeepsData(c: Conn, p: Packet, routed: bool)
    requires RecvInv(c) && RecvData(c)
    requires Accepts(c, p, routed) ==> |p.payload| <= SIZE
    ensures RecvData(Receive(c, p, routed).conn)
    ensures CanReceive(c.state) && CanReceive(Receive(c, p, routed).conn.state)
      ==> var r := Receive(c, p, routed).conn;
          r.rread == c.rread && Base(r) == Base(c)
          && r.got == c.got + if Accepts(c, p, routed) then p.payload else []
  {
    if !IsValid(c, p.seqNum, |p.payload|) {
      RefusalKeepsData(c, p, routed);
    } else {
      BeforeDataKeepsReceiving(c, p, routed);
      BeforeDataKeepsData(c, p, routed);
      if CanReceive(c.state) {
        BeforeDataKeepsOpen(c, p, routed);
      }
      var mid := BeforeData(c, p, routed).conn;
      if Accepts(c, p, routed) {
        AcceptedFits(c, p, routed);
        TakeDataHolds(mid, p.payload);
        assert Receive(c, p, routed).conn == TakeData(mid, p.payload).conn;
      } else {
        assert Receive(c, p, routed).conn == mid;
      }
    }
  }

  lemma UserKeepsData(c: Conn, isn: nat)
    requires RecvInv(c) && RecvData(c)
    ensures RecvData(Connect(c, isn).conn)
    ensures RecvData(Listen(c).conn)
  {
  }

  lemma CloseKeepsData(c: Conn)
    requires RecvInv(c) && RecvData(c)
    ensures RecvData(Close(c).conn)
    ensures CanReceive(c.state) ==> CanReceive(Close(c).conn.state) && DataOf(Close(c).conn) == DataOf(c)
                                    && PointersOf(Close(c).conn) == PointersOf(c)
  {
    if CanClose(c.state) {
      StepOnData(c, ON_CLOSE, None, true);
    }
  }

  lemma WatchdogKeepsData(c: Conn, timeWait: bool, retransmit: bool, connecting: bool)
    requires RecvInv(c) && RecvData(c)
    ensures RecvData(Watchdog(c, timeWait, retransmit, connecting).conn)
    ensures CanReceive(c.state) ==>
      var r := Watchdog(c, timeWait, retransmit, connecting).conn;
      r.state == c.state && DataOf(r) == DataOf(c) && PointersOf(r) == PointersOf(c)
  {
  }

  lemma OpKeepsData(c: Conn, op: Op)
    requires RecvInv(c) && RecvData(c) && Asserts(c, op)
    ensures RecvData(Apply(c, op).conn)
  {
    match op
    case OpConnect(isn) => UserKeepsData(c, isn);
    case OpListen => UserKeepsData(c, 0);
    case OpWrite(_) => SendersTouchNothing(c, op); SameData(c, Apply(c, op).conn);
    case OpRead(_) =>
    case OpClose => CloseKeepsData(c);
    case OpTransmit => SendersTouchNothing(c, op); SameData(c, Apply(c, op).conn);
    case OpArrive(p, routed) => if !HasRst(p.flags) { ReceiveKeepsData(c, p, routed); }
    case OpWatchdog(t, r, k) => WatchdogKeepsData(c, t, r, k);
  }
}
