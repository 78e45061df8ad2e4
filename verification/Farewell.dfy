/** How connections end: closing and the three ways through the closing states, as exchanges of two sockets. */
module Farewell {
  import opened Common
  import opened RingBuffer
  import opened Machine
  import opened Connection
  import opened Sending
  import opened Receiving
  import opened Runs
  import opened Handshake
  import opened Exchange
  import opened Progress
  import opened Verdict

  // The steps on the way

  /** Closing queues a FIN right after all that was written, sends nothing at once, and ends writing. */
  lemma CloseQueuesFin(c: Conn)
    requires Valid(c) && CanSend(c.state)
    ensures var next := if c.state.ESTAB? then FIN_WAIT1 else LAST_ACK;
      && Close(c) == Outcome(QueueFlags(c, FIN).(prev := c.state, state := next), [])
      && !CanSend(next) && !CanClose(next)
    ensures QueueFlags(c, FIN).written == c.written + 1
         && QueueFlags(c, FIN).slog == c.slog + [Cell(FLAG, FIN)]
  {
  }

  /** Where closing is not allowed it does nothing; in LISTEN the socket starts over. */
  lemma CloseElsewhere(c: Conn)
    requires Valid(c) && !CanSend(c.state)
    ensures Close(c) == if c.state.LISTEN? then Outcome(Anew(LISTEN), []) else Outcome(c, [])
  {
  }

  /** When all before the FIN has been sent and the flow edge is ahead, a turn of the send thread sends the FIN
      and starts the timer. */
  lemma FinIsSent(c: Conn, r: Outcome)
    requires Inv(c) && FinQueued(c.state) && c.next + 1 == c.written && EdgeAhead(c, c.next)
    requires SendAsserts(c) ==> r == Transmit(c)
    ensures SendAsserts(c)
    ensures r.sent == [Emitted(Packet(c.next, c.rack, FIN, Uint16(c.rread + c.recvWindow - c.rnext), []), false)]
    ensures r.conn == c.(next := c.next + 1, high := Max(c.high, c.next + 1), timer := true)
  {
    TransmitAsserts(c);
    assert Sendable(c) == 1;
    CellToSend(c, c.next);
    ControlAlone(c.sbuf, c.next, 1);
  }

  /** So the FIN is numbered right after all that was written. */
  lemma FinIsNumberedLast(c: Conn, w: seq<byte>, r: Outcome)
    requires Inv(c) && FinQueued(c.state) && LogIs(c.slog, c.state, w)
    requires c.next == Start(c) + 1 + |w| && EdgeAhead(c, c.next)
    requires SendAsserts(c) ==> r == Transmit(c)
    ensures |r.sent| == 1 && !r.sent[0].raw && r.sent[0].packet.payload == []
    ensures r.sent[0].packet.flags == FIN && r.sent[0].packet.seqNum == Start(c) + 1 + |w|
  {
    FinIsSent(c, r);
  }

  /** The pure ACK of a FIN. */
  function FinAck(c: Conn): Packet {
    Packet(c.next, c.rack + 1, ACK, Uint16(c.rread + c.recvWindow - (c.rnext + 1)), [])
  }

  /** The connection after a FIN, but for the states and the EOF. */
  function WithFin(c: Conn, p: Packet): Conn {
    c.(flow := c.una + p.window, rack := c.rack + 1, rnext := c.rnext + 1,
       sendWindow := Uint16(c.rread + c.recvWindow - (c.rnext + 1)), timer := false)
  }

  /** An acceptable FIN is acknowledged at once, and in ESTAB the end of the stream is queued. */
  lemma FinIsTaken(c: Conn, p: Packet, routed: bool)
    requires Valid(c) && IsValid(c, p.seqNum, |p.payload|) && p.flags == FIN
    requires c.state.ESTAB? || c.state.FIN_WAIT1? || c.state.FIN_WAIT2?
    ensures !Accepts(c, p, routed)
    ensures var r, d := Receive(c, p, routed), WithFin(c, p).(prev := c.state);
      && r.sent == [Emitted(FinAck(c), false)]
      && r.conn == if c.state.ESTAB? then QueueEof(d.(state := CLOSE_WAIT))
                   else d.(state := if c.state.FIN_WAIT1? then CLOSING else TIME_WAIT)
  {
    var d := AckData(UpdateWindow(c, p.window), 1);
    FinCounts(c, p, d);
    FinSteps(d, p, routed, FinAck(c), WithFin(c, p));
    assert Receive(c, p, routed) == BeforeData(c, p, routed) == Step(d, ON_RECV_FIN, Some(p), routed);
  }

  lemma FinCounts(c: Conn, p: Packet, d: Conn)
    requires d == AckData(UpdateWindow(c, p.window), 1)
    ensures d.(timer := false) == WithFin(c, p) && PureAck(d) == FinAck(c)
    ensures d.state == c.state && d.sbuf == c.sbuf && d.rbuf == c.rbuf
  {
  }

  lemma FinSteps(c: Conn, p: Packet, routed: bool, a: Packet, e: Conn)
    requires Valid(c) && (c.state.ESTAB? || c.state.FIN_WAIT1? || c.state.FIN_WAIT2?)
    requires a == PureAck(c) && e == c.(timer := false)
    ensures var r, d := Step(c, ON_RECV_FIN, Some(p), routed), e.(prev := c.state);
      && r.sent == [Emitted(a, false)]
      && r.conn == if c.state.ESTAB? then QueueEof(d.(state := CLOSE_WAIT))
                   else d.(state := if c.state.FIN_WAIT1? then CLOSING else TIME_WAIT)
  {
  }

  /** An acceptable pure ACK moves a closing connection on, whatever its number: out of FIN_WAIT1 and CLOSING, and
      in LAST_ACK to its end. */
  lemma AckIsTaken(c: Conn, p: Packet, routed: bool)
    requires Valid(c) && IsValid(c, p.seqNum, 0) && p.flags == ACK && p.payload == []
    requires c.state.FIN_WAIT1? || c.state.CLOSING? || c.state.LAST_ACK?
    ensures !Accepts(c, p, routed)
    ensures Receive(c, p, routed) ==
      if c.state.LAST_ACK? then Outcome(Anew(LAST_ACK), [])
      else Outcome(c.(state := if c.state.FIN_WAIT1? then FIN_WAIT2 else TIME_WAIT, prev := c.state,
                      flow := c.una + p.window, una := Max(c.una, p.ackNum),
                      timer := c.timer && p.ackNum <= c.una), [])
  {
    var d := ProcessAck(UpdateWindow(c, p.window), p);
    AckSteps(d, p, routed);
    assert BeforeData(c, p, routed) == Step(d, ON_RECV_ACK, Some(p), routed);
  }

  lemma AckSteps(c: Conn, p: Packet, routed: bool)
    requires Valid(c) && (c.state.FIN_WAIT1? || c.state.CLOSING? || c.state.LAST_ACK?)
    ensures Step(c, ON_RECV_ACK, Some(p), routed) ==
      if c.state.LAST_ACK? then Outcome(Anew(LAST_ACK), [])
      else Outcome(c.(state := if c.state.FIN_WAIT1? then FIN_WAIT2 else TIME_WAIT, prev := c.state), [])
  {
  }

  lemma TimeWaitEnds(c: Conn, retransmit: bool, connecting: bool)
    requires Valid(c) && c.state.TIME_WAIT?
    ensures Watchdog(c, true, retransmit, connecting) == Outcome(Anew(TIME_WAIT), [])
  {
  }

  // The steps as operations

  /** The operation is allowed, fires no assertion, makes `d` of `c`, and sends `packets`. */
  ghost predicate Does(c: Conn, op: Op, d: Conn, packets: seq<Packet>) {
    && Valid(c) && Allowed(c, op) && Asserts(c, op)
    && Apply(c, op).conn == d
    && |Apply(c, op).sent| == |packets|
    && forall i :: 0 <= i < |packets| ==> Apply(c, op).sent[i] == Emitted(packets[i], false)
  }

  lemma DoesKeepsInv(c: Conn, op: Op, d: Conn, packets: seq<Packet>)
    requires Inv(c) && Does(c, op, d, packets)
    ensures Inv(d)
  {
    OpKeepsInv(c, op);
  }

  /** An end that has closed and sent its FIN. */
  ghost predicate HasSentFin(c: Conn, e: Conn, fin: Packet) {
    && Inv(e) && e.state == (if c.state.ESTAB? then FIN_WAIT1 else LAST_ACK)
    && e.next == e.written == e.high == c.next + 1 && e.una == c.una && e.flow == c.flow
    && PointersOf(e) == PointersOf(c)
    && fin.seqNum == c.next && fin.flags == FIN && fin.payload == []
    && fin.window == Uint16(c.rread + c.recvWindow - c.rnext)
  }

  /** An end that has taken the FIN `p`. */
  ghost predicate HasTakenFin(c: Conn, p: Packet, d: Conn) {
    && Inv(d) && d.state == (if c.state.ESTAB? then CLOSE_WAIT else if c.state.FIN_WAIT1? then CLOSING else TIME_WAIT)
    && d.rack == c.rack + 1 && Edge(d) == Edge(c) && d.flow == c.una + p.window
    && d.una == c.una && d.next == c.next && d.written == c.written && d.high == c.high
  }

  /** An end that has taken the pure ACK `p`. */
  ghost predicate HasTakenAck(c: Conn, p: Packet, d: Conn) {
    && Inv(d) && d.state == (if c.state.FIN_WAIT1? then FIN_WAIT2 else TIME_WAIT)
    && PointersOf(d) == PointersOf(c) && d.next == c.next && d.high == c.high && d.una == Max(c.una, p.ackNum)
  }

  /** A bare control packet, the next one expected, with a position of the window open for it. */
  ghost predicate Fits(c: Conn, p: Packet, flags: byte) {
    p.flags == flags && p.payload == [] && p.seqNum == c.rack < Edge(c) && (flags == ACK ==> p.ackNum <= c.high)
  }

  /** Closing, and the turn that sends the FIN. */
  lemma ClosesAndSends(c: Conn) returns (d: Conn, e: Conn, fin: Packet)
    requires Inv(c) && CanSend(c.state) && c.next == c.written && EdgeAhead(c, c.next)
    ensures Does(c, OpClose, d, []) && Does(d, OpTransmit, e, [fin])
    ensures d.state == e.state && HasSentFin(c, e, fin)
  {
    CloseQueuesFin(c);
    d := Close(c).conn;
    DoesKeepsInv(c, OpClose, d, []);
    TransmitAsserts(d);
    FinIsSent(d, Transmit(d));
    e := Transmit(d).conn;
    fin := Transmit(d).sent[0].packet;
    DoesKeepsInv(d, OpTransmit, e, [fin]);
  }

  /** The next expected packet, without data, is acceptable when the window is open. */
  lemma NextIsValid(c: Conn)
    requires RecvInv(c) && c.rack < Edge(c)
    ensures IsValid(c, c.rack, 0)
  {
    TestsAgreeNearby(c, c.rack, 0);
  }

  lemma TakesFin(c: Conn, p: Packet) returns (d: Conn)
    requires Inv(c) && (c.state.ESTAB? || c.state.FIN_WAIT1? || c.state.FIN_WAIT2?) && Fits(c, p, FIN)
    ensures Does(c, OpArrive(p, true), d, [FinAck(c)]) && HasTakenFin(c, p, d)
  {
    NextIsValid(c);
    FinIsTaken(c, p, true);
    assert !HasAck(FIN) && !HasRst(FIN);
    d := Receive(c, p, true).conn;
    DoesKeepsInv(c, OpArrive(p, true), d, [FinAck(c)]);
  }

  lemma TakesAck(c: Conn, p: Packet) returns (d: Conn)
    requires Inv(c) && (c.state.FIN_WAIT1? || c.state.CLOSING?) && Fits(c, p, ACK)
    ensures Does(c, OpArrive(p, true), d, []) && HasTakenAck(c, p, d)
  {
    NextIsValid(c);
    AckIsTaken(c, p, true);
    assert !HasRst(ACK);
    d := Receive(c, p, true).conn;
    DoesKeepsInv(c, OpArrive(p, true), d, []);
  }

  lemma TakesLastAck(c: Conn, p: Packet) returns (d: Conn)
    requires Inv(c) && c.state.LAST_ACK? && Fits(c, p, ACK)
    ensures Does(c, OpArrive(p, true), d, []) && d == Anew(LAST_ACK)
  {
    NextIsValid(c);
    AckIsTaken(c, p, true);
    assert !HasRst(ACK);
    d := Receive(c, p, true).conn;
  }

  lemma TimesOut(c: Conn, retransmit: bool, connecting: bool) returns (d: Conn)
    requires Inv(c) && c.state.TIME_WAIT?
    ensures Does(c, OpWatchdog(true, retransmit, connecting), d, []) && d == Anew(TIME_WAIT)
  {
    TimeWaitEnds(c, retransmit, connecting);
    d := Anew(TIME_WAIT);
  }

  // Whole exchanges

  /** All that `x` wrote has been accepted by `y` and acknowledged; `x` may send one position more, and `y`
      has room for two. */
  ghost predicate AtRest(x: Conn, y: Conn) {
    && x.state.ESTAB? && Inv(x)
    && x.una == x.next == x.written == y.rack && EdgeAhead(x, x.next)
    && y.rack + 2 <= Edge(y)
  }

  /** What the second half of the exchange needs of the first. */
  ghost predicate HalfClosed(x: Conn, y: Conn) {
    && Inv(x) && x.state.FIN_WAIT2? && x.rack == y.next && x.rack < Edge(x)
    && Inv(y) && y.state.CLOSE_WAIT? && y.rack == x.next && y.rack < Edge(y)
    && y.next == y.written && EdgeAhead(y, y.next)
  }

  lemma FirstFinFits(a: Conn, b: Conn, a2: Conn, fin: Packet)
    requires AtRest(a, b) && AtRest(b, a) && HasSentFin(a, a2, fin)
    ensures Fits(b, fin, FIN) && Fits(a2, FinAck(b), ACK)
  {
  }

  lemma HalfIsClosed(a: Conn, b: Conn, a2: Conn, a3: Conn, b1: Conn, fin: Packet)
    requires AtRest(a, b) && AtRest(b, a) && HasSentFin(a, a2, fin)
    requires HasTakenFin(b, fin, b1) && HasTakenAck(a2, FinAck(b), a3)
    ensures HalfClosed(a3, b1)
  {
  }

  lemma OneCloses(a: Conn, b: Conn) returns (a1: Conn, a2: Conn, a3: Conn, b1: Conn, finX: Packet)
    requires AtRest(a, b) && AtRest(b, a)
    ensures Does(a, OpClose, a1, []) && a1.state.FIN_WAIT1?
    ensures Does(a1, OpTransmit, a2, [finX]) && a2.state.FIN_WAIT1?
    ensures Does(b, OpArrive(finX, true), b1, [FinAck(b)])
    ensures Does(a2, OpArrive(FinAck(b), true), a3, [])
    ensures HalfClosed(a3, b1)
  {
    a1, a2, finX := ClosesAndSends(a);
    FirstFinFits(a, b, a2, finX);
    b1 := TakesFin(b, finX);
    a3 := TakesAck(a2, FinAck(b));
    HalfIsClosed(a, b, a2, a3, b1, finX);
  }

  lemma MayClose(a3: Conn, b1: Conn)
    requires HalfClosed(a3, b1)
    ensures Inv(b1) && b1.state.CLOSE_WAIT? && b1.next == b1.written && EdgeAhead(b1, b1.next)
  {
  }

  lemma SecondFinFits(a3: Conn, b1: Conn, b3: Conn, fin: Packet)
    requires HalfClosed(a3, b1) && HasSentFin(b1, b3, fin)
    ensures Inv(a3) && a3.state.FIN_WAIT2? && Fits(a3, fin, FIN)
    ensures Inv(b3) && b3.state.LAST_ACK? && Fits(b3, FinAck(a3), ACK)
  {
  }

  lemma OtherCloses(a3: Conn, b1: Conn) returns (b2: Conn, b3: Conn, finY: Packet)
    requires HalfClosed(a3, b1)
    ensures Does(b1, OpClose, b2, []) && b2.state.LAST_ACK?
    ensures Does(b2, OpTransmit, b3, [finY]) && b3.state.LAST_ACK? && HasSentFin(b1, b3, finY)
  {
    MayClose(a3, b1);
    b2, b3, finY := ClosesAndSends(b1);
  }

  lemma OtherEnds(a3: Conn, b3: Conn, finY: Packet) returns (a4: Conn, b4: Conn)
    requires Inv(a3) && a3.state.FIN_WAIT2? && Fits(a3, finY, FIN)
    requires Inv(b3) && b3.state.LAST_ACK? && Fits(b3, FinAck(a3), ACK)
    ensures Does(a3, OpArrive(finY, true), a4, [FinAck(a3)]) && a4.state.TIME_WAIT? && Inv(a4)
    ensures Does(b3, OpArrive(FinAck(a3), true), b4, []) && b4 == Anew(LAST_ACK)
  {
    a4 := TakesFin(a3, finY);
    b4 := TakesLastAck(b3, FinAck(a3));
  }

  /** From any two sockets at rest in ESTAB: one closes, then the other, everything being delivered in order. The
      one that closed first goes through FIN_WAIT1, FIN_WAIT2 and TIME_WAIT, the other through CLOSE_WAIT
      and LAST_ACK, and both start over. Each of the four packets is given to the other end as it was sent. */
  lemma OneClosesThenOther(a: Conn, b: Conn, retransmit: bool, connecting: bool)
    returns (a1: Conn, a2: Conn, a3: Conn, a4: Conn, a5: Conn, b1: Conn, b2: Conn, b3: Conn, b4: Conn,
             finA: Packet, ackB: Packet, finB: Packet, ackA: Packet)
    requires AtRest(a, b) && AtRest(b, a)
    ensures Does(a, OpClose, a1, []) && a1.state.FIN_WAIT1?
    ensures Does(a1, OpTransmit, a2, [finA]) && a2.state.FIN_WAIT1?
    ensures Does(b, OpArrive(finA, true), b1, [ackB]) && b1.state.CLOSE_WAIT?
    ensures Does(a2, OpArrive(ackB, true), a3, []) && a3.state.FIN_WAIT2?
    ensures Does(b1, OpClose, b2, []) && b2.state.LAST_ACK?
    ensures Does(b2, OpTransmit, b3, [finB]) && b3.state.LAST_ACK?
    ensures Does(a3, OpArrive(finB, true), a4, [ackA]) && a4.state.TIME_WAIT?
    ensures Does(b3, OpArrive(ackA, true), b4, []) && b4 == Anew(LAST_ACK)
    ensures Does(a4, OpWatchdog(true, retransmit, connecting), a5, []) && a5 == Anew(TIME_WAIT)
  {
    a1, a2, a3, b1, finA := OneCloses(a, b);
    b2, b3, finB := OtherCloses(a3, b1);
    SecondFinFits(a3, b1, b3, finB);
    a4, b4 := OtherEnds(a3, b3, finB);
    a5 := TimesOut(a4, retransmit, connecting);
    ackB, ackA := FinAck(b), FinAck(a3);
  }

  /** The way of one end through a simultaneous close. */
  ghost predicate Crosses(a: Conn, a1: Conn, a2: Conn, a3: Conn, a4: Conn, a5: Conn, fin: Packet, ack: Packet,
                          finIn: Packet, ackIn: Packet, retransmit: bool, connecting: bool)
  {
    && Does(a, OpClose, a1, []) && a1.state.FIN_WAIT1?
    && Does(a1, OpTransmit, a2, [fin]) && a2.state.FIN_WAIT1?
    && Does(a2, OpArrive(finIn, true), a3, [ack]) && a3.state.CLOSING?
    && Does(a3, OpArrive(ackIn, true), a4, []) && a4.state.TIME_WAIT?
    && Does(a4, OpWatchdog(true, retransmit, connecting), a5, []) && a5 == Anew(TIME_WAIT)
  }

  /** Both close at once: their FINs cross, both go through FIN_WAIT1, CLOSING and TIME_WAIT, and start over. */
  lemma BothCloseAtOnce(a: Conn, b: Conn, retransmit: bool, connecting: bool)
    returns (a1: Conn, a2: Conn, a3: Conn, a4: Conn, a5: Conn, b1: Conn, b2: Conn, b3: Conn, b4: Conn, b5: Conn,
             finA: Packet, ackA: Packet, finB: Packet, ackB: Packet)
    requires AtRest(a, b) && AtRest(b, a)
    ensures Crosses(a, a1, a2, a3, a4, a5, finA, ackA, finB, ackB, retransmit, connecting)
    ensures Crosses(b, b1, b2, b3, b4, b5, finB, ackB, finA, ackA, retransmit, connecting)
  {
    a1, a2, finA := ClosesAndSends(a);
    b1, b2, finB := ClosesAndSends(b);
    ackA, ackB := FinAck(a2), FinAck(b2);
    CrossingFits(a, b, a2, b2, finA, finB);
    CrossingFits(b, a, b2, a2, finB, finA);
    a3, a4, a5 := GoesOnCrossing(a, a1, a2, finA, finB, ackB, retransmit, connecting);
    b3, b4, b5 := GoesOnCrossing(b, b1, b2, finB, finA, ackA, retransmit, connecting);
  }

  lemma CrossingFits(a: Conn, b: Conn, a2: Conn, b2: Conn, finA: Packet, finB: Packet)
    requires AtRest(a, b) && AtRest(b, a) && HasSentFin(a, a2, finA) && HasSentFin(b, b2, finB)
    ensures Fits(a2, finB, FIN) && AckIsNext(a2, FinAck(b2))
  {
  }

  /** The ACK of our FIN, before the peer's FIN has come. */
  ghost predicate AckIsNext(c: Conn, ack: Packet) {
    && ack.flags == ACK && ack.payload == [] && ack.ackNum <= c.high
    && ack.seqNum == c.rack + 1 < Edge(c)
  }

  lemma NextAckFits(c: Conn, p: Packet, d: Conn, ack: Packet)
    requires AckIsNext(c, ack) && HasTakenFin(c, p, d)
    ensures Fits(d, ack, ACK)
  {
  }

  lemma GoesOnCrossing(a: Conn, a1: Conn, a2: Conn, fin: Packet, finIn: Packet, ackIn: Packet,
                       retransmit: bool, connecting: bool)
    returns (a3: Conn, a4: Conn, a5: Conn)
    requires Does(a, OpClose, a1, []) && a1.state.FIN_WAIT1?
    requires Does(a1, OpTransmit, a2, [fin]) && a2.state.FIN_WAIT1? && Inv(a2)
    requires Fits(a2, finIn, FIN) && AckIsNext(a2, ackIn)
    ensures Crosses(a, a1, a2, a3, a4, a5, fin, FinAck(a2), finIn, ackIn, retransmit, connecting)
  {
    a3 := TakesFin(a2, finIn);
    NextAckFits(a2, finIn, a3, ackIn);
    a4 := TakesAck(a3, ackIn);
    a5 := TimesOut(a4, retransmit, connecting);
  }

  // Whole lives

  lemma StepGoesOn(cs: seq<Conn>, ops: seq<Op>, c: Conn, op: Op, d: Conn, packets: seq<Packet>)
    requires EndsIn(cs, ops, c) && Does(c, op, d, packets)
    ensures EndsIn(cs + [d], ops + [op], d)
  {
    RunGoesOn(cs, ops, c, op, d);
  }

  lemma RestAfterHandshake(isnA: nat, isnB: nat)
    requires Inv(Caller(isnA, isnB)) && Inv(Callee(isnB, isnA))
    ensures AtRest(Caller(isnA, isnB), Callee(isnB, isnA)) && AtRest(Callee(isnB, isnA), Caller(isnA, isnB))
  {
  }

  lemma FirstGoesOn(cs: seq<Conn>, ops: seq<Op>, a: Conn, a1: Conn, a2: Conn, a3: Conn, a4: Conn, a5: Conn,
                    finA: Packet, ackB: Packet, finB: Packet, ackA: Packet, visit: Op)
    returns (cs': seq<Conn>, ops': seq<Op>)
    requires EndsIn(cs, ops, a) && Does(a, OpClose, a1, []) && Does(a1, OpTransmit, a2, [finA])
    requires Does(a2, OpArrive(ackB, true), a3, []) && Does(a3, OpArrive(finB, true), a4, [ackA])
    requires Does(a4, visit, a5, [])
    ensures EndsIn(cs', ops', a5) && cs'[0] == cs[0]
    ensures ops' == ops + [OpClose] + [OpTransmit] + [OpArrive(ackB, true)] + [OpArrive(finB, true)] + [visit]
  {
    StepGoesOn(cs, ops, a, OpClose, a1, []);
    cs', ops' := cs + [a1], ops + [OpClose];
    StepGoesOn(cs', ops', a1, OpTransmit, a2, [finA]);
    cs', ops' := cs' + [a2], ops' + [OpTransmit];
    StepGoesOn(cs', ops', a2, OpArrive(ackB, true), a3, []);
    cs', ops' := cs' + [a3], ops' + [OpArrive(ackB, true)];
    StepGoesOn(cs', ops', a3, OpArrive(finB, true), a4, [ackA]);
    cs', ops' := cs' + [a4], ops' + [OpArrive(finB, true)];
    StepGoesOn(cs', ops', a4, visit, a5, []);
    cs', ops' := cs' + [a5], ops' + [visit];
  }

  lemma SecondGoesOn(cs: seq<Conn>, ops: seq<Op>, b: Conn, b1: Conn, b2: Conn, b3: Conn, b4: Conn,
                     finA: Packet, ackB: Packet, finB: Packet, ackA: Packet)
    returns (cs': seq<Conn>, ops': seq<Op>)
    requires EndsIn(cs, ops, b) && Does(b, OpArrive(finA, true), b1, [ackB]) && Does(b1, OpClose, b2, [])
    requires Does(b2, OpTransmit, b3, [finB]) && Does(b3, OpArrive(ackA, true), b4, [])
    ensures EndsIn(cs', ops', b4) && cs'[0] == cs[0]
    ensures ops' == ops + [OpArrive(finA, true)] + [OpClose] + [OpTransmit] + [OpArrive(ackA, true)]
  {
    StepGoesOn(cs, ops, b, OpArrive(finA, true), b1, [ackB]);
    cs', ops' := cs + [b1], ops + [OpArrive(finA, true)];
    StepGoesOn(cs', ops', b1, OpClose, b2, []);
    cs', ops' := cs' + [b2], ops' + [OpClose];
    StepGoesOn(cs', ops', b2, OpTransmit, b3, [finB]);
    cs', ops' := cs' + [b3], ops' + [OpTransmit];
    StepGoesOn(cs', ops', b3, OpArrive(ackA, true), b4, []);
    cs', ops' := cs' + [b4], ops' + [OpArrive(ackA, true)];
  }

  /** A connection from end to end, as runs of the two sockets: a new socket calls, the socket cloned for it
      answers, the caller closes and then the callee, and both have started over. */
  lemma WholeLife(isnA: nat, isnB: nat)
    returns (csA: seq<Conn>, opsA: seq<Op>, csB: seq<Conn>, opsB: seq<Op>,
             finA: Packet, ackB: Packet, finB: Packet, ackA: Packet)
    requires isnA < 0x1_0000_0000 && isnA != WINDOW && isnB % SIZE < WINDOW
    ensures EndsIn(csA, opsA, Anew(TIME_WAIT)) && csA[0] == NewSocket()
    ensures EndsIn(csB, opsB, Anew(LAST_ACK)) && csB[0] == Clone(isnB, isnA)
    ensures opsA == [OpConnect(isnA), OpTransmit, OpArrive(TheAnswer(isnB, isnA), true)]
      + [OpClose] + [OpTransmit] + [OpArrive(ackB, true)] + [OpArrive(finB, true)] + [OpWatchdog(true, false, false)]
    ensures opsB == [OpArrive(TheSyn(isnA), true), OpTransmit, OpArrive(TheAck(isnA, isnB), true)]
      + [OpArrive(finA, true)] + [OpClose] + [OpTransmit] + [OpArrive(ackA, true)]
  {
    csA, opsA := CallerIsReached(isnA, isnB);
    csB, opsB := CalleeIsReached(isnB, isnA);
    RunKeepsInv(csA, opsA, |opsA|);
    RestAfterHandshake(isnA, isnB);
    csA, opsA, csB, opsB, finA, ackB, finB, ackA :=
      LivesEnd(csA, opsA, csB, opsB, Caller(isnA, isnB), Callee(isnB, isnA));
  }

  /** So do any two runs that end in sockets at rest with each other. */
  lemma LivesEnd(csA: seq<Conn>, opsA: seq<Op>, csB: seq<Conn>, opsB: seq<Op>, a: Conn, b: Conn)
    returns (csA': seq<Conn>, opsA': seq<Op>, csB': seq<Conn>, opsB': seq<Op>,
             finA: Packet, ackB: Packet, finB: Packet, ackA: Packet)
    requires EndsIn(csA, opsA, a) && EndsIn(csB, opsB, b) && AtRest(a, b) && AtRest(b, a)
    ensures EndsIn(csA', opsA', Anew(TIME_WAIT)) && csA'[0] == csA[0]
    ensures EndsIn(csB', opsB', Anew(LAST_ACK)) && csB'[0] == csB[0]
    ensures opsA' == opsA + [OpClose] + [OpTransmit] + [OpArrive(ackB, true)] + [OpArrive(finB, true)]
                     + [OpWatchdog(true, false, false)]
    ensures opsB' == opsB + [OpArrive(finA, true)] + [OpClose] + [OpTransmit] + [OpArrive(ackA, true)]
  {
    var a1, a2, a3, a4, a5, b1, b2, b3, b4;
    a1, a2, a3, a4, a5, b1, b2, b3, b4, finA, ackB, finB, ackA := OneClosesThenOther(a, b, false, false);
    csA', opsA' := FirstGoesOn(csA, opsA, a, a1, a2, a3, a4, a5, finA, ackB, finB, ackA,
                               OpWatchdog(true, false, false));
    csB', opsB' := SecondGoesOn(csB, opsB, b, b1, b2, b3, b4, finA, ackB, finB, ackA);
  }
}
