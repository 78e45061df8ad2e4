/** A segment that was lost while the timer was running is recovered: one end's rewind and the other's ACK,
    together. */
module Recovery {
  import opened Common
  import opened Machine
  import opened Connection
  import opened Sending
  import opened Receiving
  import Arrival
  import opened Runs
  import opened Delivery
  import opened Progress
  import opened Verdict
  import opened Farewell
  import opened Losses

  /** Data of A's is outstanding that B has not accepted; the timer is running, and the flow edge is where B can
      take what it admits. */
  ghost predicate Missing(a: Conn, b: Conn) {
    && Inv(a) && a.state.ESTAB? && a.timer && Start(a) < a.una < a.written && EdgeAhead(a, a.una)
    && Inv(b) && b.state.ESTAB? && b.rack == a.una && a.flow < Edge(b)
    && b.next == a.rack < Edge(a)
  }

  /** Past the SYN an open connection sends bytes only. */
  lemma FaithfulIsData(c: Conn, p: Packet)
    requires c.state.ESTAB? && Shape(c.slog, c.state) && Faithful(p, c.slog, Start(c)) && p.seqNum > Start(c)
    ensures p.payload != [] && p.flags == 0
  {
  }

  lemma SentAgainWithinEdge(a: Conn, a1: Conn, r: Outcome)
    requires Inv(a) && a.timer && a.state.ESTAB? && Start(a) < a.una < a.written && EdgeAhead(a, a.una)
    requires a1 == Watchdog(a, false, true, false).conn
    requires SendAsserts(a1) ==> r == Transmit(a1)
    ensures SendAsserts(a1) && |r.sent| == 1 && !r.sent[0].raw
    ensures var p := r.sent[0].packet;
      && p.payload != [] && p.flags == 0 && p.seqNum == a.una && Faithful(p, a.slog, Start(a))
      && a.una + |p.payload| <= a.flow && a.una + |p.payload| <= r.conn.high
  {
    LostIsSentAgain(a, false, false, a1, r);
    FaithfulIsData(a, r.sent[0].packet);
    VisitKeepsInv(a, false, false, a1);
    FlowNotOverrun(a1, r);
    TransmitFaithful(a1, r);
  }

  /** Sending does not move the receiving half, or the state. */
  lemma StillWaiting(a: Conn, a1: Conn, a2: Conn)
    requires Valid(a) && a.state.ESTAB? && a.timer && a1 == Watchdog(a, false, true, false).conn
    requires SendAsserts(a1) && a2 == Transmit(a1).conn
    ensures a2.state == a.state && PointersOf(a2) == PointersOf(a) && a2.una == a.una
  {
    VisitRewinds(a, false, false);
    SendersTouchNothing(a1, OpTransmit);
  }

  /** An open connection takes a pure ACK. */
  lemma OpenTakesAck(c: Conn, p: Packet) returns (d: Conn)
    requires Inv(c) && c.state.ESTAB? && Fits(c, p, ACK)
    ensures Does(c, OpArrive(p, true), d, []) && d.state.ESTAB? && d.una == Max(c.una, p.ackNum)
  {
    NextIsValid(c);
    PacketLeads(c, p, true);
    AnswerIs(c, p, true);
    AcknowledgementCounts(c, p, true);
    assert HasAck(ACK) && !HasRst(ACK);
    d := Receive(c, p, true).conn;
  }

  /** The watchdog rewinds, the next turn sends the bytes again, B accepts them, which continues what it has
      accepted, and its ACK moves `send_una` past them. */
  lemma LostIsRecovered(a: Conn, b: Conn) returns (a1: Conn, a2: Conn, a3: Conn, b1: Conn, p: Packet)
    requires Missing(a, b)
    ensures Does(a, OpWatchdog(false, true, false), a1, []) && Does(a1, OpTransmit, a2, [p])
    ensures p.payload != [] && p.seqNum == a.una && Faithful(p, a.slog, Start(a))
    ensures Does(b, OpArrive(p, true), b1, [PureAck(b1)]) && b1.got == b.got + p.payload
    ensures Does(a2, OpArrive(PureAck(b1), true), a3, []) && a3.una == a.una + |p.payload| && a3.state.ESTAB?
  {
    a1, a2, p := SendsAgain(a);
    b1 := NextSegmentArrives(b, p);
    SegmentIsTaken(b, p, b1);
    AckFits(a, b, a2, b1, p);
    a3 := OpenTakesAck(a2, PureAck(b1));
  }

  lemma SendsAgain(a: Conn) returns (a1: Conn, a2: Conn, p: Packet)
    requires Inv(a) && a.timer && a.state.ESTAB? && Start(a) < a.una < a.written && EdgeAhead(a, a.una)
    ensures Does(a, OpWatchdog(false, true, false), a1, []) && Does(a1, OpTransmit, a2, [p])
    ensures p.payload != [] && p.flags == 0 && p.seqNum == a.una && Faithful(p, a.slog, Start(a))
    ensures a.una + |p.payload| <= a.flow && a.una + |p.payload| <= a2.high
    ensures Inv(a2) && a2.state.ESTAB? && PointersOf(a2) == PointersOf(a) && a2.una == a.una
  {
    a1 := Watchdog(a, false, true, false).conn;
    VisitRewinds(a, false, false);
    DoesKeepsInv(a, OpWatchdog(false, true, false), a1, []);
    TransmitAsserts(a1);
    var r := Transmit(a1);
    SentAgainWithinEdge(a, a1, r);
    p, a2 := r.sent[0].packet, r.conn;
    DoesKeepsInv(a1, OpTransmit, a2, [p]);
    StillWaiting(a, a1, a2);
  }

  lemma SegmentIsTaken(b: Conn, p: Packet, b1: Conn)
    requires Inv(b) && b.state.ESTAB? && Accepts(b, p, true) && |p.payload| <= SIZE && b1 == Receive(b, p, true).conn
    ensures b1.got == b.got + p.payload
  {
    Arrival.ReceiveKeepsData(b, p, true);
    AcceptingKeepsOpen(b, p, true);
  }

  lemma AckFits(a: Conn, b: Conn, a2: Conn, b1: Conn, p: Packet)
    requires Missing(a, b) && PointersOf(a2) == PointersOf(a) && a.una + |p.payload| <= a2.high
    requires b1.next == b.next && b1.rack == b.rack + |p.payload|
    ensures Fits(a2, PureAck(b1), ACK) && PureAck(b1).ackNum == a.una + |p.payload|
  {
  }
}
