/** What a connection does of its own when there is something to do: it sends what waits, sends again what
    was lost, acknowledges what it accepts, and answers what it refuses. */
module Progress {
  import opened Common
  import opened RingBuffer
  import opened Machine
  import opened Connection
  import opened Sending
  import opened Receiving
  import opened Runs

  // Sending

  /** The flow edge is ahead of position `p`. */
  predicate EdgeAhead(c: Conn, p: nat) {
    p < c.flow < p + 0x1_0000_0000
  }

  /** When something waits and the flow edge is ahead, a turn of the send thread sends one segment, at
      `send_next`, faithful to the log, and starts the timer. */
  lemma TurnSends(c: Conn, r: Outcome)
    requires Valid(c) && SendInv(c) && SendAsserts(c) && r == Transmit(c)
    requires c.next < c.written < c.next + 0x1_0000_0000 && EdgeAhead(c, c.next)
    ensures |r.sent| == 1 && !r.sent[0].raw
    ensures var p := r.sent[0].packet;
      && p.seqNum == c.next && p.ackNum == c.rack && Faithful(p, c.slog, Start(c))
      && r.conn.next == c.next + Extent(p) && r.conn.timer
  {
    TransmitFaithful(c, r);
    ReadToSend(c);
    SentFlagIsNoAck(c, r.sent[0].packet);
  }

  lemma SentFlagIsNoAck(c: Conn, p: Packet)
    requires Shape(c.slog, c.state) && Faithful(p, c.slog, Start(c))
    ensures !(p.flags == ACK && p.payload == [])
  {
  }

  /** It sends as much as it can: up to all that is written, up to the flow edge, or up to a control cell. */
  lemma TurnSendsAll(c: Conn, r: Outcome)
    requires Valid(c) && SendInv(c) && SendAsserts(c) && r == Transmit(c)
    requires c.next < c.written < c.next + 0x1_0000_0000 && EdgeAhead(c, c.next)
    requires At(c.sbuf, c.next).kind == DATA
    ensures var end := r.conn.next;
      end == c.written || end == c.flow || (end < c.written && c.slog[end - Start(c)].kind == FLAG)
  {
    ReadToSend(c);
    var n := DataRun(c.sbuf, c.next, Sendable(c));
    if n < Sendable(c) {
      CellToSend(c, c.next + n);
    }
  }

  // Sending again

  /** A visit of the watchdog on which the retransmission clock alone runs out. */
  ghost predicate OnlyRetransmits(c: Conn, timeWait: bool, connecting: bool) {
    !c.state.CLOSED? && !(c.state.TIME_WAIT? && timeWait) && !(c.state.SYN_SENT? && connecting)
  }

  /** It takes `send_next` back to the first position not acknowledged, and stops the timer. */
  lemma VisitRewinds(c: Conn, timeWait: bool, connecting: bool)
    requires Valid(c) && c.timer && OnlyRetransmits(c, timeWait, connecting)
    ensures Watchdog(c, timeWait, true, connecting) == Outcome(c.(next := c.una, timer := false), [])
  {
  }

  /** The visit leaves the invariants, and the next turn of the send thread fires no assertion. */
  lemma VisitKeepsInv(c: Conn, timeWait: bool, connecting: bool, d: Conn)
    requires Inv(c) && c.timer && OnlyRetransmits(c, timeWait, connecting)
    requires d == Watchdog(c, timeWait, true, connecting).conn
    ensures d == c.(next := c.una, timer := false) && Valid(d) && SendInv(d) && SendAsserts(d)
  {
    VisitRewinds(c, timeWait, connecting);
    WatchdogKeepsSending(c, timeWait, true, connecting);
    TransmitAsserts(d);
  }

  lemma Waiting(c: Conn)
    requires SendInv(c) && c.una < c.written
    ensures c.una < c.written < c.una + 0x1_0000_0000
  {
  }

  /** What was sent and not acknowledged is sent again: after such a visit, the flow edge being ahead, the next
      turn of the send thread sends one segment, numbered at the first position not acknowledged, with
      what was queued there, and starts the timer again. */
  lemma LostIsSentAgain(c: Conn, timeWait: bool, connecting: bool, d: Conn, r: Outcome)
    requires Inv(c) && c.timer && OnlyRetransmits(c, timeWait, connecting)
    requires c.una < c.written && EdgeAhead(c, c.una)
    requires d == Watchdog(c, timeWait, true, connecting).conn
    requires SendAsserts(d) ==> r == Transmit(d)
    ensures d.next == c.una && !d.timer && SendAsserts(d)
    ensures |r.sent| == 1 && !r.sent[0].raw
    ensures var p := r.sent[0].packet;
      p.seqNum == c.una && Faithful(p, c.slog, Start(c)) && r.conn.next > c.una && r.conn.timer
  {
    VisitKeepsInv(c, timeWait, connecting, d);
    Waiting(c);
    RewoundSends(c, d, r);
  }

  lemma RewoundSends(c: Conn, d: Conn, r: Outcome)
    requires Valid(d) && SendInv(d) && SendAsserts(d) && r == Transmit(d)
    requires d.next == c.una && d.written == c.written && d.flow == c.flow && d.slog == c.slog
    requires c.una < c.written < c.una + 0x1_0000_0000 && EdgeAhead(c, c.una)
    ensures |r.sent| == 1 && !r.sent[0].raw
    ensures var p := r.sent[0].packet;
      p.seqNum == c.una && Faithful(p, c.slog, Start(c)) && r.conn.next > c.una && r.conn.timer
  {
    assert Start(d) == Start(c) && EdgeAhead(d, d.next);
    TurnSends(d, r);
  }

  // Writing

  /** `v_write` takes the bytes it takes from the front, and either takes all or leaves no room; it may be
      called in ESTAB and CLOSE_WAIT. */
  lemma WriteFillsTheWindow(c: Conn, data: seq<byte>)
    requires Inv(c) && (c.state.ESTAB? || c.state.CLOSE_WAIT?) && Room(c) > 0
    ensures WriteAsserts(c, data)
    ensures var d, taken := Write(c, data), AcceptedBytes(c, OpWrite(data));
      && taken <= data && d.slog == c.slog + DataCells(taken) && d.written == c.written + |taken|
      && (taken == data || d.written == d.una + d.sendWindow)
      && d.una == c.una && d.sendWindow == c.sendWindow
  {
    WriteSafeIffRoom(c, data);
  }

  // Acknowledging

  function PureAck(c: Conn): Packet {
    Packet(c.next, c.rack, ACK, Uint16(c.rread + c.recvWindow - c.rnext), [])
  }

  /** A payload that is accepted leaves the machine where it was, or completes the handshake, and sends
      nothing before its acknowledgement. */
  lemma PayloadIsQuiet(c: Conn, p: Packet, routed: bool)
    requires Valid(c) && RecvInv(c) && CanReceive(c.state) && Accepts(c, p, routed)
    ensures var mid := BeforeData(c, p, routed);
      mid.sent == [] && PointersOf(mid.conn) == PointersOf(c) && CanReceive(mid.conn.state) && mid.conn.next == c.next
  {
    AcceptedFits(c, p, routed);
    var c2 := ProcessAck(UpdateWindow(c, p.window), p);
    StepOnPointers(c2, PacketToInput(p.flags), Some(p), routed);
    StepOnSending(c2, PacketToInput(p.flags), Some(p), routed);
    PlainInputSendsNothing(c2, p, routed);
  }

  lemma PlainInputSendsNothing(c: Conn, p: Packet, routed: bool)
    requires Valid(c) && CanReceive(c.state) && !IsControl(p)
    requires CanReceive(Step(c, PacketToInput(p.flags), Some(p), routed).conn.state)
    ensures Step(c, PacketToInput(p.flags), Some(p), routed).sent == []
  {
  }

  /** Every payload accepted is acknowledged at once: one pure ACK goes out, whose number is right after it, and
      whose window reaches to the right edge. */
  lemma AcceptedIsAcknowledged(c: Conn, p: Packet, routed: bool)
    requires Valid(c) && RecvInv(c) && CanReceive(c.state) && Accepts(c, p, routed)
    ensures |p.payload| <= SIZE
    ensures var r := Receive(c, p, routed);
      && |r.sent| == 1 && !r.sent[0].raw
      && var a := r.sent[0].packet;
        && a.flags == ACK && a.payload == [] && a.seqNum == c.next
        && a.ackNum == r.conn.rack == c.rack + |p.payload|
        && a.window == Edge(c) - a.ackNum
        && r.conn.sendWindow == a.window
  {
    PayloadIsQuiet(c, p, routed);
    AcceptedFits(c, p, routed);
    BeforeDataKeepsReceiving(c, p, routed);
    var mid := BeforeData(c, p, routed);
    var done := TakeData(mid.conn, p.payload);
    TakenIsAcknowledged(mid.conn, p.payload);
    assert Receive(c, p, routed) == Outcome(done.conn, mid.sent + done.sent);
    assert mid.sent + done.sent == done.sent;
    assert Edge(mid.conn) == Edge(c);
  }

  lemma TakenIsAcknowledged(c: Conn, data: seq<byte>)
    requires Valid(c) && RecvInv(c) && CanReceive(c.state) && c.rnext + |data| <= c.rread + WINDOW
    ensures var r := TakeData(c, data);
      && r.sent == [Emitted(PureAck(r.conn), false)]
      && r.conn.rack == c.rack + |data| && r.conn.rread == c.rread && r.conn.next == c.next
      && PureAck(r.conn).window == Edge(c) - (c.rack + |data|) == r.conn.sendWindow
  {
  }
}
