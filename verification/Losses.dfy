/** What is lost although the network would deliver it: bytes that are never sent again, and connections that
    are reset by their own acknowledgements. */
module Losses {
  import opened Common
  import opened RingBuffer
  import opened Machine
  import opened Connection
  import opened Receiving
  import opened EndOfStream
  import opened Runs
  import opened Handshake
  import opened Exchange
  import opened Progress
  import opened Verdict
  import opened Farewell
  import opened Shortfalls

  // Bytes that are never sent again

  /** Nothing arrives, and the user at most reads. */
  ghost predicate LeftAlone(c: Conn, ops: seq<Op>)
    decreases |ops|
  {
    && Valid(c)
    && (ops != [] ==>
          && (ops[0].OpTransmit? || ops[0].OpRead? || ops[0].OpWatchdog?)
          && Asserts(c, ops[0]) && LeftAlone(Apply(c, ops[0]).conn, ops[1..]))
  }

  /** All that is sent meanwhile. */
  ghost function SentMeanwhile(c: Conn, ops: seq<Op>): seq<Emitted>
    requires LeftAlone(c, ops)
    decreases |ops|
  {
    if ops == [] then [] else Apply(c, ops[0]).sent + SentMeanwhile(Apply(c, ops[0]).conn, ops[1..])
  }

  /** What follows the first visit of the watchdog on which the retransmission clock has run out. */
  function AfterTimeout(ops: seq<Op>): seq<Op> {
    if ops == [] then []
    else if ops[0].OpWatchdog? && ops[0].retransmit then ops[1..]
    else AfterTimeout(ops[1..])
  }

  /** States that no clock but that of retransmission ends. */
  predicate Lasting(s: State) {
    !s.CLOSED? && !s.SYN_SENT? && !s.TIME_WAIT?
  }

  /** All has been sent, and some of it not acknowledged. */
  ghost predicate Outstanding(c: Conn, una: nat, next: nat) {
    Lasting(c.state) && c.una == una < next == c.next == c.written < una + 0x1_0000_0000 && EdgeAhead(c, una)
  }

  /** The same, after a rewind. */
  ghost predicate Rewound(c: Conn, una: nat) {
    Lasting(c.state) && c.next == una < c.written < una + 0x1_0000_0000 && EdgeAhead(c, una)
  }

  lemma OutstandingStays(c: Conn, una: nat, next: nat, op: Op)
    requires Valid(c) && Outstanding(c, una, next) && Asserts(c, op)
    requires op.OpTransmit? || op.OpRead? || op.OpWatchdog?
    ensures var r := Apply(c, op);
      && r.sent == []
      && if c.timer && op.OpWatchdog? && op.retransmit then Rewound(r.conn, una)
         else Outstanding(r.conn, una, next) && r.conn.timer == c.timer
  {
  }

  lemma RewoundStays(c: Conn, una: nat, op: Op)
    requires Valid(c) && Rewound(c, una) && c.una == una && Asserts(c, op) && (op.OpRead? || op.OpWatchdog?)
    ensures var r := Apply(c, op); r.sent == [] && Rewound(r.conn, una) && r.conn.una == una
  {
  }

  lemma RewoundSendsOne(c: Conn, una: nat)
    requires Valid(c) && Rewound(c, una) && SendAsserts(c)
    ensures Transmit(c).sent != []
  {
  }

  lemma {:induction false} NeverSentAgain(c: Conn, una: nat, next: nat, ops: seq<Op>)
    requires Outstanding(c, una, next) && !c.timer && LeftAlone(c, ops)
    ensures SentMeanwhile(c, ops) == []
    decreases |ops|
  {
    if ops != [] {
      OutstandingStays(c, una, next, ops[0]);
      NeverSentAgain(Apply(c, ops[0]).conn, una, next, ops[1..]);
    }
  }

  lemma {:induction false} RewoundIsSent(c: Conn, una: nat, ops: seq<Op>)
    requires Rewound(c, una) && c.una == una && LeftAlone(c, ops) && OpTransmit in ops
    ensures SentMeanwhile(c, ops) != []
    decreases |ops|
  {
    if ops[0].OpTransmit? {
      RewoundSendsOne(c, una);
    } else {
      RewoundStays(c, una, ops[0]);
      RewoundIsSent(Apply(c, ops[0]).conn, una, ops[1..]);
    }
  }

  lemma {:induction false} TimedIsSent(c: Conn, una: nat, next: nat, ops: seq<Op>)
    requires Outstanding(c, una, next) && c.timer && LeftAlone(c, ops) && OpTransmit in AfterTimeout(ops)
    ensures SentMeanwhile(c, ops) != []
    decreases |ops|
  {
    OutstandingStays(c, una, next, ops[0]);
    if ops[0].OpWatchdog? && ops[0].retransmit {
      RewoundIsSent(Apply(c, ops[0]).conn, una, ops[1..]);
    } else {
      TimedIsSent(Apply(c, ops[0]).conn, una, next, ops[1..]);
    }
  }

  /** When all has been sent and some of it is outstanding, then on a connection that is left alone, the
      retransmission clock running out and the send thread having a turn after that, anything is sent again
      if and only if the timer was running. */
  lemma SentAgainIff(c: Conn, ops: seq<Op>)
    requires Inv(c) && Lasting(c.state) && c.una < c.next == c.written && EdgeAhead(c, c.una)
    requires LeftAlone(c, ops) && OpTransmit in AfterTimeout(ops)
    ensures SentMeanwhile(c, ops) != [] <==> c.timer
  {
    Waiting(c);
    if c.timer {
      TimedIsSent(c, c.una, c.next, ops);
    } else {
      NeverSentAgain(c, c.una, c.next, ops);
    }
  }

  /** Accepting data stops the timer, whatever is outstanding. */
  lemma DataStopsTheTimer(c: Conn, p: Packet, d: Conn)
    requires Inv(c) && c.state.ESTAB? && p.flags == 0 && Accepts(c, p, true) && |p.payload| <= SIZE
    requires d == Receive(c, p, true).conn
    ensures !d.timer && d.state.ESTAB? && d.una == c.una && d.next == c.next && d.written == c.written
    ensures d.flow == c.una + p.window
    ensures Receive(c, p, true).sent == [Emitted(PureAck(d), false)]
  {
    PlainStep(c, p, true);
    PayloadIsQuiet(c, p, true);
    var mid := BeforeData(c, p, true);
    AcceptedFits(c, p, true);
    TakenIsAcknowledged(mid.conn, p.payload);
    assert mid.conn.una == c.una && mid.conn.next == c.next && mid.conn.written == c.written;
    assert mid.conn.flow == c.una + p.window;
    assert [] + TakeData(mid.conn, p.payload).sent == TakeData(mid.conn, p.payload).sent;
  }

  /** The byte `x` is written and sent, and the peer's next segment arrives: if the byte was lost on the way, it
      is never sent again, the connection being left alone after that, and it is still unacknowledged. */
  lemma LostForGood(c: Conn, x: byte, p: Packet) returns (d: Conn, e: Conn, f: Conn)
    requires Inv(c) && CanSendOne(c) && c.una == c.next
    requires p.flags == 0 && p.payload != [] && p.seqNum == c.rack && c.rack + |p.payload| < Edge(c) && p.window > 0
    ensures Does(c, OpWrite([x]), d, []) && Does(d, OpTransmit, e, [DataPacket(c, x)])
    ensures Does(e, OpArrive(p, true), f, [PureAck(f)])
    ensures f.state.ESTAB? && f.una == c.next < f.written
    ensures forall ops :: LeftAlone(f, ops) ==> SentMeanwhile(f, ops) == []
  {
    d, e := ByteIsSent(c, x, DataPacket(c, x));
    f := NextSegmentArrives(e, p);
    forall ops | LeftAlone(f, ops)
      ensures SentMeanwhile(f, ops) == []
    {
      NeverSentAgain(f, f.una, f.next, ops);
    }
  }

  lemma NextSegmentArrives(c: Conn, p: Packet) returns (d: Conn)
    requires Inv(c) && c.state.ESTAB?
    requires p.flags == 0 && p.payload != [] && p.seqNum == c.rack && c.rack + |p.payload| < Edge(c)
    ensures Does(c, OpArrive(p, true), d, [PureAck(d)]) && Inv(d) && d.state.ESTAB?
    ensures |p.payload| <= WINDOW && Accepts(c, p, true) && d == Receive(c, p, true).conn
    ensures !d.timer && d.una == c.una && d.next == c.next && d.written == c.written && d.flow == c.una + p.window
    ensures d.rack == c.rack + |p.payload| && Edge(d) == Edge(c) && d.high == c.high
  {
    TestsAgreeNearby(c, p.seqNum, |p.payload|);
    PlainAcceptedIffValid(c, p, true);
    d := Receive(c, p, true).conn;
    DataStopsTheTimer(c, p, d);
    AcceptedIsAcknowledged(c, p, true);
    SegmentKeeps(c, p, d);
    DoesKeepsInv(c, OpArrive(p, true), d, [PureAck(d)]);
  }

  lemma SegmentKeeps(c: Conn, p: Packet, d: Conn)
    requires Inv(c) && c.state.ESTAB? && p.flags == 0 && Accepts(c, p, true) && |p.payload| <= SIZE
    requires d == Receive(c, p, true).conn
    ensures Edge(d) == Edge(c) && d.high == c.high
  {
    PayloadIsQuiet(c, p, true);
    AcknowledgementCounts(c, p, true);
    assert d == TakeData(BeforeData(c, p, true).conn, p.payload).conn;
  }

  /** It does happen, right after any handshake: each side writes a byte and sends it; the caller's is lost, and
      the callee's arrives. */
  lemma LossIsReached(isnA: nat, isnB: nat, x: byte, y: byte)
    returns (cs: seq<Conn>, ops: seq<Op>, b1: Conn, b2: Conn, p: Packet, c: Conn)
    requires isnA < 0x1_0000_0000 && isnA != WINDOW && isnB % SIZE < WINDOW
    ensures Does(Callee(isnB, isnA), OpWrite([y]), b1, []) && Does(b1, OpTransmit, b2, [p])
    ensures EndsIn(cs, ops, c) && cs[0] == NewSocket()
    ensures ops == [OpConnect(isnA), OpTransmit, OpArrive(TheAnswer(isnB, isnA), true)]
                   + [OpWrite([x])] + [OpTransmit] + [OpArrive(p, true)]
    ensures c.state.ESTAB? && c.una == isnA + 1 < c.written
    ensures forall later :: LeftAlone(c, later) ==> SentMeanwhile(c, later) == []
  {
    cs, ops := CallerIsReached(isnA, isnB);
    RunKeepsInv(cs, ops, |ops|);
    b1, b2, p := CalleeSends(isnB, isnA, y);
    CallerCanSend(isnA, isnB);
    cs, ops, c := LossFollows(cs, ops, Caller(isnA, isnB), x, p);
  }

  lemma LossFollows(cs: seq<Conn>, ops: seq<Op>, a: Conn, x: byte, p: Packet)
    returns (cs': seq<Conn>, ops': seq<Op>, c: Conn)
    requires EndsIn(cs, ops, a) && Inv(a) && CanSendOne(a) && a.una == a.next
    requires p.flags == 0 && p.payload != [] && p.seqNum == a.rack && a.rack + |p.payload| < Edge(a) && p.window > 0
    ensures EndsIn(cs', ops', c) && cs'[0] == cs[0]
    ensures ops' == ops + [OpWrite([x])] + [OpTransmit] + [OpArrive(p, true)]
    ensures c.state.ESTAB? && c.una == a.next < c.written
    ensures forall later :: LeftAlone(c, later) ==> SentMeanwhile(c, later) == []
  {
    var d, e;
    d, e, c := LostForGood(a, x, p);
    cs', ops' := LossGoesOn(cs, ops, a, x, d, e, p, c);
  }

  lemma CallerCanSend(isnA: nat, isnB: nat)
    ensures var c := Caller(isnA, isnB);
      CanSendOne(c) && c.una == c.next == isnA + 1 && c.rack == isnB + 1 && Edge(c) == isnB + WINDOW
  {
  }

  lemma LossGoesOn(cs: seq<Conn>, ops: seq<Op>, a: Conn, x: byte, d: Conn, e: Conn, p: Packet, c: Conn)
    returns (cs': seq<Conn>, ops': seq<Op>)
    requires EndsIn(cs, ops, a) && Does(a, OpWrite([x]), d, []) && Does(d, OpTransmit, e, [DataPacket(a, x)])
    requires Does(e, OpArrive(p, true), c, [PureAck(c)])
    ensures EndsIn(cs', ops', c) && cs'[0] == cs[0]
    ensures ops' == ops + [OpWrite([x])] + [OpTransmit] + [OpArrive(p, true)]
  {
    StepGoesOn(cs, ops, a, OpWrite([x]), d, []);
    StepGoesOn(cs + [d], ops + [OpWrite([x])], d, OpTransmit, e, [DataPacket(a, x)]);
    StepGoesOn(cs + [d] + [e], ops + [OpWrite([x])] + [OpTransmit], e, OpArrive(p, true), c, [PureAck(c)]);
    cs', ops' := cs + [d] + [e] + [c], ops + [OpWrite([x])] + [OpTransmit] + [OpArrive(p, true)];
  }

  /** What the callee sends when a byte is written right after the handshake. */
  lemma CalleeSends(isnB: nat, isnA: nat, y: byte) returns (b1: Conn, b2: Conn, p: Packet)
    ensures Does(Callee(isnB, isnA), OpWrite([y]), b1, []) && Does(b1, OpTransmit, b2, [p])
    ensures p.flags == 0 && p.payload == [y] && p.seqNum == isnB + 1 && p.window == WINDOW - 1
    ensures Inv(b2) && b2.state.ESTAB? && b2.rack == isnA + 1 && Edge(b2) == isnA + WINDOW
  {
    CalleeIsOpen(isnB, isnA);
    CalleeCanSend(isnB, isnA);
    p := DataPacket(Callee(isnB, isnA), y);
    b1, b2 := ByteIsSent(Callee(isnB, isnA), y, p);
  }

  lemma CalleeCanSend(isnB: nat, isnA: nat)
    ensures var c := Callee(isnB, isnA);
      CanSendOne(c) && c.next == isnB + 1 && c.rack == c.rnext == isnA + 1 && Edge(c) == isnA + WINDOW
  {
  }

  /** One position further, and waiting for an answer. */
  ghost predicate HasSentOne(c: Conn, e: Conn) {
    && e.state == c.state && PointersOf(e) == PointersOf(c) && e.una == c.una && e.flow == c.flow
    && e.next == e.written == c.next + 1 && e.high == Max(c.high, c.next + 1) && e.timer
  }

  lemma ByteIsSent(c: Conn, y: byte, p: Packet) returns (d: Conn, e: Conn)
    requires Inv(c) && CanSendOne(c) && p == DataPacket(c, y)
    ensures Does(c, OpWrite([y]), d, []) && Does(d, OpTransmit, e, [p])
    ensures Inv(e) && HasSentOne(c, e)
  {
    d := CopyFromUser(c, [y]);
    ByteSentTimed(c, y, d);
    DoesKeepsInv(c, OpWrite([y]), d, []);
    e := Transmit(d).conn;
    DoesKeepsInv(d, OpTransmit, e, [p]);
  }

  // Connections reset by their own acknowledgements

  /** Pure ACKs that arrive one after the other. */
  ghost function AfterAcks(c: Conn, acks: seq<Packet>): (d: Conn)
    requires Valid(c) && forall i :: 0 <= i < |acks| ==> acks[i].flags == ACK && acks[i].payload == []
    ensures Valid(d)
  {
    if acks == [] then c
    else
      var n := |acks| - 1;
      Receive(AfterAcks(c, acks[..n]), acks[n], true).conn
  }

  lemma ClosedStaysClosed(c: Conn, p: Packet)
    requires Valid(c) && c.state.CLOSED? && p.payload == []
    ensures Receive(c, p, true).conn.state.CLOSED?
  {
    if IsValid(c, p.seqNum, |p.payload|) {
      PacketLeads(c, p, true);
    } else {
      RefusalAnswers(c, p);
    }
  }

  lemma OneMoreAck(c: Conn, p: Packet)
    requires Valid(c) && p.flags == ACK && p.payload == []
    requires c.state.CLOSED? || ((c.state.FIN_WAIT1? || c.state.FIN_WAIT2?) && IsValid(c, p.seqNum, 0))
    ensures Receive(c, p, true).conn.state == if c.state.FIN_WAIT1? then FIN_WAIT2 else CLOSED
  {
    if c.state.CLOSED? {
      ClosedStaysClosed(c, p);
    } else {
      PacketLeads(c, p, true);
    }
  }

  /** One ACK takes a connection that has closed out of FIN_WAIT1, whatever it acknowledges; the second resets it.
      So the close can go on to TIME_WAIT if and only if no more than one comes before the peer's FIN. */
  lemma {:induction false} SecondAckResets(c: Conn, acks: seq<Packet>)
    requires Valid(c) && c.state.FIN_WAIT1?
    requires forall i :: 0 <= i < |acks| ==> acks[i].flags == ACK && acks[i].payload == []
    requires forall i :: 0 <= i < |acks| && i < 2 ==> IsValid(AfterAcks(c, acks[..i]), acks[i].seqNum, 0)
    ensures AfterAcks(c, acks).state ==
      if |acks| == 0 then FIN_WAIT1 else if |acks| == 1 then FIN_WAIT2 else CLOSED
    decreases |acks|
  {
    if acks != [] {
      var n := |acks| - 1;
      forall i | 0 <= i < n && i < 2
        ensures IsValid(AfterAcks(c, acks[..n][..i]), acks[..n][i].seqNum, 0)
      {
        assert acks[..n][..i] == acks[..i];
      }
      SecondAckResets(c, acks[..n]);
      var d := AfterAcks(c, acks[..n]);
      OneMoreAck(d, acks[n]);
    }
  }

  /** The operation is allowed and fires no assertion, but resets the socket, which answers with `rst`. */
  ghost predicate IsResetBy(c: Conn, op: Op, rst: Packet) {
    && Valid(c) && Allowed(c, op) && Asserts(c, op)
    && Apply(c, op) == Outcome(NewSocket(), [Emitted(rst, true)]) && rst.flags == RST
  }

  lemma OneTooMany(c: Conn, p: Packet) returns (rst: Packet)
    requires Inv(c) && c.state.FIN_WAIT2? && Fits(c, p, ACK)
    ensures IsResetBy(c, OpArrive(p, true), rst)
  {
    NextIsValid(c);
    PacketLeads(c, p, true);
    assert !HasRst(ACK);
    rst := Receive(c, p, true).sent[0].packet;
  }

  /** Two positions may be sent, and are accepted with a third. */
  ghost predicate RoomForTwo(a: Conn, b: Conn) {
    && AtRest(a, b) && AtRest(b, a) && CanSendOne(a) && EdgeAhead(a, a.next + 1) && b.rack + 3 <= Edge(b)
  }

  /** An ordinary close: A, at rest, writes a byte, sends it, closes and sends its FIN; B takes both in turn and
      acknowledges both. Both acknowledgements arrive, and the second resets A, whose reset then resets B:
      the byte was accepted, and can no longer be read. */
  lemma UnacknowledgedCloseResets(a: Conn, b: Conn, x: byte)
    returns (a1: Conn, a2: Conn, a3: Conn, a4: Conn, a5: Conn, b1: Conn, b2: Conn, b3: Conn, fin: Packet,
             rst: Packet)
    requires RoomForTwo(a, b)
    ensures Does(a, OpWrite([x]), a1, []) && Does(a1, OpTransmit, a2, [DataPacket(a, x)])
    ensures Does(a2, OpClose, a3, []) && Does(a3, OpTransmit, a4, [fin])
    ensures Does(b, OpArrive(DataPacket(a, x), true), b1, [PureAck(b1)])
    ensures Does(b1, OpArrive(fin, true), b2, [FinAck(b1)]) && b2.state.CLOSE_WAIT?
    ensures Does(a4, OpArrive(PureAck(b1), true), a5, []) && a5.state.FIN_WAIT2?
    ensures IsResetBy(a5, OpArrive(FinAck(b1), true), rst)
    ensures Does(b2, OpArrive(rst, true), b3, []) && b3 == NewSocket()
    ensures forall n :: Read(b3, n).1 == EndOfFile
  {
    a1, a2 := ByteIsSent(a, x, DataPacket(a, x));
    ByteThenClose(a, b, x, a2);
    a3, a4, fin := ClosesAndSends(a2);
    b1 := NextSegmentArrives(b, DataPacket(a, x));
    TwoAcksFit(a, b, x, a2, a4, fin, b1);
    b2 := TakesFin(b1, fin);
    a5 := TakesAck(a4, PureAck(b1));
    SecondFits(a4, PureAck(b1), a5, FinAck(b1));
    rst := OneTooMany(a5, FinAck(b1));
    b3 := ResetIsObeyed(b2, rst);
  }

  lemma ResetIsObeyed(c: Conn, p: Packet) returns (d: Conn)
    requires Valid(c) && p.flags == RST
    ensures Does(c, OpArrive(p, true), d, []) && d == NewSocket()
  {
    assert HasRst(RST);
    ResetsAreObeyed(c, p, true, false, false);
    d := NewSocket();
  }

  lemma ByteThenClose(a: Conn, b: Conn, x: byte, a2: Conn)
    requires RoomForTwo(a, b) && HasSentOne(a, a2)
    ensures a2.state.ESTAB? && a2.next == a2.written == a.next + 1 && EdgeAhead(a2, a2.next)
    ensures var p := DataPacket(a, x); p.seqNum == b.rack && b.rack + 1 < Edge(b)
  {
  }

  lemma TwoAcksFit(a: Conn, b: Conn, x: byte, a2: Conn, a4: Conn, fin: Packet, b1: Conn)
    requires RoomForTwo(a, b) && HasSentFin(a2, a4, fin) && a2.state.ESTAB? && a2.next == a.next + 1
    requires PointersOf(a2) == PointersOf(a) && b1.next == b.next && b1.state.ESTAB?
    requires b1.rack == b.rack + 1 && Edge(b1) == Edge(b)
    ensures Fits(b1, fin, FIN) && Fits(a4, PureAck(b1), ACK) && FinAck(b1).ackNum <= a4.high
    ensures FinAck(b1).seqNum == a4.rack
  {
  }

  lemma SecondFits(c: Conn, p: Packet, d: Conn, q: Packet)
    requires Fits(c, p, ACK) && HasTakenAck(c, p, d)
    requires q.flags == ACK && q.payload == [] && q.seqNum == c.rack && q.ackNum <= c.high
    ensures Fits(d, q, ACK)
  {
  }

  // A window that is filled

  function Segment(c: Conn, data: seq<byte>): Packet {
    Packet(c.next, c.rack, 0, Uint16(c.rread + c.recvWindow - c.rnext), data)
  }

  /** With nothing else waiting, a write that fits the window is sent in one segment. */
  lemma WrittenAndSent(c: Conn, data: seq<byte>, d: Conn)
    requires Inv(c) && c.state.ESTAB? && c.next == c.written && 0 < |data| <= Room(c)
    requires c.written + |data| <= c.flow < c.written + 0x1_0000_0000 && d == CopyFromUser(c, data)
    ensures WriteAsserts(c, data) && Write(c, data) == d && SendAsserts(d)
    ensures var r := Transmit(d);
      && r.sent == [Emitted(Segment(c, data), false)]
      && r.conn == d.(next := c.next + |data|, timer := true, high := Max(c.high, c.next + |data|))
  {
    assert data[..|data|] == data;
    WriteSafeIffRoom(c, data);
    AllSendable(c, data, d);
    ReadBack(c.sbuf, c.written, data);
    RunIsSent(d, data, Transmit(d));
  }

  lemma DataIsSent(c: Conn, data: seq<byte>, p: Packet) returns (d: Conn, e: Conn)
    requires Inv(c) && c.state.ESTAB? && c.next == c.written && 0 < |data| <= Room(c)
    requires c.written + |data| <= c.flow < c.written + 0x1_0000_0000 && p == Segment(c, data)
    ensures Does(c, OpWrite(data), d, []) && Does(d, OpTransmit, e, [p])
  {
    d := CopyFromUser(c, data);
    WrittenAndSent(c, data, d);
    e := Transmit(d).conn;
  }

  lemma AllSendable(c: Conn, data: seq<byte>, d: Conn)
    requires Inv(c) && c.state.ESTAB? && c.next == c.written && 0 < |data| <= Room(c) && d == CopyFromUser(c, data)
    requires c.written + |data| <= c.flow < c.written + 0x1_0000_0000
    ensures Sendable(d) == |data| == d.written - d.next && |data| <= WINDOW
  {
  }

  lemma RunIsSent(d: Conn, data: seq<byte>, r: Outcome)
    requires Valid(d) && Sendable(d) == |data| == d.written - d.next && 0 < |data| <= WINDOW
    requires Outgoing(d) == Range(|data|, Some(data))
    requires SendAsserts(d) ==> r == Transmit(d)
    ensures SendAsserts(d)
    ensures r.sent == [Emitted(Segment(d, data), false)]
    ensures r.conn == d.(next := d.next + |data|, timer := true, high := Max(d.high, d.next + |data|))
  {
  }

  /** The next segment expected, of no more than the window, is taken if and only if it leaves a position of the
      window free; one that fills it is answered with a reset. */
  lemma NextIsTakenIff(c: Conn, p: Packet)
    requires Inv(c) && c.state.ESTAB? && p.flags == 0 && p.seqNum == c.rack && 0 < |p.payload| <= Edge(c) - c.rack
    ensures Accepts(c, p, true) <==> |p.payload| < Edge(c) - c.rack
    ensures !Accepts(c, p, true) ==>
      Receive(c, p, true)
        == Outcome(c.(timer := true), [Emitted(Packet(p.ackNum, c.rack, RST, c.sendWindow, []), true)])
  {
    TestsAgreeNearby(c, p.seqNum, |p.payload|);
    PlainAcceptedIffValid(c, p, true);
    if !Accepts(c, p, true) {
      RefusalAnswers(c, p);
    }
  }

  /** A is up to date with B, and knows B's right edge. */
  ghost predicate KnowsTheEdge(a: Conn, b: Conn) {
    && Inv(a) && a.state.ESTAB? && a.next == a.written == b.rack && a.flow == Edge(b)
    && Inv(b) && b.state.ESTAB? && b.rack < Edge(b)
  }

  /** The operation is allowed and fires no assertion, and is answered with the raw reset `rst`. */
  ghost predicate RefusesWith(c: Conn, op: Op, d: Conn, rst: Packet) {
    && Valid(c) && Allowed(c, op) && Asserts(c, op)
    && Apply(c, op) == Outcome(d, [Emitted(rst, true)]) && rst.flags == RST
  }

  /** So no packet need be lost for a connection to be reset: A writes as much as B's window admits, which is sent
      in one segment; B refuses it with a reset, and A obeys. */
  lemma FilledWindowResets(a: Conn, b: Conn, data: seq<byte>)
    returns (a1: Conn, a2: Conn, a3: Conn, b1: Conn, rst: Packet)
    requires KnowsTheEdge(a, b) && |data| == Edge(b) - b.rack <= Room(a)
    ensures Does(a, OpWrite(data), a1, []) && Does(a1, OpTransmit, a2, [Segment(a, data)])
    ensures RefusesWith(b, OpArrive(Segment(a, data), true), b1, rst) && b1 == b.(timer := true)
    ensures Does(a2, OpArrive(rst, true), a3, []) && a3 == NewSocket()
  {
    a1, a2 := DataIsSent(a, data, Segment(a, data));
    b1, rst := FillingIsRefused(b, Segment(a, data));
    a3 := ResetIsObeyed(a2, rst);
  }

  lemma FillingIsRefused(b: Conn, p: Packet) returns (b1: Conn, rst: Packet)
    requires Inv(b) && b.state.ESTAB? && p.flags == 0 && p.seqNum == b.rack && 0 < |p.payload| == Edge(b) - b.rack
    ensures RefusesWith(b, OpArrive(p, true), b1, rst) && b1 == b.(timer := true)
  {
    NextIsTakenIff(b, p);
    b1 := b.(timer := true);
    rst := Packet(p.ackNum, b.rack, RST, b.sendWindow, []);
  }

  /** Such a state is reached right after any handshake: the caller reads once, which gives it nothing, and a byte
      that the callee writes is sent and arrives. Then the window that B announces is exactly A's room. */
  lemma EdgeIsReached(isnA: nat, isnB: nat, y: byte)
    returns (csA: seq<Conn>, opsA: seq<Op>, a: Conn, csB: seq<Conn>, opsB: seq<Op>, b: Conn, p: Packet)
    requires isnA < 0x1_0000_0000 && isnA != WINDOW && isnB % SIZE < WINDOW
    ensures EndsIn(csA, opsA, a) && csA[0] == NewSocket()
    ensures EndsIn(csB, opsB, b) && csB[0] == Clone(isnB, isnA)
    ensures opsA == [OpConnect(isnA), OpTransmit, OpArrive(TheAnswer(isnB, isnA), true)]
                    + [OpRead(1)] + [OpArrive(p, true)]
    ensures opsB == [OpArrive(TheSyn(isnA), true), OpTransmit, OpArrive(TheAck(isnA, isnB), true)]
                    + [OpWrite([y])] + [OpTransmit]
    ensures p.payload == [y] && |csB| == 6 && Sends(csB[4], OpTransmit, p)
    ensures KnowsTheEdge(a, b) && Edge(b) - b.rack == WINDOW - 1 == Room(a)
  {
    csA, opsA := CallerIsReached(isnA, isnB);
    RunKeepsInv(csA, opsA, |opsA|);
    csB, opsB := CalleeIsReached(isnB, isnA);
    CallerCanSend(isnA, isnB);
    var b1;
    b1, b, p := CalleeSends(isnB, isnA, y);
    csB, opsB := CalleeGoesOn(csB, opsB, Callee(isnB, isnA), y, b1, b, p);
    csA, opsA, a := CallerGoesOn(csA, opsA, Caller(isnA, isnB), p);
  }

  lemma CalleeGoesOn(cs: seq<Conn>, ops: seq<Op>, c: Conn, y: byte, d: Conn, e: Conn, p: Packet)
    returns (cs': seq<Conn>, ops': seq<Op>)
    requires EndsIn(cs, ops, c) && Does(c, OpWrite([y]), d, []) && Does(d, OpTransmit, e, [p])
    ensures EndsIn(cs', ops', e) && cs'[0] == cs[0] && ops' == ops + [OpWrite([y])] + [OpTransmit]
    ensures |cs'| == |cs| + 2 && cs'[|cs|] == d
  {
    StepGoesOn(cs, ops, c, OpWrite([y]), d, []);
    StepGoesOn(cs + [d], ops + [OpWrite([y])], d, OpTransmit, e, [p]);
    cs', ops' := cs + [d] + [e], ops + [OpWrite([y])] + [OpTransmit];
  }

  lemma CallerGoesOn(cs: seq<Conn>, ops: seq<Op>, c: Conn, p: Packet)
    returns (cs': seq<Conn>, ops': seq<Op>, e: Conn)
    requires EndsIn(cs, ops, c) && Inv(c) && c.state.ESTAB? && c.rread + 1 == c.rack && c.got == []
    requires p.flags == 0 && |p.payload| == 1 && p.seqNum == c.rack
    ensures EndsIn(cs', ops', e) && cs'[0] == cs[0] && ops' == ops + [OpRead(1)] + [OpArrive(p, true)]
    ensures Inv(e) && e.state.ESTAB? && e.next == c.next && e.written == c.written && e.una == c.una
    ensures e.flow == c.una + p.window && e.sendWindow == WINDOW - 1
  {
    var d := Read(c, 1).0;
    ReadsPastSyn(c, d);
    StepGoesOn(cs, ops, c, OpRead(1), d, []);
    e := NextSegmentArrives(d, p);
    AcceptedWindow(d, p, e);
    StepGoesOn(cs + [d], ops + [OpRead(1)], d, OpArrive(p, true), e, [PureAck(e)]);
    cs', ops' := cs + [d] + [e], ops + [OpRead(1)] + [OpArrive(p, true)];
  }

  lemma ReadsPastSyn(c: Conn, d: Conn)
    requires Inv(c) && c.state.ESTAB? && c.rread + 1 == c.rack && c.got == [] && d == Read(c, 1).0
    ensures Does(c, OpRead(1), d, []) && Inv(d) && d == c.(rread := c.rack)
  {
    DoesKeepsInv(c, OpRead(1), d, []);
    SynIsBlank(c);
  }

  lemma AcceptedWindow(c: Conn, p: Packet, d: Conn)
    requires Inv(c) && c.state.ESTAB? && Accepts(c, p, true) && |p.payload| == 1 && c.rack == c.rread
    requires d == Receive(c, p, true).conn
    ensures d.sendWindow == WINDOW - 1
  {
    AcceptedIsAcknowledged(c, p, true);
  }
}
