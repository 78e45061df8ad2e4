/** What becomes of a connection on every packet: where it leads, what is acknowledged by it, whether its
    data is taken, and what is answered. */
module Verdict {
  import opened Common
  import opened RingBuffer
  import opened Machine
  import opened Connection
  import opened Receiving

  /** Where an acceptable packet takes a connection, by its flag byte. CLOSED stands for a reset but
      in LAST_ACK, whose ACK ends the connection. */
  function Destination(s: State, flags: byte): State {
    match s
    case SYN_SENT => if flags == 2 then SYN_RCVD else if flags == 18 then ESTAB else CLOSED
    case LISTEN => if flags == 2 then SYN_RCVD else CLOSED
    case SYN_RCVD => if flags == 16 then ESTAB else CLOSED
    case ESTAB => if flags == 0 || flags == 16 then ESTAB else if flags == 1 then CLOSE_WAIT else CLOSED
    case FIN_WAIT1 =>
      if flags == 0 then FIN_WAIT1 else if flags == 16 then FIN_WAIT2
      else if flags == 1 then CLOSING else if flags == 17 then TIME_WAIT else CLOSED
    case FIN_WAIT2 => if flags == 0 then FIN_WAIT2 else if flags == 1 then TIME_WAIT else CLOSED
    case CLOSE_WAIT => if flags == 16 then CLOSE_WAIT else CLOSED
    case CLOSING => if flags == 16 then TIME_WAIT else CLOSED
    case _ => CLOSED
  }

  /** A socket that has started over; only what state it was in before CLOSED tells it from a new one. */
  function Anew(was: State): Conn {
    NewSocket().(prev := was)
  }

  /** The one raw reset that answers `p`, when there is a route for it. */
  ghost predicate AnswersReset(sent: seq<Emitted>, p: Packet, routed: bool) {
    if routed then
      && |sent| == 1 && sent[0].raw
      && sent[0].packet.flags == RST && sent[0].packet.seqNum == p.ackNum && sent[0].packet.payload == []
    else sent == []
  }

  lemma TableLeads(s: State, flags: byte)
    ensures var t, d := Lookup(s, PacketToInput(flags)), Destination(s, flags);
      && (t.None? ==> d.CLOSED? && !(s.LAST_ACK? && flags == 16))
      && (t.Some? ==> t.value.next == d && (d.CLOSED? <==> s.LAST_ACK? && flags == 16))
      && (t.Some? && d.CLOSED? ==> t.value.action == DoClose(CLOSE_OK))
  {
  }

  lemma StepLeads(c: Conn, input: Input, p: Packet, routed: bool)
    requires Valid(c)
    ensures var r, t := Step(c, input, Some(p), routed), Lookup(c.state, input);
      && (t.None? ==> r.conn == NewSocket() && AnswersReset(r.sent, p, routed))
      && (t.Some? ==> r.conn.state == t.value.next)
      && (t == Some(To(CLOSED, DoClose(CLOSE_OK))) ==> r == Outcome(Anew(c.state), []))
  {
  }

  /** Every acceptable packet, in every state, but for the data it may carry: where it leads, and that one
      that has no place resets the socket and is answered with a reset. */
  lemma PacketLeads(c: Conn, p: Packet, routed: bool)
    requires Valid(c) && IsValid(c, p.seqNum, |p.payload|)
    ensures var r, d := BeforeData(c, p, routed), Destination(c.state, p.flags);
      && r.conn.state == d
      && (d.CLOSED? ==>
            if c.state.LAST_ACK? && p.flags == 16 then r == Outcome(Anew(LAST_ACK), [])
            else r.conn == NewSocket() && AnswersReset(r.sent, p, routed))
  {
    TableLeads(c.state, p.flags);
    var c1 := ProcessAck(UpdateWindow(c, p.window), p);
    StepLeads(if IsControl(p) then AckData(c1, 1) else c1, PacketToInput(p.flags), p, routed);
  }

  /** What an acceptable packet that does not end the connection is answered with, but for its data: a FIN, and in
      SYN_SENT whatever is taken, with one pure ACK of all that has come, and anything else with nothing. */
  lemma AnswerIs(c: Conn, p: Packet, routed: bool)
    requires Valid(c) && IsValid(c, p.seqNum, |p.payload|) && !Destination(c.state, p.flags).CLOSED?
    ensures var r := BeforeData(c, p, routed);
      if HasFin(p.flags) || c.state.SYN_SENT? then
        && |r.sent| == 1 && !r.sent[0].raw && r.sent[0].packet.flags == ACK && r.sent[0].packet.payload == []
        && r.sent[0].packet.seqNum == c.next && r.sent[0].packet.ackNum == r.conn.rack
      else r.sent == []
  {
    TableLeads(c.state, p.flags);
    TableAnswers(c.state, p.flags);
    var c1 := ProcessAck(UpdateWindow(c, p.window), p);
    StepAnswers(if IsControl(p) then AckData(c1, 1) else c1, PacketToInput(p.flags), p, routed);
  }

  /** Whether the action of a transition sends at once. */
  predicate SendsAtOnce(action: Action) {
    action in {DoSendFlags(ACK), DoConnect(ACK)}
  }

  lemma TableAnswers(s: State, flags: byte)
    requires !Destination(s, flags).CLOSED?
    ensures var t := Lookup(s, PacketToInput(flags));
      t.Some? && (SendsAtOnce(t.value.action) <==> HasFin(flags) || s.SYN_SENT?)
      && (t.value.action.DoConnect? ==> t.value.action == DoConnect(ACK))
  {
  }

  lemma StepAnswers(c: Conn, input: Input, p: Packet, routed: bool)
    requires Valid(c) && Lookup(c.state, input).Some? && !Lookup(c.state, input).value.next.CLOSED?
    requires Lookup(c.state, input).value.action.DoConnect? ==> Lookup(c.state, input).value.action.flags == ACK
    ensures var r := Step(c, input, Some(p), routed);
      if SendsAtOnce(Lookup(c.state, input).value.action) then
        && |r.sent| == 1 && !r.sent[0].raw && r.sent[0].packet.flags == ACK && r.sent[0].packet.payload == []
        && r.sent[0].packet.seqNum == c.next && r.sent[0].packet.ackNum == r.conn.rack
      else r.sent == []
  {
  }

  /** Exactly which segments have their data taken, in any state: those that fall in the window and that leave
      the connection where it may receive, or bring it there, bearing no SYN and no FIN. There is then
      always room. */
  lemma TakenIff(c: Conn, p: Packet, routed: bool)
    requires Valid(c) && RecvInv(c)
    ensures Accepts(c, p, routed)
       <==> && IsValid(c, p.seqNum, |p.payload|) && 0 < |p.payload| <= WINDOW
            && !HasSyn(p.flags) && !HasFin(p.flags) && CanReceive(Destination(c.state, p.flags))
  {
    if Accepts(c, p, routed) {
      AcceptedFits(c, p, routed);
      PacketLeads(c, p, routed);
    } else if IsValid(c, p.seqNum, |p.payload|) && 0 < |p.payload| <= WINDOW && IsData(p) {
      PacketLeads(c, p, routed);
      if CanReceive(Destination(c.state, p.flags)) {
        TestsAreExact(c, p.seqNum, |p.payload|);
        ReceivingPointersStay(c, p, routed);
        RoomStays(c, BeforeData(c, p, routed).conn, |p.payload|);
      }
    }
  }

  lemma ReceivingPointersStay(c: Conn, p: Packet, routed: bool)
    requires Valid(c) && !IsControl(p) && CanReceive(Destination(c.state, p.flags))
    ensures PointersOf(BeforeData(c, p, routed).conn) == PointersOf(c) && EofBit(c.state) == 0
  {
    TableLeads(c.state, p.flags);
    StepOnPointers(ProcessAck(UpdateWindow(c, p.window), p), PacketToInput(p.flags), Some(p), routed);
  }

  lemma RoomStays(c: Conn, mid: Conn, n: nat)
    requires RecvInv(c) && EofBit(c.state) == 0 && PointersOf(mid) == PointersOf(c)
    ensures n < Edge(c) - c.rack ==> HaveRoom(mid, n)
  {
  }

  /** What an acceptable packet that does not end the connection says of our own bytes: its acknowledgement moves
      `send_una` forward only, its window moves the flow edge, from where `send_una` was, and nothing that
      was sent is taken back. */
  lemma AcknowledgementCounts(c: Conn, p: Packet, routed: bool)
    requires Valid(c) && IsValid(c, p.seqNum, |p.payload|) && (Accepts(c, p, routed) ==> |p.payload| <= SIZE)
    requires !Destination(c.state, p.flags).CLOSED?
    ensures var d := Receive(c, p, routed).conn;
      && d.una == (if HasAck(p.flags) then Max(c.una, p.ackNum) else c.una)
      && d.flow == c.una + p.window && d.next == c.next && d.high == c.high
  {
    PacketLeads(c, p, routed);
    TableLeads(c.state, p.flags);
    var c1 := ProcessAck(UpdateWindow(c, p.window), p);
    StepMovesNothing(if IsControl(p) then AckData(c1, 1) else c1, PacketToInput(p.flags), p, routed);
  }

  lemma StepMovesNothing(c: Conn, input: Input, p: Packet, routed: bool)
    requires Valid(c)
    ensures var d := Step(c, input, Some(p), routed).conn;
      !d.state.CLOSED? ==> d.una == c.una && d.flow == c.flow && d.next == c.next && d.high == c.high
  {
  }

  // Refusing

  /** A segment that is not acceptable leaves the connection as it is but for the flow edge and the timer. An old
      one is answered with an ACK, but not in SYN_RCVD, and any other with a reset; the answer takes its
      number from the segment's acknowledgement. */
  lemma RefusalAnswers(c: Conn, p: Packet)
    requires Valid(c) && !IsValid(c, p.seqNum, |p.payload|)
    ensures var r := Receive(c, p, true);
      if !IsOld(c, p.seqNum) then
        r == Outcome(c.(timer := true), [Emitted(Packet(p.ackNum, c.rack, RST, c.sendWindow, []), true)])
      else if c.state.SYN_RCVD? then r == Outcome(c.(flow := c.una + p.window), [])
      else r == Outcome(c.(flow := c.una + p.window, timer := false),
                        [Emitted(Packet(p.ackNum, c.rack, ACK, c.sendWindow, []), true)])
  {
  }

  // Starting over

  /** Whatever state it was in, a socket that is reset is a new socket. */
  lemma ResetIsNew(c: Conn)
    ensures Reset(c) == NewSocket()
  {
  }

  /** So is one that a reset arrives at, one whose call has gone unanswered too long, and one that has no
      route for an answer it must give. */
  lemma ResetsAreObeyed(c: Conn, p: Packet, routed: bool, timeWait: bool, retransmit: bool)
    requires Valid(c)
    ensures HasRst(p.flags) ==> Arrive(c, p, routed) == Outcome(NewSocket(), [])
    ensures c.state.SYN_SENT? ==> Watchdog(c, timeWait, retransmit, true) == Outcome(NewSocket(), [])
    ensures !IsValid(c, p.seqNum, |p.payload|) && !(IsOld(c, p.seqNum) && c.state.SYN_RCVD?)
      ==> Receive(c, p, false) == Outcome(NewSocket(), [])
  {
  }

  // The user's calls, and the clocks

  /** `v_connect` and `v_listen` work in CLOSED only: the one queues a SYN at the number drawn, the other waits;
      neither sends anything at once. */
  lemma OpensFromClosed(c: Conn, isn: nat)
    requires Valid(c)
    ensures !c.state.CLOSED? ==> Connect(c, isn) == Listen(c) == Outcome(c, [])
    ensures c.state.CLOSED? ==> Listen(c) == Outcome(c.(state := LISTEN, prev := CLOSED), [])
    ensures c.state.CLOSED? ==>
      Connect(c, isn) == Outcome(c.(state := SYN_SENT, prev := CLOSED, una := isn, next := isn, high := isn,
        written := isn + 1, slog := c.slog + [Cell(FLAG, SYN)], sbuf := Put(c.sbuf, isn, Cell(FLAG, SYN))), [])
  {
  }

  /** `v_write` does nothing outside ESTAB and CLOSE_WAIT, and `v_read` fails before ESTAB and in CLOSED. */
  lemma RefusedCalls(c: Conn, data: seq<byte>, n: nat)
    requires Valid(c)
    ensures !c.state.ESTAB? && !c.state.CLOSE_WAIT? ==> WriteAsserts(c, data) && Write(c, data) == c
    ensures c.state in {CLOSED, LISTEN, SYN_SENT, SYN_RCVD} ==> Read(c, n) == (c, EndOfFile)
  {
  }

  /** A visit of the watchdog on which no clock that matters has run out does nothing, but to stop the timer in
      CLOSED. */
  lemma VisitDoesNothing(c: Conn, timeWait: bool, retransmit: bool, connecting: bool)
    requires Valid(c)
    requires !(c.state.TIME_WAIT? && timeWait) && !(c.state.SYN_SENT? && connecting)
    requires c.state.CLOSED? || !(c.timer && retransmit)
    ensures Watchdog(c, timeWait, retransmit, connecting)
         == Outcome(if c.state.CLOSED? then c.(timer := false) else c, [])
  {
  }
}
