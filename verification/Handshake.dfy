/** The three-way handshake: exactly when it goes through, and the states it ends in. */
module Handshake {
  import opened Common
  import opened RingBuffer
  import opened Machine
  import opened Connection
  import opened Receiving
  import opened Arrival
  import opened Runs
  import opened Delivery
  import Modulo
  import Window

  /** In SYN_SENT the peer's initial sequence number is tested against a window that starts at zero,
      modulo the buffer. So an answer to our SYN is taken if and only if that number, and the end of the
      data it may carry, fall in the first 4096 of each 8194. */
  lemma AnswerTakenIff(c: Conn, p: Packet, routed: bool)
    requires Valid(c) && RecvInv(c) && c.state.SYN_SENT? && p.flags == SYN + ACK
    ensures !Accepts(c, p, routed)
    ensures Receive(c, p, routed).conn.state.ESTAB?
       <==> p.seqNum % SIZE < WINDOW && (p.seqNum + |p.payload|) % SIZE < WINDOW
  {
    Window.WindowIsExact(SIZE, c.rack, Edge(c), p.seqNum);
    Window.WindowIsExact(SIZE, c.rack, Edge(c), p.seqNum + |p.payload|);
    if IsValid(c, p.seqNum, |p.payload|) {
      AnswerEstablishes(c, p, routed);
    } else {
      RefusalStays(c, p, routed);
    }
  }

  lemma AnswerEstablishes(c: Conn, p: Packet, routed: bool)
    requires Valid(c) && c.state.SYN_SENT? && p.flags == SYN + ACK && IsValid(c, p.seqNum, |p.payload|)
    ensures !Accepts(c, p, routed) && Receive(c, p, routed).conn.state.ESTAB?
  {
    assert IsControl(p) && PacketToInput(p.flags) == ON_RECV_SYN_ACK;
    var c2 := AckData(ProcessAck(UpdateWindow(c, p.window), p), 1);
    StepOnPointers(c2, ON_RECV_SYN_ACK, Some(p), routed);
    assert BeforeData(c, p, routed) == Step(c2, ON_RECV_SYN_ACK, Some(p), routed);
  }

  lemma RefusalStays(c: Conn, p: Packet, routed: bool)
    requires Valid(c) && !IsValid(c, p.seqNum, |p.payload|)
    ensures var d := Receive(c, p, routed).conn; d.state == c.state || d.state.CLOSED?
  {
  }

  // The SYN

  /** The guard itself: in SYN_SENT the SYN can be sent if and only if it is waiting and the flow edge is not
      where it stands, modulo 2^32. */
  lemma SynSendableIff(c: Conn)
    requires Inv(c) && c.state.SYN_SENT?
    ensures Sendable(c) > 0 <==> c.next < c.written && Uint32(c.flow) != Uint32(c.next)
  {
    Modulo.Offset(c.flow, c.next, 0x1_0000_0000);
  }

  /** Right after `v_connect` the flow edge is where the reset put it, at 4096. */
  lemma SynSentIff(isn: nat)
    requires isn < 0x1_0000_0000
    ensures Sendable(Connect(NewSocket(), isn).conn) == if isn == WINDOW then 0 else 1
  {
  }

  /** Any segment refused as old moves the flow edge, so that from then on an unsent SYN can be sent if and
      only if the segment announced a window, whatever the initial sequence number. */
  lemma OldSegmentDecides(c: Conn, p: Packet)
    requires Inv(c) && c.state.SYN_SENT? && c.next == c.una && c.written == c.next + 1
    requires !IsValid(c, p.seqNum, |p.payload|) && IsOld(c, p.seqNum)
    ensures var d := Receive(c, p, true).conn;
      d.state.SYN_SENT? && (Sendable(d) > 0 <==> p.window > 0)
  {
  }

  /** Operations through which the socket stays in SYN_SENT, no packet arriving. */
  ghost predicate Waits(c: Conn, ops: seq<Op>)
    decreases |ops|
  {
    && Valid(c) && c.state.SYN_SENT?
    && (ops != [] ==> !ops[0].OpArrive? && Asserts(c, ops[0]) && Waits(Apply(c, ops[0]).conn, ops[1..]))
  }

  /** All that is sent on the way. */
  ghost function SentOn(c: Conn, ops: seq<Op>): seq<Emitted>
    requires Waits(c, ops)
    decreases |ops|
  {
    if ops == [] then [] else Apply(c, ops[0]).sent + SentOn(Apply(c, ops[0]).conn, ops[1..])
  }

  /** The SYN waits to be sent, or to be sent again, and the flow edge is where the reset put it. */
  ghost predicate SynWaits(c: Conn, isn: nat) {
    c.state.SYN_SENT? && c.una == c.next == isn && c.written == isn + 1 && c.flow == WINDOW
  }

  lemma WaitingChangesNothing(c: Conn, isn: nat, op: Op)
    requires Valid(c) && SynWaits(c, isn) && Asserts(c, op) && !op.OpArrive? && !op.OpTransmit?
    ensures var r := Apply(c, op); r.sent == [] && (r.conn.state.SYN_SENT? ==> SynWaits(r.conn, isn))
  {
  }

  lemma WaitingSends(c: Conn, isn: nat)
    requires Valid(c) && SynWaits(c, isn) && SendAsserts(c) && isn < 0x1_0000_0000
    ensures isn == WINDOW ==> Transmit(c) == Outcome(c, [])
    ensures isn != WINDOW ==> Transmit(c).sent != []
  {
  }

  lemma {:induction false} SynSentOnIff(c: Conn, isn: nat, ops: seq<Op>)
    requires SynWaits(c, isn) && Waits(c, ops) && isn < 0x1_0000_0000
    ensures isn == WINDOW ==> SentOn(c, ops) == []
    ensures isn != WINDOW && OpTransmit in ops ==> SentOn(c, ops) != []
    decreases |ops|
  {
    if ops != [] {
      var op := ops[0];
      if op.OpTransmit? {
        WaitingSends(c, isn);
        if isn == WINDOW {
          SynSentOnIff(c, isn, ops[1..]);
        }
      } else {
        WaitingChangesNothing(c, isn, op);
        SynSentOnIff(Apply(c, op).conn, isn, ops[1..]);
      }
    }
  }

  /** So a socket that has called `v_connect` and hears nothing, its send thread having had a turn, has sent
      nothing if and only if the initial sequence number was 4096: however often its turn comes, and
      however often the watchdog rewinds, its SYN is held back. */
  lemma SynHeldBackIff(isn: nat, ops: seq<Op>)
    requires isn < 0x1_0000_0000 && OpTransmit in ops && Waits(Connect(NewSocket(), isn).conn, ops)
    ensures SentOn(Connect(NewSocket(), isn).conn, ops) == [] <==> isn == WINDOW
  {
    SynSentOnIff(Connect(NewSocket(), isn).conn, isn, ops);
  }

  // The exchange: the four sockets and the three packets it goes through, from a new socket that calls
  // with `isnA` and a socket cloned for it with `isnB`.

  function Calling(isnA: nat): Conn {
    NewSocket().(state := SYN_SENT,
      sbuf := Put(Blank(), isnA, Cell(FLAG, SYN)), slog := [Cell(FLAG, SYN)],
      una := isnA, next := isnA + 1, written := isnA + 1, high := isnA + 1, timer := true)
  }

  function Called(isnB: nat, isnA: nat): Conn {
    Clone(isnB, isnA).(state := SYN_RCVD, prev := LISTEN,
      sbuf := Put(Blank(), isnB, Cell(FLAG, SYN + ACK)), slog := [Cell(FLAG, SYN + ACK)],
      written := isnB + 1, flow := isnB + WINDOW,
      rack := isnA + 1, rnext := isnA + 1, sendWindow := WINDOW - 1)
  }

  function Answering(isnB: nat, isnA: nat): Conn {
    Called(isnB, isnA).(next := isnB + 1, high := isnB + 1, timer := true)
  }

  function Caller(isnA: nat, isnB: nat): Conn {
    Calling(isnA).(state := ESTAB, prev := SYN_SENT, una := isnA + 1, flow := isnA + WINDOW - 1, timer := false,
      rack := isnB + 1, rnext := isnB + 1, rread := isnB, sendWindow := WINDOW - 1)
  }

  function Callee(isnB: nat, isnA: nat): Conn {
    Answering(isnB, isnA).(state := ESTAB, prev := SYN_RCVD, una := isnB + 1, flow := isnB + WINDOW - 1, timer := false)
  }

  function TheSyn(isnA: nat): Packet { Packet(isnA, 0, SYN, WINDOW, []) }
  function TheAnswer(isnB: nat, isnA: nat): Packet { Packet(isnB, isnA + 1, SYN + ACK, WINDOW - 1, []) }
  function TheAck(isnA: nat, isnB: nat): Packet { Packet(isnA + 1, isnB + 1, ACK, WINDOW - 1, []) }

  /** `v_connect` and one turn of the send thread send the SYN. */
  lemma CallerSendsSyn(isnA: nat)
    requires isnA < 0x1_0000_0000 && isnA != WINDOW
    ensures var c := Connect(NewSocket(), isnA).conn;
      SendAsserts(c) && Transmit(c) == Outcome(Calling(isnA), [Emitted(TheSyn(isnA), false)])
  {
    var c := Connect(NewSocket(), isnA).conn;
    SynSentIff(isnA);
    assert At(c.sbuf, isnA) == Cell(FLAG, SYN);
    ControlAlone(c.sbuf, isnA, 1);
  }

  /** The cloned socket takes the SYN and queues its answer. */
  lemma CloneTakesSyn(isnB: nat, isnA: nat)
    ensures Receive(Clone(isnB, isnA), TheSyn(isnA), true) == Outcome(Called(isnB, isnA), [])
  {
    TestsAreExact(Clone(isnB, isnA), isnA, 0);
  }

  /** Its next turn of the send thread sends the answer. */
  lemma CloneSendsAnswer(isnB: nat, isnA: nat)
    ensures var c := Called(isnB, isnA);
      SendAsserts(c) && Transmit(c) == Outcome(Answering(isnB, isnA), [Emitted(TheAnswer(isnB, isnA), false)])
  {
    var c := Called(isnB, isnA);
    assert Sendable(c) == 1;
    assert At(c.sbuf, isnB) == Cell(FLAG, SYN + ACK);
    ControlAlone(c.sbuf, isnB, 1);
  }

  /** The caller takes the answer, if the answer's number is one it can take, and acknowledges it. */
  lemma CallerTakesAnswer(isnA: nat, isnB: nat)
    requires isnB % SIZE < WINDOW
    ensures Receive(Calling(isnA), TheAnswer(isnB, isnA), true)
         == Outcome(Caller(isnA, isnB), [Emitted(TheAck(isnA, isnB), false)])
  {
    TestsAreExact(Calling(isnA), isnB, 0);
    CallerTurns(isnA, isnB, AckData(ProcessAck(UpdateWindow(Calling(isnA), WINDOW - 1), TheAnswer(isnB, isnA)), 1));
  }

  /** The step of the machine on the way, from where the answer has been acknowledged. */
  lemma CallerTurns(isnA: nat, isnB: nat, c: Conn)
    requires c == Calling(isnA).(una := isnA + 1, flow := isnA + WINDOW - 1, timer := false,
                                 rack := 1, rnext := 1, sendWindow := WINDOW - 1)
    ensures Step(c, ON_RECV_SYN_ACK, Some(TheAnswer(isnB, isnA)), true)
         == Outcome(Caller(isnA, isnB), [Emitted(TheAck(isnA, isnB), false)])
  {
  }

  /** The cloned socket takes the acknowledgement. */
  lemma CloneTakesAck(isnB: nat, isnA: nat)
    ensures Receive(Answering(isnB, isnA), TheAck(isnA, isnB), true) == Outcome(Callee(isnB, isnA), [])
  {
    TestsAgreeNearby(Answering(isnB, isnA), isnA + 1, 0);
  }

  /** So the exchange ends with both sockets in ESTAB, in a state from which delivery is proved, its three
      packets perhaps still to be delivered again. */
  lemma HandshakeEstablishes(isnA: nat, isnB: nat)
    ensures var a := Party(Caller(isnA, isnB), [], [], isnA + 1);
            var b := Party(Callee(isnB, isnA), [], [], isnB + 1);
            Starting(System(a, b, {TheAnswer(isnB, isnA)}, {TheSyn(isnA), TheAck(isnA, isnB)}, isnA, isnB))
    ensures forall p :: p in {TheAnswer(isnB, isnA), TheSyn(isnA), TheAck(isnA, isnB)} ==> !HasFin(p.flags)
  {
    assert HasSyn(SYN) && HasSyn(SYN + ACK);
  }

  // Plain segments

  lemma PlainStep(c: Conn, p: Packet, routed: bool)
    requires Valid(c) && c.state.ESTAB? && p.flags == 0
    ensures var mid := BeforeData(c, p, routed).conn;
      mid.state.ESTAB? && PointersOf(mid) == PointersOf(c)
  {
  }

  /** In ESTAB a segment of data without flags is accepted if and only if the window test admits it: then
      there is room for it, wherever in the window it starts. */
  lemma PlainAcceptedIffValid(c: Conn, p: Packet, routed: bool)
    requires Valid(c) && RecvInv(c) && c.state.ESTAB?
    requires p.flags == 0 && p.payload != [] && |p.payload| <= WINDOW
    ensures Accepts(c, p, routed) <==> IsValid(c, p.seqNum, |p.payload|)
  {
    TestsAreExact(c, p.seqNum, |p.payload|);
    PlainStep(c, p, routed);
    RoomInWindow(c, BeforeData(c, p, routed).conn, |p.payload|);
  }

  lemma RoomInWindow(c: Conn, mid: Conn, n: nat)
    requires RecvInv(c) && c.state.ESTAB? && PointersOf(mid) == PointersOf(c)
    ensures n < Edge(c) - c.rack ==> HaveRoom(mid, n)
  {
  }

  lemma PlainIsTaken(c: Conn, p: Packet, routed: bool)
    requires RecvInv(c) && RecvData(c) && c.state.ESTAB? && Accepts(c, p, routed) && |p.payload| <= SIZE
    ensures Receive(c, p, routed).conn.got == c.got + p.payload
  {
    ReceiveKeepsData(c, p, routed);
    AcceptingKeepsOpen(c, p, routed);
  }

  /** What the order of arrival is assumed for does happen: in ESTAB every segment of data that overtakes
      others and ends inside the window is accepted, and its bytes are taken for the next ones. */
  lemma OvertakingIsTaken(c: Conn, p: Packet, routed: bool)
    requires RecvInv(c) && RecvData(c) && c.state.ESTAB? && p.flags == 0 && p.payload != []
    requires c.rack < p.seqNum && p.seqNum + |p.payload| < Edge(c)
    ensures Accepts(c, p, routed) && |p.payload| <= SIZE
    ensures Receive(c, p, routed).conn.got == c.got + p.payload
  {
    TestsAgreeNearby(c, p.seqNum, |p.payload|);
    PlainAcceptedIffValid(c, p, routed);
    PlainIsTaken(c, p, routed);
  }
}
