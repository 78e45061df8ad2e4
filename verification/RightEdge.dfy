/** The right edge of the window, as the packets sent through `tcp_sendto` advertise it. */
module RightEdge {
  import opened Common
  import opened Machine
  import opened Connection
  import opened Receiving
  import opened Arrival
  import opened Runs

  /** After the handshake and before the peer's stream has ended. */
  predicate Flowing(s: State) {
    s.ESTAB? || s.FIN_WAIT1? || s.FIN_WAIT2? || s.CLOSING? || s.TIME_WAIT?
  }

  /** The right edge a packet advertises. */
  function Advertised(p: Packet): nat {
    p.ackNum + p.window
  }

  /** Every packet of `sent` that went through `tcp_sendto` advertises `edge`. */
  ghost predicate AllAdvertise(sent: seq<Emitted>, edge: nat) {
    forall i :: 0 <= i < |sent| ==> sent[i].raw || Advertised(sent[i].packet) == edge
  }

  lemma SendToAdvertises(c: Conn, payload: seq<byte>, flags: byte)
    requires c.recvWindow == WINDOW && c.rack == c.rnext <= c.rread + WINDOW && c.rread <= c.rnext
    ensures AllAdvertise(SendTo(c, payload, flags).sent, Edge(c))
  {
  }

  /** A step of the machine sends nothing, one raw packet, or one pure ACK. */
  lemma StepSends(c: Conn, input: Input, p: Option<Packet>, routed: bool)
    requires Valid(c) && Flowing(c.state)
    requires Lookup(c.state, input).None? || input.ON_RECV_SYN_ACK? ==> p.Some?
    ensures var sent := Step(c, input, p, routed).sent;
      sent == [] || (|sent| == 1 && sent[0].raw) || sent == SendTo(c, [], ACK).sent
  {
  }

  lemma StepAdvertises(c: Conn, input: Input, p: Option<Packet>, routed: bool)
    requires Valid(c) && RecvPointers(c) && Flowing(c.state)
    requires Lookup(c.state, input).None? || input.ON_RECV_SYN_ACK? ==> p.Some?
    ensures AllAdvertise(Step(c, input, p, routed).sent, Edge(c))
  {
    StepSends(c, input, p, routed);
    SendToAdvertises(c, [], ACK);
  }

  lemma BeforeDataAdvertises(c: Conn, p: Packet, routed: bool)
    requires Valid(c) && RecvInv(c) && Flowing(c.state) && IsValid(c, p.seqNum, |p.payload|)
    ensures AllAdvertise(BeforeData(c, p, routed).sent, Edge(c))
  {
    ValidHasRoom(c, p.seqNum, |p.payload|);
    var c1 := ProcessAck(UpdateWindow(c, p.window), p);
    var c2 := if IsControl(p) then AckData(c1, 1) else c1;
    assert Edge(c2) == Edge(c);
    StepAdvertises(c2, PacketToInput(p.flags), Some(p), routed);
  }

  lemma BeforeDataKeepsEdge(c: Conn, p: Packet, routed: bool)
    requires Valid(c) && Flowing(c.state)
    ensures Flowing(BeforeData(c, p, routed).conn.state) ==> BeforeData(c, p, routed).conn.rread == c.rread
  {
    var c1 := ProcessAck(UpdateWindow(c, p.window), p);
    StepOnData(if IsControl(p) then AckData(c1, 1) else c1, PacketToInput(p.flags), Some(p), routed);
  }

  lemma RefusalAdvertises(c: Conn, p: Packet, routed: bool)
    requires Valid(c) && Flowing(c.state) && !IsValid(c, p.seqNum, |p.payload|)
    ensures AllAdvertise(Receive(c, p, routed).sent, Edge(c))
    ensures Flowing(Receive(c, p, routed).conn.state) ==> Receive(c, p, routed).conn.rread == c.rread
  {
  }

  lemma ReceiveAdvertises(c: Conn, p: Packet, routed: bool)
    requires Valid(c) && RecvInv(c) && Flowing(c.state) && (Accepts(c, p, routed) ==> |p.payload| <= SIZE)
    ensures AllAdvertise(Receive(c, p, routed).sent, Edge(c))
    ensures Flowing(Receive(c, p, routed).conn.state) ==> Receive(c, p, routed).conn.rread == c.rread
  {
    if !IsValid(c, p.seqNum, |p.payload|) {
      RefusalAdvertises(c, p, routed);
    } else {
      BeforeDataAdvertises(c, p, routed);
      BeforeDataKeepsEdge(c, p, routed);
      if Accepts(c, p, routed) {
        AcceptedFits(c, p, routed);
        var mid := BeforeData(c, p, routed);
        TakeAdvertises(mid.conn, p.payload);
        assert Receive(c, p, routed).sent == mid.sent + TakeData(mid.conn, p.payload).sent;
      }
    }
  }

  lemma TakeAdvertises(c: Conn, data: seq<byte>)
    requires Valid(c) && |data| <= SIZE
    requires c.recvWindow == WINDOW && c.rack == c.rnext && c.rread <= c.rnext
    requires c.rnext + |data| <= c.rread + WINDOW
    ensures AllAdvertise(TakeData(c, data).sent, Edge(c))
    ensures TakeData(c, data).conn.rread == c.rread
  {
    SendToAdvertises(AckData(c, |data|), [], ACK);
  }

  lemma TransmitAdvertises(c: Conn)
    requires Valid(c) && RecvInv(c) && SendAsserts(c) && Flowing(c.state)
    ensures AllAdvertise(Transmit(c).sent, Edge(c))
    ensures Transmit(c).conn.rread == c.rread
  {
  }

  lemma TimeoutCloses(c: Conn)
    requires Valid(c) && c.state.TIME_WAIT?
    ensures Step(c, ON_TIMEOUT, None, true).sent == []
    ensures Step(c, ON_TIMEOUT, None, true).conn.state.CLOSED?
  {
  }

  lemma WatchdogAdvertises(c: Conn, timeWait: bool, retransmit: bool, connecting: bool)
    requires Valid(c) && Flowing(c.state)
    ensures var r := Watchdog(c, timeWait, retransmit, connecting);
      r.sent == [] && (Flowing(r.conn.state) ==> r.conn.rread == c.rread)
  {
    if c.state.TIME_WAIT? && timeWait {
      TimeoutCloses(c);
    }
  }

  lemma CloseAdvertises(c: Conn)
    requires Valid(c) && RecvInv(c) && Flowing(c.state)
    ensures AllAdvertise(Close(c).sent, Edge(c)) && Close(c).conn.rread == c.rread
  {
    if CanClose(c.state) {
      StepAdvertises(c, ON_CLOSE, None, true);
      StepOnData(c, ON_CLOSE, None, true);
      UserKeepsReceiving(c, 0);
    }
  }

  /** Every packet sent through `tcp_sendto` advertises the true right edge. */
  lemma AdvertisesEdge(c: Conn, op: Op)
    requires Valid(c) && RecvInv(c) && Asserts(c, op) && Flowing(c.state)
    ensures AllAdvertise(Apply(c, op).sent, Edge(c))
  {
    match op
    case OpArrive(p, routed) => if !HasRst(p.flags) { ReceiveAdvertises(c, p, routed); }
    case OpTransmit => TransmitAdvertises(c);
    case OpWatchdog(t, r, k) => WatchdogAdvertises(c, t, r, k);
    case OpClose => CloseAdvertises(c);
    case _ =>
  }

  /** Only a read moves the edge, and a read moves it forward. */
  lemma OnlyReadsMoveEdge(c: Conn, op: Op)
    requires Valid(c) && RecvInv(c) && Asserts(c, op) && Flowing(c.state)
    requires Flowing(Apply(c, op).conn.state)
    ensures var d := Apply(c, op).conn;
      d.rread >= c.rread && (!op.OpRead? ==> d.rread == c.rread)
  {
    match op
    case OpArrive(p, routed) => if !HasRst(p.flags) { ReceiveAdvertises(c, p, routed); }
    case OpTransmit => TransmitAdvertises(c);
    case OpWatchdog(t, r, k) => WatchdogAdvertises(c, t, r, k);
    case OpClose => CloseAdvertises(c);
    case OpWrite(_) => SendersTouchNothing(c, op);
    case _ =>
  }

  lemma {:induction false} EdgeAdvances(cs: seq<Conn>, ops: seq<Op>, i: nat, j: nat)
    requires Run(cs, ops) && i <= j < |cs|
    requires forall k :: i <= k <= j ==> Flowing(cs[k].state)
    ensures Edge(cs[i]) <= Edge(cs[j])
    decreases j
  {
    if i < j {
      EdgeAdvances(cs, ops, i, j - 1);
      RunKeepsInv(cs, ops, j);
      RunIsSafe(cs, ops, j - 1);
      OnlyReadsMoveEdge(cs[j - 1], ops[j - 1]);
    }
  }

  /** Between the handshake and the end of the peer's stream the advertised right edge never moves back:
      of any two packets sent through `tcp_sendto`, the later advertises no less. */
  lemma RightEdgeNeverRetreats(cs: seq<Conn>, ops: seq<Op>, i: nat, j: nat, e: Emitted, f: Emitted)
    requires Run(cs, ops) && i <= j < |ops|
    requires forall k :: i <= k <= j ==> Flowing(cs[k].state)
    requires Valid(cs[i]) && Asserts(cs[i], ops[i]) && e in Apply(cs[i], ops[i]).sent && !e.raw
    requires Valid(cs[j]) && Asserts(cs[j], ops[j]) && f in Apply(cs[j], ops[j]).sent && !f.raw
    ensures Advertised(e.packet) <= Advertised(f.packet)
  {
    RunKeepsInv(cs, ops, i);
    RunKeepsInv(cs, ops, j);
    AdvertisesEdge(cs[i], ops[i]);
    AdvertisesEdge(cs[j], ops[j]);
    EdgeAdvances(cs, ops, i, j);
  }
}
