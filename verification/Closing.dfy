/** The end of a stream between two sockets: what a FIN in the network says of what its sender wrote, and
    that a reader who is given end of file has read all of it. */
module Closing {
  import opened Common
  import opened Machine
  import opened Connection
  import opened Sending
  import opened Receiving
  import opened EndOfStream
  import opened Runs
  import opened Delivery

  /** A FIN in the network stands right after all that its sender wrote, and the sender writes no more. */
  ghost predicate FinOk(x: Party, isn: nat, p: Packet) {
    HasFin(p.flags) ==> !CanSend(x.conn.state) && p.seqNum == isn + 1 + |x.wrote|
  }

  ghost predicate FinsOk(x: Party, net: set<Packet>, isn: nat) {
    forall p :: p in net ==> FinOk(x, isn, p)
  }

  // Who sends a FIN

  ghost predicate NoFin(sent: seq<Emitted>) {
    forall i :: 0 <= i < |sent| ==> !HasFin(sent[i].packet.flags)
  }

  lemma StepSendsNoFin(c: Conn, input: Input, p: Option<Packet>, routed: bool)
    requires Valid(c)
    requires Lookup(c.state, input).None? || input.ON_RECV_SYN_ACK? ==> p.Some?
    ensures NoFin(Step(c, input, p, routed).sent)
  {
  }

  lemma AcceptableSendsNoFin(c: Conn, p: Packet, routed: bool)
    requires Valid(c)
    ensures NoFin(BeforeData(c, p, routed).sent)
  {
    var c1 := ProcessAck(UpdateWindow(c, p.window), p);
    var c2 := if IsControl(p) then AckData(c1, 1) else c1;
    StepSendsNoFin(c2, PacketToInput(p.flags), Some(p), routed);
  }

  lemma RefusalSendsNoFin(c: Conn, p: Packet, routed: bool)
    requires Valid(c) && !IsValid(c, p.seqNum, |p.payload|)
    ensures NoFin(Receive(c, p, routed).sent)
  {
  }

  lemma ReceiveSendsNoFin(c: Conn, p: Packet, routed: bool)
    requires Valid(c) && (Accepts(c, p, routed) ==> |p.payload| <= SIZE)
    ensures NoFin(Receive(c, p, routed).sent)
  {
    if IsValid(c, p.seqNum, |p.payload|) {
      AcceptableSendsNoFin(c, p, routed);
      var mid := BeforeData(c, p, routed);
      if Accepts(c, p, routed) {
        assert Receive(c, p, routed).sent == mid.sent + TakeData(mid.conn, p.payload).sent;
      }
    } else {
      RefusalSendsNoFin(c, p, routed);
    }
  }

  /** The send thread alone sends FINs. */
  lemma OthersSendNoFin(c: Conn, op: Op)
    requires Valid(c) && Asserts(c, op) && !op.OpTransmit?
    ensures NoFin(Apply(c, op).sent)
  {
    match op
    case OpConnect(isn) =>
      if CanConnect(c.state) {
        StepSendsNoFin(c.(una := isn, next := isn, written := isn, high := isn), ON_ACTIVE_OPEN, None, true);
      }
    case OpListen => if CanListen(c.state) { StepSendsNoFin(c, ON_PASSIVE_OPEN, None, true); }
    case OpClose => if CanClose(c.state) { StepSendsNoFin(c, ON_CLOSE, None, true); }
    case OpArrive(p, routed) => if !HasRst(p.flags) { ReceiveSendsNoFin(c, p, routed); }
    case OpWatchdog(t, r, k) => WatchdogSendsNoFin(c, t, r, k);
    case _ =>
  }

  lemma WatchdogSendsNoFin(c: Conn, timeWait: bool, retransmit: bool, connecting: bool)
    requires Valid(c)
    ensures NoFin(Watchdog(c, timeWait, retransmit, connecting).sent)
  {
    if c.state.TIME_WAIT? && timeWait {
      StepSendsNoFin(c, ON_TIMEOUT, None, true);
    }
  }

  /** And it sends one only after closing, right after all that was written. */
  lemma TransmitSendsFinLast(x: Party, isn: nat, r: Outcome, e: Emitted)
    requires SenderOk(x, isn) && CanReceive(x.conn.state) && SendAsserts(x.conn)
    requires r == Transmit(x.conn) && e in r.sent
    ensures FinOk(x, isn, e.packet)
  {
    TransmitFaithful(x.conn, r);
    FaithfulFin(x.conn, e.packet, x.wrote);
  }

  lemma FaithfulFin(c: Conn, p: Packet, w: seq<byte>)
    requires LogIs(c.slog, c.state, w) && Shape(c.slog, c.state) && CanReceive(c.state)
    requires Faithful(p, c.slog, Start(c)) && p.seqNum > Start(c)
    ensures HasFin(p.flags) ==> FinQueued(c.state) && p.seqNum == Start(c) + 1 + |w|
  {
  }

  // After closing

  /** The states after our own close, and CLOSED. */
  predicate Spent(s: State) {
    s.CLOSED? || s.FIN_WAIT1? || s.FIN_WAIT2? || s.CLOSING? || s.TIME_WAIT? || s.LAST_ACK?
  }

  /** Having closed, or been reset, an end stays closed for writing: nothing that arrives, and nothing of its
      own short of connecting or listening again, brings it back. */
  lemma StaysSpent(c: Conn, op: Op)
    requires Valid(c) && Asserts(c, op) && !op.OpConnect? && !op.OpListen? && Spent(c.state)
    ensures Spent(Apply(c, op).conn.state) && !CanSend(Apply(c, op).conn.state) && AcceptedBytes(c, op) == []
  {
    match op
    case OpClose =>
    case OpArrive(p, routed) => if !HasRst(p.flags) { PacketStaysSpent(c, p, routed); }
    case OpWatchdog(t, r, k) => WatchdogOnLog(c, t, r, k);
    case OpTransmit => TransmitOnLog(c);
    case _ =>
  }

  lemma AcceptableStaysSpent(c: Conn, p: Packet, routed: bool)
    requires Valid(c) && Spent(c.state)
    ensures Spent(BeforeData(c, p, routed).conn.state)
  {
    var c1 := ProcessAck(UpdateWindow(c, p.window), p);
    var c2 := if IsControl(p) then AckData(c1, 1) else c1;
    StepOnPointers(c2, PacketToInput(p.flags), Some(p), routed);
  }

  lemma RefusalStaysSpent(c: Conn, p: Packet, routed: bool)
    requires Valid(c) && Spent(c.state) && !IsValid(c, p.seqNum, |p.payload|)
    ensures Spent(Receive(c, p, routed).conn.state)
  {
  }

  lemma PacketStaysSpent(c: Conn, p: Packet, routed: bool)
    requires Valid(c) && (Accepts(c, p, routed) ==> |p.payload| <= SIZE) && Spent(c.state)
    ensures Spent(Receive(c, p, routed).conn.state)
  {
    if IsValid(c, p.seqNum, |p.payload|) {
      AcceptableStaysSpent(c, p, routed);
      if Accepts(c, p, routed) {
        assert Receive(c, p, routed).conn == TakeData(BeforeData(c, p, routed).conn, p.payload).conn;
      }
    } else {
      RefusalStaysSpent(c, p, routed);
    }
  }

  // The system

  /** A move of one end keeps what is known of the FINs it has sent. */
  lemma MoveKeepsFins(x: Party, y: Party, toX: set<Packet>, toY: set<Packet>, isnX: nat, isnY: nat,
                      op: Op, x': Party, out: set<Packet>)
    requires Half(x, y, toY, toX, isnX) && Half(y, x, toX, toY, isnY) && FinsOk(x, toY, isnX)
    requires Moves(x, toX, op, x', out)
    ensures FinsOk(x', toY + out, isnX)
  {
    EndMoves(x, y, toX, toY, isnX, isnY, op, x', out);
    var r := Apply(x.conn, op);
    forall p | p in toY + out
      ensures FinOk(x', isnX, p)
    {
      if p in toY && HasFin(p.flags) {
        assert FinOk(x, isnX, p);
        FinStaysOk(x, isnX, toX, op, x', p);
      } else if p in out {
        var e :| e in r.sent && e.packet == p;
        NewFinIsOk(x, isnX, op, r, x', e);
      }
    }
  }

  lemma FinStaysOk(x: Party, isn: nat, incoming: set<Packet>, op: Op, x': Party, p: Packet)
    requires SenderOk(x, isn) && FinOk(x, isn, p) && HasFin(p.flags)
    requires Asserts(x.conn, op) && Orderly(x, incoming, op) && x' == After(x, op)
    ensures FinOk(x', isn, p)
  {
    StaysSpent(x.conn, op);
  }

  lemma NewFinIsOk(x: Party, isn: nat, op: Op, r: Outcome, x': Party, e: Emitted)
    requires SenderOk(x, isn) && Asserts(x.conn, op) && r == Apply(x.conn, op) && x' == After(x, op) && e in r.sent
    ensures FinOk(x', isn, e.packet)
  {
    if op.OpTransmit? {
      if CanReceive(x.conn.state) {
        TransmitSendsFinLast(x, isn, r, e);
        TransmitOnLog(x.conn);
      }
    } else {
      OthersSendNoFin(x.conn, op);
    }
  }

  lemma {:induction false} FinsStayOk(ss: seq<System>, sides: seq<bool>, ops: seq<Op>, i: nat)
    requires SystemRun(ss, sides, ops) && i <= |ops|
    requires forall p :: p in ss[0].toA + ss[0].toB ==> !HasFin(p.flags)
    ensures FinsOk(ss[i].a, ss[i].toB, ss[i].isnA) && FinsOk(ss[i].b, ss[i].toA, ss[i].isnB)
  {
    if i > 0 {
      FinsStayOk(ss, sides, ops, i - 1);
      SystemStaysInv(ss, sides, ops, i - 1);
      assert SystemStepAt(ss, sides, ops, i - 1);
      StepKeepsFins(ss[i - 1], sides[i - 1], ops[i - 1], ss[i]);
    }
  }

  lemma StepKeepsFins(s: System, atA: bool, op: Op, s': System)
    requires SystemInv(s) && SystemNext(s, atA, op, s')
    requires FinsOk(s.a, s.toB, s.isnA) && FinsOk(s.b, s.toA, s.isnB)
    ensures FinsOk(s'.a, s'.toB, s'.isnA) && FinsOk(s'.b, s'.toA, s'.isnB)
  {
    if atA {
      var out: set<Packet> :| Moves(s.a, s.toA, op, s'.a, out) && s'.toB == s.toB + out;
      MoveKeepsFins(s.a, s.b, s.toA, s.toB, s.isnA, s.isnB, op, s'.a, out);
    } else {
      var out: set<Packet> :| Moves(s.b, s.toB, op, s'.b, out) && s'.toA == s.toA + out;
      MoveKeepsFins(s.b, s.a, s.toB, s.toA, s.isnB, s.isnA, op, s'.b, out);
    }
  }

  // The end of the stream

  /** When a FIN that `x` sent has been accepted by `y` on the first lap of its buffer, whatever follows that
      stays in CLOSE_WAIT: the reads continue what was read with bytes that `x` wrote; given more reads
      than unread bytes they end in end of file; and when they do, all that `x` ever wrote has been read if
      and only if the FIN was the next segment expected. */
  lemma EndOfFile(x: Party, y: Party, net: set<Packet>, back: set<Packet>, isn: nat, fin: Packet, routed: bool,
                  ops: seq<Op>)
    requires Half(x, y, net, back, isn) && FinsOk(x, net, isn) && fin in net && fin.flags == FIN
    requires y.conn.state.ESTAB? && |y.conn.got| < SIZE && IsValid(y.conn, fin.seqNum, |fin.payload|)
    requires !Accepts(y.conn, fin, routed) && Lingers(Receive(y.conn, fin, routed).conn, ops)
    ensures !CanSend(x.conn.state)
    ensures var (data, end) := Delivered(Receive(y.conn, fin, routed).conn, ops);
      && y.read + data <= x.wrote
      && (|ReadSizes(ops)| > |Unread(y.conn)| ==> end)
      && (end ==> (y.read + data == x.wrote <==> fin.seqNum == y.conn.rack))
  {
    EndOfStreamDelivered(y.conn, fin, routed, ops);
    assert FinOk(x, isn, fin);
    var (data, end) := Delivered(Receive(y.conn, fin, routed).conn, ops);
    AllOrPart(y.read, data, Unread(y.conn), y.conn.got, x.wrote);
  }

  lemma AllOrPart(read: seq<byte>, data: seq<byte>, unread: seq<byte>, got: seq<byte>, w: seq<byte>)
    requires read + unread == got <= w && data <= unread
    ensures read + data <= w
    ensures data == unread ==> (read + data == w <==> |got| == |w|)
  {
    assert read + data <= read + unread;
  }

  /** So in every run of two sockets from ESTAB, over a network that drops, duplicates, delays and reorders,
      a FIN of A's that B accepts in its turn on the first lap, B being given end of file after it, means
      that B has read exactly what A wrote, and that A writes no more; and likewise the other way. */
  lemma WholeStreamDelivered(ss: seq<System>, sides: seq<bool>, ops: seq<Op>, i: nat, atB: bool,
                             fin: Packet, routed: bool, after: seq<Op>)
    requires SystemRun(ss, sides, ops) && i <= |ops|
    requires forall p :: p in ss[0].toA + ss[0].toB ==> !HasFin(p.flags)
    requires var y, net := if atB then ss[i].b else ss[i].a, if atB then ss[i].toB else ss[i].toA;
      && Valid(y.conn) && y.conn.state.ESTAB? && |y.conn.got| < SIZE && y.conn.rread <= y.conn.rack
      && fin in net && fin.flags == FIN && IsValid(y.conn, fin.seqNum, |fin.payload|)
      && !Accepts(y.conn, fin, routed) && Lingers(Receive(y.conn, fin, routed).conn, after)
    ensures var y, x := if atB then ss[i].b else ss[i].a, if atB then ss[i].a else ss[i].b;
      var (data, end) := Delivered(Receive(y.conn, fin, routed).conn, after);
      && !CanSend(x.conn.state) && y.read + data <= x.wrote
      && (|ReadSizes(after)| > |y.conn.got| ==> end)
      && (end ==> (y.read + data == x.wrote <==> fin.seqNum == y.conn.rack))
  {
    SystemStaysInv(ss, sides, ops, i);
    FinsStayOk(ss, sides, ops, i);
    var s := ss[i];
    if atB {
      EndOfFile(s.a, s.b, s.toB, s.toA, s.isnA, fin, routed, after);
    } else {
      EndOfFile(s.b, s.a, s.toA, s.toB, s.isnB, fin, routed, after);
    }
  }
}
