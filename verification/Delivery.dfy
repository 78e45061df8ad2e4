/** Two connected sockets and a network between them that may drop, duplicate, delay and reorder. */
module Delivery {
  import opened Common
  import opened RingBuffer
  import opened Machine
  import opened Connection
  import opened Sending
  import opened Receiving
  import opened Reading
  import opened Arrival
  import opened EndOfStream
  import opened Runs

  /** One end: its socket, the bytes `v_write` has accepted and `v_read` has returned, and the highest
      position ever sent. */
  datatype Party = Party(conn: Conn, wrote: seq<byte>, read: seq<byte>, top: nat)

  /** Both ends, every packet ever sent to each, and the initial sequence numbers. */
  datatype System = System(a: Party, b: Party, toA: set<Packet>, toB: set<Packet>, isnA: nat, isnB: nat)

  /** A socket as the handshake with a peer that started at `peerIsn` leaves it. */
  ghost predicate JustEstablished(c: Conn, isn: nat, peerIsn: nat) {
    && c.state.ESTAB?
    && (exists f :: HasSyn(f) && c.slog == [Cell(FLAG, f)] && c.sbuf == Put(Blank(), isn, Cell(FLAG, f)))
    && c.una == c.next == c.written == c.high == isn + 1
    && c.rack == c.rnext == peerIsn + 1 && c.rread == peerIsn
    && c.rbuf == Blank() && c.got == []
    && c.recvWindow == WINDOW && c.sendWindow <= WINDOW
  }

  /** Both ends have just entered ESTAB; what is left in the network of the handshake carries no data and
      acknowledges no more than the other's SYN. */
  ghost predicate Starting(s: System) {
    && JustEstablished(s.a.conn, s.isnA, s.isnB) && s.a.wrote == s.a.read == [] && s.a.top == s.isnA + 1
    && JustEstablished(s.b.conn, s.isnB, s.isnA) && s.b.wrote == s.b.read == [] && s.b.top == s.isnB + 1
    && (forall p :: p in s.toA ==> p.payload == [] && AckOk(p, s.a.top))
    && (forall p :: p in s.toB ==> p.payload == [] && AckOk(p, s.b.top))
  }

  // Steps

  /** What the run asks at each step: neither end connects again or listens, a user writes only when
      there is room, what arrives was sent, no FIN arrives, and a segment is accepted only if it is the
      next one expected. */
  ghost predicate Orderly(x: Party, incoming: set<Packet>, op: Op) {
    match op
    case OpConnect(_) => false
    case OpListen => false
    case OpWrite(_) => CanSend(x.conn.state) ==> Room(x.conn) > 0
    case OpArrive(p, routed) =>
      && p in incoming && !HasFin(p.flags)
      && (Valid(x.conn) && !HasRst(p.flags) && Accepts(x.conn, p, routed) ==> p.seqNum == x.conn.rack)
    case _ => true
  }

  function Returned(c: Conn, op: Op): seq<byte>
    requires Valid(c)
  {
    if op.OpRead? && Read(c, op.n).1.Bytes? then Read(c, op.n).1.data else []
  }

  ghost function After(x: Party, op: Op): Party
    requires Valid(x.conn) && Asserts(x.conn, op)
  {
    var c := Apply(x.conn, op).conn;
    Party(c, x.wrote + AcceptedBytes(x.conn, op), x.read + Returned(x.conn, op), Max(x.top, c.high))
  }

  ghost function Packets(sent: seq<Emitted>): set<Packet> {
    set e | e in sent :: e.packet
  }

  ghost predicate Moves(x: Party, incoming: set<Packet>, op: Op, x': Party, out: set<Packet>) {
    && Orderly(x, incoming, op)
    && (Valid(x.conn) && Asserts(x.conn, op) ==> x' == After(x, op) && out == Packets(Apply(x.conn, op).sent))
  }

  // One direction: what x sends and y receives

  /** A closed socket that nobody reopens. */
  ghost predicate Dead(c: Conn) {
    c.state.CLOSED? && c.slog == [] && c.written == c.next && c.rack == c.rnext == c.rread == 0
  }

  /** The segment carries bytes of `w`, the first of which is at position `isn + 1`. */
  ghost predicate Carries(p: Packet, isn: nat, w: seq<byte>) {
    var k := p.seqNum - isn - 1;
    && 0 <= k <= k + |p.payload| <= |w|
    && p.payload == w[k..k + |p.payload|]
  }

  ghost predicate SegmentOk(p: Packet, isn: nat, w: seq<byte>, top: nat) {
    p.payload != [] ==> p.flags == 0 && Carries(p, isn, w) && p.seqNum + |p.payload| <= top
  }

  ghost predicate SenderOk(x: Party, isn: nat) {
    var c := x.conn;
    && Valid(c) && c.high <= x.top
    && if c.state.CLOSED? then Dead(c)
       else
         && CanReceive(c.state) && SendInv(c) && LogIs(c.slog, c.state, x.wrote)
         && Start(c) == isn && c.una > isn && c.next > isn && c.high == x.top
  }

  ghost predicate ReceiverOk(y: Party, w: seq<byte>, isn: nat, top: nat) {
    var c := y.conn;
    && Valid(c) && RecvInv(c)
    && y.read <= w
    && (!c.state.CLOSED? ==>
          && CanReceive(c.state) && RecvData(c)
          && Base(c) == isn + 1 && c.got <= w && c.rack <= top
          && y.read + Unread(c) == c.got)
  }

  ghost predicate AckOk(p: Packet, top: nat) {
    HasAck(p.flags) ==> p.ackNum <= top
  }

  ghost predicate Half(x: Party, y: Party, net: set<Packet>, back: set<Packet>, isn: nat) {
    && SenderOk(x, isn)
    && ReceiverOk(y, x.wrote, isn, x.top)
    && (forall p :: p in net ==> SegmentOk(p, isn, x.wrote, x.top))
    && (forall p :: p in back ==> AckOk(p, x.top))
  }

  // The closed socket

  /** What a socket that carries no data of ours may send. */
  ghost predicate AllBare(sent: seq<Emitted>, top: nat) {
    forall i :: 0 <= i < |sent| ==>
      sent[i].packet.payload == [] && AckOk(sent[i].packet, top)
  }

  lemma DeadReceives(c: Conn, p: Packet, routed: bool)
    requires Valid(c) && RecvInv(c) && Dead(c)
    ensures !Accepts(c, p, routed)
    ensures var r := Receive(c, p, routed); Dead(r.conn) && AllBare(r.sent, 0) && r.conn.high <= c.high
  {
  }

  lemma DeadStays(c: Conn, incoming: set<Packet>, op: Op)
    requires Valid(c) && RecvInv(c) && Dead(c) && Orderly(Party(c, [], [], 0), incoming, op)
    ensures Asserts(c, op)
    ensures Dead(Apply(c, op).conn) && AllBare(Apply(c, op).sent, 0) && Apply(c, op).conn.high <= c.high
    ensures AcceptedBytes(c, op) == [] && Returned(c, op) == []
  {
    match op
    case OpArrive(p, routed) => DeadReceives(c, p, routed);
    case _ =>
  }

  // The open socket

  lemma LiveStep(c: Conn, input: Input, p: Packet, routed: bool)
    requires Valid(c) && CanReceive(c.state)
    requires !input.ON_RECV_FIN? && !input.ON_RECV_FIN_ACK? && !input.ON_CLOSE?
    ensures var r := Step(c, input, Some(p), routed);
      && (r.conn.state.CLOSED? || CanReceive(r.conn.state))
      && (r.sent == [] || r.sent == SendDumb(c, p, RST, routed).sent)
  {
  }

  lemma LiveBeforeData(c: Conn, p: Packet, routed: bool)
    requires Valid(c) && CanReceive(c.state) && !HasFin(p.flags)
    ensures var r := BeforeData(c, p, routed);
      && (r.conn.state.CLOSED? || CanReceive(r.conn.state))
      && AllBare(r.sent, 0)
  {
    var c1 := ProcessAck(UpdateWindow(c, p.window), p);
    LiveStep(if IsControl(p) then AckData(c1, 1) else c1, PacketToInput(p.flags), p, routed);
  }

  lemma LiveRefuses(c: Conn, p: Packet, routed: bool)
    requires Valid(c) && CanReceive(c.state) && !IsValid(c, p.seqNum, |p.payload|)
    ensures var r := Receive(c, p, routed);
      && (r.conn.state.CLOSED? || CanReceive(r.conn.state))
      && AllBare(r.sent, c.rack)
  {
  }

  /** Until a FIN arrives the socket keeps accepting data or is closed, and of its own sends only
      acknowledgements of what it has accepted. */
  lemma LiveReceives(c: Conn, p: Packet, routed: bool)
    requires Valid(c) && RecvInv(c) && RecvData(c) && CanReceive(c.state) && !HasFin(p.flags)
    requires Accepts(c, p, routed) ==> |p.payload| <= SIZE
    ensures var r := Receive(c, p, routed);
      && (r.conn.state.CLOSED? || CanReceive(r.conn.state))
      && AllBare(r.sent, Max(c.rack, r.conn.rack))
  {
    if !IsValid(c, p.seqNum, |p.payload|) {
      LiveRefuses(c, p, routed);
    } else {
      LiveBeforeData(c, p, routed);
      var mid := BeforeData(c, p, routed);
      if Accepts(c, p, routed) {
        assert Receive(c, p, routed).sent == mid.sent + TakeData(mid.conn, p.payload).sent;
      }
    }
  }

  /** A read returns the next of the bytes accepted. */
  lemma ReadDelivers(c: Conn, n: nat)
    requires Valid(c) && RecvInv(c) && RecvData(c) && CanReceive(c.state)
    ensures var (d, r) := Read(c, n);
      && RecvInv(d) && RecvData(d) && d.state == c.state && d.rack == c.rack && d.got == c.got
      && r.Bytes? && Unread(c) == r.data + Unread(d)
  {
    var d := Read(c, n).0;
    OpKeepsReceiving(c, OpRead(n)) by { assert ReadAsserts(c, n); }
    SameHolding(c, d);
    StreamIsUnread(c);
    StreamIsUnread(d);
    if n > 0 {
      ReadTakes(c.rbuf, c.rread, c.rnext, n, GetData(c.rbuf, c.rread, c.rnext, n));
    }
  }

  /** What no operation of an open socket does: move back what was acknowledged or sent, or start over
      from anywhere but the first unacknowledged position. */
  ghost predicate Onward(c: Conn, d: Conn) {
    && (d.state.CLOSED? || CanReceive(d.state))
    && (!d.state.CLOSED? ==> d.una >= c.una && d.high >= c.high && (d.next >= c.next || d.next == d.una))
  }

  lemma ReceiveOnward(c: Conn, p: Packet, routed: bool)
    requires Valid(c) && RecvInv(c) && RecvData(c) && CanReceive(c.state) && !HasFin(p.flags)
    requires Accepts(c, p, routed) ==> |p.payload| <= SIZE
    ensures Onward(c, Receive(c, p, routed).conn)
  {
    LiveReceives(c, p, routed);
    if IsValid(c, p.seqNum, |p.payload|) {
      var c1 := ProcessAck(UpdateWindow(c, p.window), p);
      StepOnSending(if IsControl(p) then AckData(c1, 1) else c1, PacketToInput(p.flags), Some(p), routed);
    }
  }

  lemma LiveOnward(c: Conn, incoming: set<Packet>, op: Op)
    requires Inv(c) && CanReceive(c.state) && Asserts(c, op) && Orderly(Party(c, [], [], 0), incoming, op)
    ensures Onward(c, Apply(c, op).conn)
  {
    match op
    case OpArrive(p, routed) => if !HasRst(p.flags) { ReceiveOnward(c, p, routed); }
    case OpClose => if CanClose(c.state) { StepOnSending(c, ON_CLOSE, None, true); }
    case _ =>
  }

  lemma LiveSends(c: Conn, incoming: set<Packet>, op: Op)
    requires Inv(c) && CanReceive(c.state) && Asserts(c, op) && Orderly(Party(c, [], [], 0), incoming, op)
    requires !op.OpTransmit?
    ensures AllBare(Apply(c, op).sent, Max(c.rack, Apply(c, op).conn.rack))
  {
    match op
    case OpArrive(p, routed) => if !HasRst(p.flags) { LiveReceives(c, p, routed); }
    case _ =>
  }

  /** What an open socket sends of its data, past its SYN: bytes of what the user wrote, or its FIN. */
  lemma LiveTransmits(c: Conn, e: Emitted, w: seq<byte>, isn: nat)
    requires Valid(c) && SendInv(c) && SendAsserts(c) && CanReceive(c.state) && LogIs(c.slog, c.state, w)
    requires Start(c) == isn && c.next > isn && e in Transmit(c).sent
    ensures SegmentOk(e.packet, isn, w, Transmit(c).conn.next) && AckOk(e.packet, 0)
  {
    TransmitFaithful(c, Transmit(c));
    FaithfulIsOk(c, e.packet, Transmit(c).conn.next, w, isn);
  }

  lemma FaithfulIsOk(c: Conn, p: Packet, end: nat, w: seq<byte>, isn: nat)
    requires LogIs(c.slog, c.state, w) && Shape(c.slog, c.state) && CanReceive(c.state)
    requires Faithful(p, c.slog, Start(c)) && p.seqNum > Start(c) == isn && end == p.seqNum + Extent(p)
    ensures SegmentOk(p, isn, w, end) && AckOk(p, 0)
  {
    if p.payload != [] {
      DataOfLog(c, p, w);
    } else {
      FlagOfLog(c, p, w);
    }
  }

  /** Past the SYN the only flag in the log is the FIN. */
  lemma FlagOfLog(c: Conn, p: Packet, w: seq<byte>)
    requires LogIs(c.slog, c.state, w) && Shape(c.slog, c.state) && !c.state.CLOSED? && !c.state.LISTEN?
    requires Faithful(p, c.slog, Start(c)) && p.payload == [] && p.seqNum > Start(c)
    ensures p.flags == FIN
  {
  }

  // Each end moves

  lemma DeadIs(c: Conn)
    requires SendInv(c) && RecvInv(c) && c.state.CLOSED?
    ensures Dead(c)
  {
  }

  /** The sender's invariant of the end after a move, from what is known of its socket. */
  lemma SenderKept(x: Party, isn: nat, op: Op, d: Conn, x': Party)
    requires SenderOk(x, isn) && CanReceive(x.conn.state)
    requires Valid(d) && SendInv(d) && RecvInv(d) && Onward(x.conn, d) && LogChange(x.conn, op, d)
    requires x'.conn == d && x'.wrote == x.wrote + AcceptedBytes(x.conn, op) && x'.top == Max(x.top, d.high)
    ensures SenderOk(x', isn)
  {
    LogStep(x.conn, op, d, x.wrote);
    if d.state.CLOSED? {
      DeadIs(d);
    }
  }

  lemma LiveEmits(x: Party, incoming: set<Packet>, op: Op, isn: nat, r: Outcome, e: Emitted)
    requires Inv(x.conn) && SenderOk(x, isn) && CanReceive(x.conn.state) && Orderly(x, incoming, op)
    requires Asserts(x.conn, op) && r == Apply(x.conn, op) && e in r.sent
    ensures SegmentOk(e.packet, isn, x.wrote, Max(x.top, r.conn.high))
    ensures AckOk(e.packet, Max(x.conn.rack, r.conn.rack))
  {
    if op.OpTransmit? {
      TransmitFaithful(x.conn, r);
      LiveTransmits(x.conn, e, x.wrote, isn);
    } else {
      LiveSends(x.conn, incoming, op);
    }
  }

  lemma SegmentsStayOk(p: Packet, isn: nat, w: seq<byte>, w': seq<byte>, top: nat, top': nat)
    requires SegmentOk(p, isn, w, top) && w <= w' && top <= top'
    ensures SegmentOk(p, isn, w', top')
  {
    if p.payload != [] {
      var k := p.seqNum - isn - 1;
      SliceOfPrefix(w, w', k, k + |p.payload|);
    }
  }

  lemma LiveAllowed(x: Party, incoming: set<Packet>, op: Op, isn: nat)
    requires SenderOk(x, isn) && CanReceive(x.conn.state) && Orderly(x, incoming, op)
    requires forall p :: p in incoming ==> AckOk(p, x.top)
    ensures Allowed(x.conn, op)
  {
  }

  lemma LiveSenderMoves(x: Party, incoming: set<Packet>, op: Op, isn: nat)
    requires Inv(x.conn) && SenderOk(x, isn) && CanReceive(x.conn.state) && Orderly(x, incoming, op)
    requires Allowed(x.conn, op)
    ensures Asserts(x.conn, op)
    ensures SenderOk(After(x, op), isn)
  {
    OpKeepsInv(x.conn, op);
    OpOnLog(x.conn, op);
    LiveOnward(x.conn, incoming, op);
    SenderKept(x, isn, op, Apply(x.conn, op).conn, After(x, op));
  }

  /** The payload an operation adds to the bytes accepted. */
  ghost function Gained(c: Conn, op: Op): seq<byte>
    requires Valid(c)
  {
    if op.OpArrive? && !HasRst(op.packet.flags) && Accepts(c, op.packet, op.routed) then op.packet.payload else []
  }

  /** What an operation makes of the bytes accepted and of those among them still unread. */
  ghost predicate Flows(c: Conn, d: Conn, gained: seq<byte>, returned: seq<byte>)
    requires RecvInv(c) && RecvData(c) && CanReceive(c.state)
  {
    RecvInv(d) && RecvData(d) && CanReceive(d.state) ==>
      && Base(d) == Base(c)
      && d.got == c.got + gained
      && Unread(c) + gained == returned + Unread(d)
  }

  /** Flows, when nothing is read. */
  lemma GainFlows(c: Conn, d: Conn, gained: seq<byte>)
    requires RecvInv(c) && RecvData(c) && CanReceive(c.state)
    requires CanReceive(d.state) ==> Base(d) == Base(c) && d.got == c.got + gained && d.rread == c.rread
    ensures Flows(c, d, gained, [])
  {
  }

  /** Our own sending and closing, and the clocks, leave the bytes accepted alone. */
  lemma QuietOps(c: Conn, op: Op)
    requires Inv(c) && CanReceive(c.state) && Asserts(c, op)
    requires op.OpClose? || op.OpWatchdog? || op.OpWrite? || op.OpTransmit?
    ensures var d := Apply(c, op).conn; DataOf(d) == DataOf(c) && d.rack == c.rack && d.rread == c.rread
  {
    match op
    case OpClose => CloseKeepsData(c);
    case OpWatchdog(t, r, k) => WatchdogKeepsData(c, t, r, k);
    case _ => SendersTouchNothing(c, op);
  }

  /** What an arrival adds to the bytes accepted. */
  lemma ArrivalGains(c: Conn, op: Op, d: Conn)
    requires Inv(c) && CanReceive(c.state) && op.OpArrive? && Asserts(c, op) && d == Apply(c, op).conn
    ensures CanReceive(d.state) ==> Base(d) == Base(c) && d.got == c.got + Gained(c, op) && d.rread == c.rread
  {
    if !HasRst(op.packet.flags) {
      ReceiveKeepsData(c, op.packet, op.routed);
    }
  }

  lemma LiveFlows(c: Conn, incoming: set<Packet>, op: Op, d: Conn)
    requires Inv(c) && CanReceive(c.state) && Asserts(c, op) && Orderly(Party(c, [], [], 0), incoming, op)
    requires d == Apply(c, op).conn
    ensures Flows(c, d, Gained(c, op), Returned(c, op))
  {
    if op.OpArrive? {
      ArrivalGains(c, op, d);
      GainFlows(c, d, Gained(c, op));
    } else if op.OpRead? {
      ReadDelivers(c, op.n);
    } else {
      QuietOps(c, op);
      GainFlows(c, d, []);
    }
  }

  lemma FlowJoins(read: seq<byte>, returned: seq<byte>, unread': seq<byte>, unread: seq<byte>, gained: seq<byte>)
    requires unread + gained == returned + unread'
    ensures (read + returned) + unread' == (read + unread) + gained
  {
    assert (read + returned) + unread' == read + (returned + unread');
    assert (read + unread) + gained == read + (unread + gained);
  }

  lemma ReceiverStaysOpen(y: Party, w: seq<byte>, isn: nat, top: nat, d: Conn, y': Party, gained: seq<byte>,
                          returned: seq<byte>)
    requires ReceiverOk(y, w, isn, top) && CanReceive(y.conn.state)
    requires Valid(d) && RecvInv(d) && RecvData(d) && CanReceive(d.state)
    requires Flows(y.conn, d, gained, returned)
    requires y.conn.got + gained <= w && y.conn.rack + |gained| <= top
    requires y.read + returned <= w
    requires y'.conn == d && y'.read == y.read + returned
    ensures ReceiverOk(y', w, isn, top)
  {
    FlowJoins(y.read, returned, Unread(d), Unread(y.conn), gained);
  }

  lemma ReceiverCloses(w: seq<byte>, isn: nat, top: nat, d: Conn, y': Party)
    requires Valid(d) && RecvInv(d) && d.state.CLOSED? && y'.conn == d && y'.read <= w
    ensures ReceiverOk(y', w, isn, top)
  {
  }

  /** The receiver's invariant of the end after a move, from what is known of its socket: what it gains
      must be the next of the sender's bytes. */
  lemma ReceiverKept(y: Party, w: seq<byte>, isn: nat, top: nat, d: Conn, y': Party, gained: seq<byte>,
                     returned: seq<byte>)
    requires ReceiverOk(y, w, isn, top) && CanReceive(y.conn.state)
    requires Valid(d) && RecvInv(d) && RecvData(d) && (d.state.CLOSED? || CanReceive(d.state))
    requires Flows(y.conn, d, gained, returned)
    requires y.conn.got + gained <= w && y.conn.rack + |gained| <= top
    requires y.read + returned <= y.conn.got
    requires y'.conn == d && y'.read == y.read + returned
    ensures ReceiverOk(y', w, isn, top)
  {
    assert y.read + returned <= w by {
      PrefixTrans(y.read + returned, y.conn.got, w);
    }
    if d.state.CLOSED? {
      ReceiverCloses(w, isn, top, d, y');
    } else {
      ReceiverStaysOpen(y, w, isn, top, d, y', gained, returned);
    }
  }

  lemma PrefixTrans(a: seq<byte>, b: seq<byte>, c: seq<byte>)
    requires a <= b <= c
    ensures a <= c
  {
  }

  /** A segment accepted where the stream stands continues it. */
  lemma GainContinues(y: Party, w: seq<byte>, isn: nat, top: nat, incoming: set<Packet>, op: Op)
    requires ReceiverOk(y, w, isn, top) && CanReceive(y.conn.state) && Orderly(y, incoming, op)
    requires forall p :: p in incoming ==> SegmentOk(p, isn, w, top)
    ensures y.conn.got + Gained(y.conn, op) <= w
    ensures y.conn.rack + |Gained(y.conn, op)| <= top
  {
    if Gained(y.conn, op) != [] {
      var p := op.packet;
      assert SegmentOk(p, isn, w, top);
      assert p.seqNum - isn - 1 == |y.conn.got|;
      assert w[..|y.conn.got|] == y.conn.got;
      assert w[..|y.conn.got| + |p.payload|] == y.conn.got + p.payload;
    } else {
      assert y.conn.got + [] == y.conn.got;
    }
  }

  lemma ReturnedWasUnread(c: Conn, op: Op)
    requires Valid(c) && RecvInv(c) && RecvData(c) && CanReceive(c.state)
    ensures Returned(c, op) <= Unread(c)
  {
    if op.OpRead? {
      ReadDelivers(c, op.n);
    }
  }

  lemma PrefixExtends(read: seq<byte>, returned: seq<byte>, unread: seq<byte>, got: seq<byte>)
    requires returned <= unread && read + unread == got
    ensures read + returned <= got
  {
  }

  /** What the receiver's socket still is after a move. */
  lemma LiveStays(c: Conn, incoming: set<Packet>, op: Op, d: Conn)
    requires Inv(c) && CanReceive(c.state) && Orderly(Party(c, [], [], 0), incoming, op)
    requires Allowed(c, op) && Asserts(c, op) && d == Apply(c, op).conn
    ensures Valid(d) && RecvInv(d) && RecvData(d) && (d.state.CLOSED? || CanReceive(d.state))
  {
    OpKeepsInv(c, op);
    LiveOnward(c, incoming, op);
  }

  lemma LiveReceiverMoves(y: Party, w: seq<byte>, isn: nat, top: nat, incoming: set<Packet>, op: Op, y': Party)
    requires Inv(y.conn) && ReceiverOk(y, w, isn, top) && CanReceive(y.conn.state) && Orderly(y, incoming, op)
    requires Allowed(y.conn, op) && Asserts(y.conn, op) && y' == After(y, op)
    requires forall p :: p in incoming ==> SegmentOk(p, isn, w, top)
    ensures ReceiverOk(y', w, isn, top)
  {
    var d, gained, returned := y'.conn, Gained(y.conn, op), Returned(y.conn, op);
    LiveStays(y.conn, incoming, op, d);
    LiveFlows(y.conn, incoming, op, d);
    GainContinues(y, w, isn, top, incoming, op);
    ReturnedWasUnread(y.conn, op);
    PrefixExtends(y.read, returned, Unread(y.conn), y.conn.got);
    ReceiverKept(y, w, isn, top, d, y', gained, returned);
  }

  // The system moves

  /** Either end moves: what is known of both directions stays known, and no assertion fires. */
  lemma EndMoves(x: Party, y: Party, toX: set<Packet>, toY: set<Packet>, isnX: nat, isnY: nat,
                 op: Op, x': Party, out: set<Packet>)
    requires Half(x, y, toY, toX, isnX) && Half(y, x, toX, toY, isnY)
    requires Moves(x, toX, op, x', out)
    ensures Valid(x.conn) && Asserts(x.conn, op) && x' == After(x, op)
    ensures Half(x', y, toY + out, toX, isnX) && Half(y, x', toX, toY + out, isnY)
  {
    EndOfMoves(x, y, toX, isnX, isnY, op);
    var r := Apply(x.conn, op);
    forall p | p in toY + out
      ensures SegmentOk(p, isnX, x'.wrote, x'.top) && AckOk(p, y.top)
    {
      if p in out {
        var e :| e in r.sent && e.packet == p;
        EndEmits(x, y, toX, isnX, isnY, op, r, e);
        SegmentsStayOk(p, isnX, x.wrote, x'.wrote, x'.top, x'.top);
      } else {
        SegmentsStayOk(p, isnX, x.wrote, x'.wrote, x.top, x'.top);
      }
    }
    ReceiverWaits(y, x.wrote, x'.wrote, isnX, x.top, x'.top);
  }

  /** The peer, meanwhile, is where it was. */
  lemma ReceiverWaits(y: Party, w: seq<byte>, w': seq<byte>, isn: nat, top: nat, top': nat)
    requires ReceiverOk(y, w, isn, top) && w <= w' && top <= top'
    ensures ReceiverOk(y, w', isn, top')
  {
  }

  lemma EndOfMoves(x: Party, y: Party, toX: set<Packet>, isnX: nat, isnY: nat, op: Op)
    requires SenderOk(x, isnX) && ReceiverOk(x, y.wrote, isnY, y.top) && Orderly(x, toX, op)
    requires forall p :: p in toX ==> AckOk(p, x.top) && SegmentOk(p, isnY, y.wrote, y.top)
    ensures Asserts(x.conn, op)
    ensures SenderOk(After(x, op), isnX)
    ensures ReceiverOk(After(x, op), y.wrote, isnY, y.top)
  {
    if x.conn.state.CLOSED? {
      DeadMoves(x, toX, isnX, isnY, y.wrote, y.top, op);
    } else {
      LiveAllowed(x, toX, op, isnX);
      LiveSenderMoves(x, toX, op, isnX);
      LiveReceiverMoves(x, y.wrote, isnY, y.top, toX, op, After(x, op));
    }
  }

  lemma DeadMoves(x: Party, toX: set<Packet>, isnX: nat, isnY: nat, w: seq<byte>, top: nat, op: Op)
    requires SenderOk(x, isnX) && ReceiverOk(x, w, isnY, top) && x.conn.state.CLOSED? && Orderly(x, toX, op)
    ensures Asserts(x.conn, op)
    ensures SenderOk(After(x, op), isnX) && ReceiverOk(After(x, op), w, isnY, top)
  {
    DeadStays(x.conn, toX, op);
    OpKeepsReceiving(x.conn, op);
  }

  lemma EndEmits(x: Party, y: Party, toX: set<Packet>, isnX: nat, isnY: nat, op: Op, r: Outcome, e: Emitted)
    requires SenderOk(x, isnX) && ReceiverOk(x, y.wrote, isnY, y.top) && Orderly(x, toX, op)
    requires Asserts(x.conn, op) && r == Apply(x.conn, op) && e in r.sent
    requires ReceiverOk(After(x, op), y.wrote, isnY, y.top)
    ensures SegmentOk(e.packet, isnX, x.wrote, Max(x.top, r.conn.high))
    ensures AckOk(e.packet, y.top)
  {
    if x.conn.state.CLOSED? {
      DeadStays(x.conn, toX, op);
    } else {
      LiveEmits(x, toX, op, isnX, r, e);
    }
  }

  /** One step of the system: end A (`atA`) or end B does `op`. */
  ghost predicate SystemNext(s: System, atA: bool, op: Op, s': System) {
    && s'.isnA == s.isnA && s'.isnB == s.isnB
    && exists out: set<Packet> ::
         if atA then Moves(s.a, s.toA, op, s'.a, out) && s'.b == s.b && s'.toA == s.toA && s'.toB == s.toB + out
         else Moves(s.b, s.toB, op, s'.b, out) && s'.a == s.a && s'.toB == s.toB && s'.toA == s.toA + out
  }

  ghost predicate SystemInv(s: System) {
    && Half(s.a, s.b, s.toB, s.toA, s.isnA)
    && Half(s.b, s.a, s.toA, s.toB, s.isnB)
  }

  lemma SystemStep(s: System, atA: bool, op: Op, s': System)
    requires SystemInv(s) && SystemNext(s, atA, op, s')
    ensures SystemInv(s')
    ensures var x := if atA then s.a else s.b; Valid(x.conn) && Asserts(x.conn, op)
  {
    if atA {
      var out: set<Packet> :| Moves(s.a, s.toA, op, s'.a, out) && s'.toB == s.toB + out;
      EndMoves(s.a, s.b, s.toA, s.toB, s.isnA, s.isnB, op, s'.a, out);
    } else {
      var out: set<Packet> :| Moves(s.b, s.toB, op, s'.b, out) && s'.toA == s.toA + out;
      EndMoves(s.b, s.a, s.toB, s.toA, s.isnB, s.isnA, op, s'.b, out);
    }
  }

  ghost predicate SystemRun(ss: seq<System>, sides: seq<bool>, ops: seq<Op>) {
    && |ss| == |ops| + 1 == |sides| + 1
    && Starting(ss[0])
    && forall i :: 0 <= i < |ops| ==> SystemStepAt(ss, sides, ops, i)
  }

  ghost predicate SystemStepAt(ss: seq<System>, sides: seq<bool>, ops: seq<Op>, i: nat)
    requires |ss| == |ops| + 1 == |sides| + 1 && i < |ops|
  {
    SystemNext(ss[i], sides[i], ops[i], ss[i + 1])
  }

  lemma EstablishedOk(x: Party, isn: nat, peerIsn: nat)
    requires JustEstablished(x.conn, isn, peerIsn) && x.wrote == x.read == [] && x.top == isn + 1
    ensures SenderOk(x, isn) && ReceiverOk(x, [], peerIsn, peerIsn + 1)
  {
    var c := x.conn;
    var f :| HasSyn(f) && c.slog == [Cell(FLAG, f)] && c.sbuf == Put(Blank(), isn, Cell(FLAG, f));
    HoldsPut(Blank(), [], isn, Cell(FLAG, f));
    assert [] + [Cell(FLAG, f)] == c.slog;
    assert SendInv(c);
    OpenedData(c);
  }

  lemma {:induction false} SystemStaysInv(ss: seq<System>, sides: seq<bool>, ops: seq<Op>, i: nat)
    requires SystemRun(ss, sides, ops) && i <= |ops|
    ensures SystemInv(ss[i])
  {
    if i == 0 {
      var s := ss[0];
      EstablishedOk(s.a, s.isnA, s.isnB);
      EstablishedOk(s.b, s.isnB, s.isnA);
    } else {
      SystemStaysInv(ss, sides, ops, i - 1);
      assert SystemStepAt(ss, sides, ops, i - 1);
      SystemStep(ss[i - 1], sides[i - 1], ops[i - 1], ss[i]);
    }
  }

  /** Delivery, both ways at once. In every run from ESTAB, over a network that drops, duplicates, delays
      and reorders, with the clocks firing at will, in which every accepted segment is the next expected
      and no FIN has arrived: what has been read at either end is a prefix of what was written at the
      other, no acknowledgement anywhere exceeds what was sent, and no assertion fires. */
  lemma BytesDeliveredInOrder(ss: seq<System>, sides: seq<bool>, ops: seq<Op>, i: nat)
    requires SystemRun(ss, sides, ops) && i <= |ops|
    ensures ss[i].b.read <= ss[i].a.wrote
    ensures ss[i].a.read <= ss[i].b.wrote
    ensures forall p :: p in ss[i].toA && HasAck(p.flags) ==> p.ackNum <= ss[i].a.top
    ensures forall p :: p in ss[i].toB && HasAck(p.flags) ==> p.ackNum <= ss[i].b.top
    ensures i < |ops| ==>
      var x := if sides[i] then ss[i].a else ss[i].b;
      Valid(x.conn) && Asserts(x.conn, ops[i])
  {
    SystemStaysInv(ss, sides, ops, i);
    forall p | p in ss[i].toA
      ensures HasAck(p.flags) ==> p.ackNum <= ss[i].a.top
    {
      assert AckOk(p, ss[i].a.top);
    }
    forall p | p in ss[i].toB
      ensures HasAck(p.flags) ==> p.ackNum <= ss[i].b.top
    {
      assert AckOk(p, ss[i].b.top);
    }
    if i < |ops| {
      assert SystemStepAt(ss, sides, ops, i);
      SystemStep(ss[i], sides[i], ops[i], ss[i + 1]);
    }
  }

  // Why the order of arrival must be assumed

  /** An accepted segment lands where the stream stands, wherever it belongs. Whatever the sender's stream
      may be, among those that agree with all that has been seen of it, the bytes accepted are a prefix of
      it afterwards if and only if the segment was the next one expected (`isNextSeqNum`, which
      `do_recv_tcp` never calls). */
  lemma InOrderIffNext(c: Conn, p: Packet, routed: bool, isn: nat, w: seq<byte>)
    requires RecvInv(c) && RecvData(c) && CanReceive(c.state) && Base(c) == isn + 1
    requires Accepts(c, p, routed) && |p.payload| <= SIZE
    requires c.got <= w && Carries(p, isn, w)
    ensures (forall v :: c.got <= v && Carries(p, isn, v) ==> Receive(c, p, routed).conn.got <= v)
            <==> p.seqNum == c.rack
  {
    ReceiveKeepsData(c, p, routed);
    AcceptingKeepsOpen(c, p, routed);
    ContinuesIff(c.got, p, isn, w, Receive(c, p, routed).conn.got);
  }

  lemma ContinuesIff(got: seq<byte>, p: Packet, isn: nat, w: seq<byte>, got': seq<byte>)
    requires p.payload != [] && got <= w && Carries(p, isn, w) && got' == got + p.payload
    ensures (forall v :: got <= v && Carries(p, isn, v) ==> got' <= v) <==> p.seqNum == isn + 1 + |got|
  {
    var r, o, n := |got|, p.seqNum - isn - 1, |p.payload|;
    if o == r {
      forall v | got <= v && Carries(p, isn, v)
        ensures got' <= v
      {
        assert v[..r] == got && v[..r + n] == got + p.payload;
      }
    } else {
      var v := OtherStream(got, p.payload, o, w);
      assert got <= v && Carries(p, isn, v) && !(got' <= v);
    }
  }

  lemma AcceptingKeepsOpen(c: Conn, p: Packet, routed: bool)
    requires Valid(c) && Accepts(c, p, routed) && |p.payload| <= SIZE
    ensures CanReceive(Receive(c, p, routed).conn.state)
  {
  }

  function AnotherByte(x: byte): (y: byte)
    ensures y != x
  {
    if x == 0 then 1 else 0
  }

  /** A stream that agrees with `got` at its start and with `payload` at `o`, and yet does not continue
      `got` with `payload`. */
  lemma OtherStream(got: seq<byte>, payload: seq<byte>, o: nat, w: seq<byte>) returns (v: seq<byte>)
    requires payload != [] && o != |got| && got <= w
    requires o + |payload| <= |w| && payload == w[o..o + |payload|]
    ensures got <= v && o + |payload| <= |v| && payload == v[o..o + |payload|]
    ensures !(got + payload <= v)
  {
    var r, n := |got|, |payload|;
    if o > r {
      // the byte at r is free: it is before the segment and after what was accepted
      v := w[r := AnotherByte(payload[0])];
      assert (got + payload)[r] != v[r];
    } else {
      // the byte after both is free
      var m := Max(r, o + n);
      v := w[..m] + [AnotherByte(payload[m - r])];
      assert (got + payload)[m] != v[m];
    }
  }
}
