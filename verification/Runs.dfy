/** Whole runs of one connection, from a new or a cloned socket, through any number of resets and
    reconnections, against an arbitrary network that never acknowledges what was not sent. */
module Runs {
  import opened Common
  import opened RingBuffer
  import opened Machine
  import opened Connection
  import opened Sending
  import opened Receiving
  import opened Arrival

  /** What the run asks of the environment at each step: that a user writes only when there is room, and
      that acknowledgements cover only what was sent. */
  ghost predicate Allowed(c: Conn, op: Op) {
    match op
    case OpWrite(_) => CanSend(c.state) ==> Room(c) > 0
    case OpArrive(p, _) => !HasRst(p.flags) ==> AckCovered(c, p)
    case _ => true
  }

  /** One step. After an assertion has failed anything may follow, so that assertions never fail is not
      assumed here. */
  ghost predicate Next(c: Conn, op: Op, d: Conn) {
    Allowed(c, op) && (Valid(c) && Asserts(c, op) ==> d == Apply(c, op).conn)
  }

  /** A socket as it starts life. */
  ghost predicate Starts(c: Conn) {
    c == NewSocket() || exists isn, incoming :: c == Clone(isn, incoming)
  }

  ghost predicate NextAt(cs: seq<Conn>, ops: seq<Op>, i: nat)
    requires |cs| == |ops| + 1 && i < |ops|
  {
    Next(cs[i], ops[i], cs[i + 1])
  }

  /** The states and the operations of a run. */
  ghost predicate Run(cs: seq<Conn>, ops: seq<Op>) {
    && |cs| == |ops| + 1
    && Starts(cs[0])
    && forall i :: 0 <= i < |ops| ==> NextAt(cs, ops, i)
  }

  ghost predicate Inv(c: Conn) {
    Valid(c) && SendInv(c) && RecvInv(c) && RecvData(c)
  }

  /** `v_write` passes its assertions exactly when it may not write at all or has room: with a full
      window the program aborts. */
  lemma WriteSafeIffRoom(c: Conn, data: seq<byte>)
    requires SendInv(c) && RecvInv(c)
    ensures WriteAsserts(c, data) <==> (CanSend(c.state) ==> Room(c) > 0)
  {
  }

  /** That an acknowledgement covers only what was sent is what the sending half needs: an acceptable one
      keeps its invariant if and only if it does. */
  lemma AckSafeIffCovered(c: Conn, p: Packet, routed: bool)
    requires Inv(c) && c.state.ESTAB? && p.flags == ACK && IsValid(c, p.seqNum, |p.payload|)
    ensures Accepts(c, p, routed) ==> |p.payload| <= SIZE
    ensures SendInv(Receive(c, p, routed).conn) <==> p.ackNum <= c.high
  {
    ReceiveKeepsReceiving(c, p, routed);
    if p.ackNum <= c.high {
      ReceiveKeepsSending(c, p, routed);
    } else {
      PureAckTaken(c, p, routed, BeforeData(c, p, routed).conn);
    }
  }

  lemma PureAckTaken(c: Conn, p: Packet, routed: bool, mid: Conn)
    requires Valid(c) && c.state.ESTAB? && p.flags == ACK && IsValid(c, p.seqNum, |p.payload|)
    requires (Accepts(c, p, routed) ==> |p.payload| <= SIZE) && mid == BeforeData(c, p, routed).conn
    ensures var r := Receive(c, p, routed).conn; r.una == Max(c.una, p.ackNum) && r.high == c.high
  {
    assert mid.una == Max(c.una, p.ackNum) && mid.high == c.high;
  }

  lemma NoAssertionFires(c: Conn, op: Op)
    requires Inv(c) && Allowed(c, op)
    ensures Asserts(c, op)
  {
    match op
    case OpWrite(data) => WriteSafeIffRoom(c, data);
    case OpTransmit => TransmitAsserts(c);
    case OpArrive(p, routed) =>
      if !HasRst(p.flags) {
        ReceiveKeepsReceiving(c, p, routed);
      }
    case _ =>
  }

  lemma OpKeepsSending(c: Conn, op: Op)
    requires Inv(c) && Allowed(c, op) && Asserts(c, op)
    ensures SendInv(Apply(c, op).conn)
  {
    match op
    case OpConnect(isn) => ConnectKeepsSending(c, isn);
    case OpListen => if CanListen(c.state) { StepKeepsSending(c, ON_PASSIVE_OPEN, None, true); }
    case OpWrite(data) => WriteKeepsSending(c, data);
    case OpRead(n) => SameSending(c, Apply(c, op).conn);
    case OpClose => if CanClose(c.state) { StepKeepsSending(c, ON_CLOSE, None, true); }
    case OpTransmit => TransmitFaithful(c, Transmit(c));
    case OpArrive(p, routed) => if !HasRst(p.flags) { ReceiveKeepsSending(c, p, routed); }
    case OpWatchdog(t, r, k) => WatchdogKeepsSending(c, t, r, k);
  }

  lemma OpKeepsInv(c: Conn, op: Op)
    requires Inv(c) && Allowed(c, op)
    ensures Asserts(c, op)
    ensures Inv(Apply(c, op).conn)
  {
    NoAssertionFires(c, op);
    OpKeepsSending(c, op);
    OpKeepsReceiving(c, op);
    OpKeepsData(c, op);
  }

  lemma StartsKeepInv(c: Conn)
    requires Starts(c)
    ensures Inv(c)
  {
    assert RecvData(c) && SendInv(c);
  }

  lemma NextKeepsInv(c: Conn, op: Op, d: Conn)
    requires Inv(c) && Next(c, op, d)
    ensures Asserts(c, op) && Inv(d)
  {
    OpKeepsInv(c, op);
  }

  /** In every run every state satisfies all the invariants. */
  lemma {:induction false} RunKeepsInv(cs: seq<Conn>, ops: seq<Op>, i: nat)
    requires Run(cs, ops) && i <= |ops|
    ensures Inv(cs[i])
  {
    if i == 0 {
      StartsKeepInv(cs[0]);
    } else {
      RunKeepsInv(cs, ops, i - 1);
      assert NextAt(cs, ops, i - 1);
      NextKeepsInv(cs[i - 1], ops[i - 1], cs[i]);
    }
  }

  /** In every run no assertion of the source ever fires. */
  lemma RunIsSafe(cs: seq<Conn>, ops: seq<Op>, i: nat)
    requires Run(cs, ops) && i < |ops|
    ensures Inv(cs[i]) && Allowed(cs[i], ops[i])
    ensures Asserts(cs[i], ops[i]) && cs[i + 1] == Apply(cs[i], ops[i]).conn
  {
    RunKeepsInv(cs, ops, i);
    assert NextAt(cs, ops, i);
    NextKeepsInv(cs[i], ops[i], cs[i + 1]);
  }

  /** Capacity: the distance between the pointers in every state of every run. A cell still to be sent,
      or to be sent again, is never a whole buffer behind the next cell to be written. */
  lemma Capacity(cs: seq<Conn>, ops: seq<Op>, i: nat)
    requires Run(cs, ops) && i <= |ops|
    ensures var c := cs[i];
      && c.una <= c.high <= c.written
      && c.next <= c.high <= c.next + WINDOW + 1
      && c.written - c.next <= 2 * WINDOW + 1 < SIZE
  {
    RunKeepsInv(cs, ops, i);
  }

  // What the user wrote

  function AcceptedBytes(c: Conn, op: Op): seq<byte> {
    if op.OpWrite? && 0 <= Taken(c, op.data) <= |op.data| then op.data[..Taken(c, op.data)] else []
  }

  /** The bytes `v_write` has accepted since the socket was last closed. */
  ghost function Wrote(cs: seq<Conn>, ops: seq<Op>, i: nat): seq<byte>
    requires |cs| == |ops| + 1 && i <= |ops|
  {
    if i == 0 || cs[i].state.CLOSED? then []
    else Wrote(cs, ops, i - 1) + AcceptedBytes(cs[i - 1], ops[i - 1])
  }

  /** The log is one SYN-bearing flag, the bytes `w`, and a FIN once we have closed. */
  ghost predicate LogIs(log: seq<Cell>, s: State, w: seq<byte>) {
    if s.CLOSED? || s.LISTEN? then log == [] && w == []
    else
      && |log| == 1 + |w| + FinBit(s)
      && (forall k :: 0 <= k < |w| ==> log[1 + k] == Cell(DATA, w[k]))
  }

  /** What an operation can make of the log: a step of the machine queues at most one flag, `v_write` the
      bytes it takes, and nothing else anything. */
  ghost predicate LogChange(c: Conn, op: Op, r: Conn) {
    || r.state.CLOSED?
    || (op.OpWrite? && r.state == c.state && r.slog == c.slog + DataCells(AcceptedBytes(c, op))
        && Start(r) == Start(c))
    || (!op.OpWrite? && r.slog == c.slog && (c.slog != [] ==> Start(r) == Start(c)))
    || (!op.OpWrite? && (c.slog == [] || (FinQueued(r.state) && !FinQueued(c.state)))
        && |r.slog| == |c.slog| + 1 && r.slog[..|c.slog|] == c.slog
        && (c.slog != [] ==> Start(r) == Start(c)))
  }

  lemma ConnectOnLog(c: Conn, isn: nat, r: Conn)
    requires Inv(c) && r == Connect(c, isn).conn
    ensures LogChange(c, OpConnect(isn), r)
  {
    if CanConnect(c.state) {
      StepOnSending(c.(una := isn, next := isn, written := isn, high := isn), ON_ACTIVE_OPEN, None, true);
    }
  }

  lemma ListenOnLog(c: Conn, r: Conn)
    requires Inv(c) && r == Listen(c).conn
    ensures LogChange(c, OpListen, r)
  {
    if CanListen(c.state) {
      StepOnSending(c, ON_PASSIVE_OPEN, None, true);
    }
  }

  lemma CloseOnLog(c: Conn, r: Conn)
    requires Inv(c) && r == Close(c).conn
    ensures LogChange(c, OpClose, r)
  {
    if CanClose(c.state) {
      StepOnSending(c, ON_CLOSE, None, true);
    }
  }

  lemma WriteOnLog(c: Conn, data: seq<byte>, r: Conn)
    requires Inv(c) && WriteAsserts(c, data) && r == Write(c, data)
    ensures LogChange(c, OpWrite(data), r)
  {
    if !CanSend(c.state) {
      assert c.slog + DataCells([]) == c.slog;
    }
  }

  lemma ReadOnLog(c: Conn, n: nat, r: Conn)
    requires Inv(c) && ReadAsserts(c, n) && r == Read(c, n).0
    ensures LogChange(c, OpRead(n), r)
  {
  }

  lemma ArriveOnLog(c: Conn, p: Packet, routed: bool, r: Conn)
    requires Inv(c) && (!HasRst(p.flags) ==> AckCovered(c, p) && (Accepts(c, p, routed) ==> |p.payload| <= SIZE))
    requires r == Arrive(c, p, routed).conn
    ensures LogChange(c, OpArrive(p, routed), r)
  {
    if !HasRst(p.flags) {
      ReceiveOnLog(c, p, routed);
    }
  }

  lemma OpOnLog(c: Conn, op: Op)
    requires Inv(c) && Allowed(c, op) && Asserts(c, op)
    ensures LogChange(c, op, Apply(c, op).conn)
  {
    match op
    case OpConnect(isn) => ConnectOnLog(c, isn, Connect(c, isn).conn);
    case OpListen => ListenOnLog(c, Listen(c).conn);
    case OpClose => CloseOnLog(c, Close(c).conn);
    case OpArrive(p, routed) => ArriveOnLog(c, p, routed, Arrive(c, p, routed).conn);
    case OpWatchdog(t, r, k) => WatchdogOnLog(c, t, r, k);
    case OpTransmit => TransmitOnLog(c);
    case OpWrite(data) => WriteOnLog(c, data, Write(c, data));
    case OpRead(n) => ReadOnLog(c, n, Read(c, n).0);
  }

  lemma TransmitOnLog(c: Conn)
    requires Valid(c) && SendAsserts(c)
    ensures var r := Transmit(c).conn; r.slog == c.slog && r.written == c.written && r.state == c.state
  {
  }

  lemma WatchdogOnLog(c: Conn, timeWait: bool, retransmit: bool, connecting: bool)
    requires Valid(c)
    ensures var r := Watchdog(c, timeWait, retransmit, connecting).conn;
      r.state.CLOSED? || (r.slog == c.slog && r.written == c.written && r.state == c.state)
  {
  }

  /** What a packet can make of the log. */
  ghost predicate LogAfterPacket(c: Conn, r: Conn) {
    || r.state.CLOSED?
    || (r.slog == c.slog && r.written == c.written)
    || (c.slog == [] && |r.slog| == 1)
  }

  lemma RefusalOnLog(c: Conn, p: Packet, routed: bool)
    requires Valid(c) && !IsValid(c, p.seqNum, |p.payload|)
    ensures LogAfterPacket(c, Receive(c, p, routed).conn)
  {
  }

  lemma AcceptableOnLog(c: Conn, p: Packet, routed: bool)
    requires Inv(c)
    ensures LogAfterPacket(c, BeforeData(c, p, routed).conn)
  {
    var c1 := ProcessAck(UpdateWindow(c, p.window), p);
    var c2 := if IsControl(p) then AckData(c1, 1) else c1;
    StepOnSending(c2, PacketToInput(p.flags), Some(p), routed);
    if Lookup(c.state, PacketToInput(p.flags)).Some? {
      QueuedOnArrival(c.state, p.flags);
    }
  }

  lemma ReceiveOnLog(c: Conn, p: Packet, routed: bool)
    requires Inv(c) && (Accepts(c, p, routed) ==> |p.payload| <= SIZE)
    ensures LogAfterPacket(c, Receive(c, p, routed).conn)
  {
    if IsValid(c, p.seqNum, |p.payload|) {
      AcceptableOnLog(c, p, routed);
      var mid := BeforeData(c, p, routed).conn;
      if Accepts(c, p, routed) {
        assert Receive(c, p, routed).conn == TakeData(mid, p.payload).conn;
      }
    } else {
      RefusalOnLog(c, p, routed);
    }
  }

  /** The only flag a packet makes us queue is the answer to a SYN in LISTEN. */
  lemma QueuedOnArrival(s: State, flags: byte)
    requires Lookup(s, PacketToInput(flags)).Some?
    ensures Queues(Lookup(s, PacketToInput(flags)).value.action) ==> s.LISTEN?
  {
  }

  lemma LogOfWrite(log: seq<Cell>, s: State, w: seq<byte>, data: seq<byte>, log': seq<Cell>)
    requires LogIs(log, s, w) && !s.CLOSED? && !s.LISTEN? && FinBit(s) == 0 && log' == log + DataCells(data)
    ensures LogIs(log', s, w + data)
  {
    forall k | 0 <= k < |w + data|
      ensures log'[1 + k] == Cell(DATA, (w + data)[k])
    {
      if k >= |w| {
        assert log'[1 + k] == DataCells(data)[k - |w|];
      }
    }
  }

  /** So an operation extends the bytes of the log by the bytes the user wrote with it. */
  lemma LogStep(c: Conn, op: Op, r: Conn, w: seq<byte>)
    requires Shape(c.slog, c.state) && Shape(r.slog, r.state)
    requires LogChange(c, op, r) && LogIs(c.slog, c.state, w)
    ensures LogIs(r.slog, r.state, if r.state.CLOSED? then [] else w + AcceptedBytes(c, op))
  {
    if r.state.CLOSED? {
    } else if op.OpWrite? {
      if AcceptedBytes(c, op) == [] {
        assert w + [] == w && c.slog + DataCells([]) == c.slog;
      } else {
        LogOfWrite(c.slog, c.state, w, AcceptedBytes(c, op), r.slog);
      }
    } else {
      assert w + AcceptedBytes(c, op) == w;
      LogOfOther(c, op, r, w);
    }
  }

  lemma LogOfOther(c: Conn, op: Op, r: Conn, w: seq<byte>)
    requires Shape(c.slog, c.state) && Shape(r.slog, r.state) && !r.state.CLOSED? && !op.OpWrite?
    requires LogChange(c, op, r) && LogIs(c.slog, c.state, w)
    ensures LogIs(r.slog, r.state, w)
  {
    assert |r.slog| == |c.slog| || |r.slog| == |c.slog| + 1;
    if c.slog == [] {
    } else if |r.slog| == |c.slog| {
      assert FinBit(r.state) == FinBit(c.state);
    }
  }

  /** What an operation makes of the log, in terms of the bytes written. */
  lemma OpExtendsLog(c: Conn, op: Op, w: seq<byte>)
    requires Inv(c) && Allowed(c, op) && Asserts(c, op) && LogIs(c.slog, c.state, w)
    ensures var r := Apply(c, op).conn; LogIs(r.slog, r.state, if r.state.CLOSED? then [] else w + AcceptedBytes(c, op))
  {
    OpKeepsInv(c, op);
    OpOnLog(c, op);
    LogStep(c, op, Apply(c, op).conn, w);
  }

  /** The log is exactly what the user wrote, between its two control cells, in every state of every
      run. */
  lemma {:induction false} LogIsWhatWasWritten(cs: seq<Conn>, ops: seq<Op>, i: nat)
    requires Run(cs, ops) && i <= |ops|
    ensures SendInv(cs[i]) && Shape(cs[i].slog, cs[i].state)
    ensures LogIs(cs[i].slog, cs[i].state, Wrote(cs, ops, i))
  {
    RunKeepsInv(cs, ops, i);
    if i > 0 {
      RunIsSafe(cs, ops, i - 1);
      LogIsWhatWasWritten(cs, ops, i - 1);
      OpExtendsLog(cs[i - 1], ops[i - 1], Wrote(cs, ops, i - 1));
    }
  }

  /** From state `i` to state `j` of a run the connection is one and the same: it has queued its SYN by
      `i` and is not closed in between. */
  ghost predicate SameConnection(cs: seq<Conn>, i: nat, j: nat) {
    && i <= j < |cs|
    && cs[i].slog != []
    && forall k :: i <= k <= j ==> !cs[k].state.CLOSED?
  }

  lemma {:induction false} WrittenGrows(cs: seq<Conn>, ops: seq<Op>, i: nat, j: nat)
    requires Run(cs, ops) && SameConnection(cs, i, j)
    ensures Wrote(cs, ops, i) <= Wrote(cs, ops, j)
    ensures cs[j].slog != [] && Start(cs[j]) == Start(cs[i])
    decreases j
  {
    if i < j {
      WrittenGrows(cs, ops, i, j - 1);
      RunIsSafe(cs, ops, j - 1);
      OpOnLog(cs[j - 1], ops[j - 1]);
    }
  }

  lemma FaithfulWhenSent(c: Conn, e: Emitted)
    requires Valid(c) && SendInv(c) && SendAsserts(c) && e in Transmit(c).sent
    ensures Faithful(e.packet, c.slog, Start(c))
  {
    TransmitFaithful(c, Transmit(c));
  }

  /** Every segment of every run is faithful to the log at the time. */
  lemma FaithfulWhenSentAt(cs: seq<Conn>, ops: seq<Op>, i: nat, e: Emitted)
    requires Run(cs, ops) && i <= |ops| && Valid(cs[i]) && SendAsserts(cs[i]) && e in Transmit(cs[i]).sent
    ensures Faithful(e.packet, cs[i].slog, Start(cs[i]))
  {
    LogIsWhatWasWritten(cs, ops, i);
    FaithfulWhenSent(cs[i], e);
  }

  lemma SliceOfPrefix(u: seq<byte>, w: seq<byte>, lo: nat, hi: nat)
    requires u <= w && lo <= hi <= |u|
    ensures u[lo..hi] == w[lo..hi]
  {
    assert u == w[..|u|];
  }

  /** What is known of the log at `i` and of the bytes written by `j`. */
  lemma LogAndLater(cs: seq<Conn>, ops: seq<Op>, i: nat, j: nat, c: Conn, u: seq<byte>, w: seq<byte>)
    requires Run(cs, ops) && SameConnection(cs, i, j) && c == cs[i]
    requires u == Wrote(cs, ops, i) && w == Wrote(cs, ops, j)
    ensures LogIs(c.slog, c.state, u) && Shape(c.slog, c.state)
    ensures u <= w && Start(cs[j]) == Start(c)
  {
    LogIsWhatWasWritten(cs, ops, i);
    WrittenGrows(cs, ops, i, j);
  }

  /** A segment faithful to the log carries the bytes that the user has written at its positions by any
      later state of the same connection. */
  lemma FaithfulInRun(cs: seq<Conn>, ops: seq<Op>, i: nat, j: nat, p: Packet, c: Conn, w: seq<byte>)
    requires Run(cs, ops) && SameConnection(cs, i, j) && c == cs[i] && w == Wrote(cs, ops, j)
    requires Faithful(p, c.slog, Start(c)) && p.payload != []
    ensures Start(cs[j]) == Start(c)
    ensures var k := p.seqNum - Start(c) - 1;
      && 0 <= k <= k + |p.payload| <= |w|
      && p.payload == w[k..k + |p.payload|]
  {
    var u := Wrote(cs, ops, i);
    LogAndLater(cs, ops, i, j, c, u, w);
    DataStays(c, p, u, w);
  }

  lemma DataStays(c: Conn, p: Packet, u: seq<byte>, w: seq<byte>)
    requires LogIs(c.slog, c.state, u) && Shape(c.slog, c.state) && u <= w
    requires Faithful(p, c.slog, Start(c)) && p.payload != []
    ensures var k := p.seqNum - Start(c) - 1;
      && 0 <= k <= k + |p.payload| <= |w|
      && p.payload == w[k..k + |p.payload|]
  {
    DataOfLog(c, p, u);
    var k := p.seqNum - Start(c) - 1;
    SliceOfPrefix(u, w, k, k + |p.payload|);
  }

  /** Every data segment sent in state `i` of any run, first time or again, carries exactly the bytes
      that the user has written at its positions by any later state of the same connection. */
  lemma SegmentFidelity(cs: seq<Conn>, ops: seq<Op>, i: nat, j: nat, e: Emitted)
    requires Run(cs, ops) && SameConnection(cs, i, j)
    requires Valid(cs[i]) && SendAsserts(cs[i])
    requires e in Transmit(cs[i]).sent && e.packet.payload != []
    ensures var k := e.packet.seqNum - Start(cs[j]) - 1;
      && 0 <= k <= k + |e.packet.payload| <= |Wrote(cs, ops, j)|
      && e.packet.payload == Wrote(cs, ops, j)[k..k + |e.packet.payload|]
  {
    FaithfulWhenSentAt(cs, ops, i, e);
    FaithfulInRun(cs, ops, i, j, e.packet, cs[i], Wrote(cs, ops, j));
  }

  /** A faithful data segment, in terms of the bytes written. */
  lemma DataOfLog(c: Conn, p: Packet, w: seq<byte>)
    requires LogIs(c.slog, c.state, w) && Shape(c.slog, c.state)
    requires Faithful(p, c.slog, Start(c)) && p.payload != []
    ensures var k := p.seqNum - Start(c) - 1;
      && 0 <= k <= k + |p.payload| <= |w|
      && p.payload == w[k..k + |p.payload|]
  {
    var i, n := p.seqNum - Start(c), |p.payload|;
    assert c.slog[i] == c.slog[i..i + n][0];
    assert c.slog[i + n - 1] == c.slog[i..i + n][n - 1];
    forall j | 0 <= j < n
      ensures p.payload[j] == w[i - 1 + j]
    {
      assert c.slog[i..i + n][j] == c.slog[i + j];
    }
  }
}
