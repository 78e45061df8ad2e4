/** The sending half of a connection: what every operation keeps, and what every segment carries. */
module Sending {
  import opened Common
  import opened RingBuffer
  import opened Machine
  import opened Connection
  import Modulo

  /** The cells queued since the last reset end at `send_written`; this is where they start. */
  function Start(c: Conn): int {
    c.written - |c.slog|
  }

  /** Every cell of `log`, a log that ends at position `end`, that a buffer of this size can still hold
      is in the buffer. */
  ghost predicate Holds(b: seq<Cell>, log: seq<Cell>, end: nat) {
    && |b| == SIZE && |log| <= end
    && forall p :: end - |log| <= p < end && end - p <= SIZE ==> At(b, p) == log[p - (end - |log|)]
  }

  /** The states in which our FIN has been queued. */
  predicate FinQueued(s: State) {
    s.FIN_WAIT1? || s.FIN_WAIT2? || s.CLOSING? || s.TIME_WAIT? || s.LAST_ACK?
  }

  function FinBit(s: State): nat {
    if FinQueued(s) then 1 else 0
  }

  /** Nothing in CLOSED and LISTEN; elsewhere one flag bearing SYN, then data, then a FIN if and only if
      we have closed. */
  ghost predicate Shape(log: seq<Cell>, s: State) {
    if s.CLOSED? || s.LISTEN? then log == []
    else
      && |log| >= 1 + FinBit(s)
      && log[0].kind == FLAG && HasSyn(log[0].value)
      && (forall i :: 1 <= i < |log| - FinBit(s) ==> log[i].kind == DATA)
      && (FinQueued(s) ==> log[|log| - 1] == Cell(FLAG, FIN))
      && (s.SYN_SENT? || s.SYN_RCVD? ==> |log| == 1)
  }

  ghost predicate Pointers(c: Conn) {
    && 0 <= Start(c) <= c.una <= c.high <= c.written
    && Start(c) <= c.next <= c.high
    && c.high <= c.next + WINDOW + (if c.high == c.written then FinBit(c.state) else 0)
    && c.written <= c.una + WINDOW + FinBit(c.state)
  }

  ghost predicate SendInv(c: Conn) {
    && Holds(c.sbuf, c.slog, c.written)
    && Shape(c.slog, c.state)
    && Pointers(c)
  }

  /** An acceptable packet does not acknowledge what was never sent. */
  predicate AckCovered(c: Conn, p: Packet) {
    HasAck(p.flags) && IsValid(c, p.seqNum, |p.payload|) ==> p.ackNum <= c.high
  }

  // The log in the buffer

  lemma HoldsPut(b: seq<Cell>, log: seq<Cell>, end: nat, cell: Cell)
    requires Holds(b, log, end)
    ensures Holds(Put(b, end, cell), log + [cell], end + 1)
  {
    var b', log', start := Put(b, end, cell), log + [cell], end - |log|;
    forall p | start <= p < end + 1 && end + 1 - p <= SIZE
      ensures At(b', p) == log'[p - start]
    {
      PutAt(b, end, cell, p);
      if p < end {
        assert At(b, p) == log[p - start];
        if p % SIZE == end % SIZE {
          Modulo.Distinct(p, end, SIZE);
        }
      }
    }
  }

  lemma HoldsPutRange(b: seq<Cell>, log: seq<Cell>, end: nat, data: seq<byte>)
    requires Holds(b, log, end) && |data| <= SIZE
    ensures Holds(PutRange(b, end, data), log + DataCells(data), end + |data|)
  {
    var b', log', start := PutRange(b, end, data), log + DataCells(data), end - |log|;
    forall p | start <= p < end + |data| && end + |data| - p <= SIZE
      ensures At(b', p) == log'[p - start]
    {
      PutRangeWithinLap(b, end, data, p);
    }
  }

  // Steps

  /** Queueing a flag on the way to state `next`, when the log may grow by it. */
  lemma QueueKeepsSending(c: Conn, flags: byte, next: State)
    requires Valid(c) && SendInv(c)
    requires Shape(c.slog + [Cell(FLAG, flags)], next)
    requires FinBit(c.state) == 0 && (c.slog == [] || FinQueued(next))
    ensures SendInv(QueueFlags(c, flags).(state := next))
  {
    HoldsPut(c.sbuf, c.slog, c.written, Cell(FLAG, flags));
  }

  /** The flag that a transition's action queues, if any: a pure ACK is sent at once instead. */
  predicate Queues(action: Action) {
    action.DoSendFlags? && action.flags != ACK
  }

  /** The table alone: a transition that queues a flag extends a log of the right shape to one of the
      right shape, and any other leaves the shape right unless it ends in CLOSED. */
  lemma TableShape(log: seq<Cell>, s: State, input: Input)
    requires Shape(log, s) && Lookup(s, input).Some?
    ensures var To(next, action) := Lookup(s, input).value;
      && (Queues(action) ==>
            && Shape(log + [Cell(FLAG, action.flags)], next)
            && !FinQueued(s) && !next.CLOSED? && (log == [] || FinQueued(next)))
      && (!Queues(action) && !next.CLOSED? ==> Shape(log, next) && FinBit(next) == FinBit(s))
  {
    match s
    case CLOSED =>
    case LISTEN =>
    case ESTAB =>
    case CLOSE_WAIT =>
    case _ =>
  }

  /** What the invariant looks at, besides the state. */
  function SendingOf(c: Conn): (seq<Cell>, seq<Cell>, nat, nat, nat, nat) {
    (c.sbuf, c.slog, c.written, c.una, c.next, c.high)
  }

  lemma SameSending(c: Conn, d: Conn)
    requires SendInv(c) && SendingOf(d) == SendingOf(c) && d.state == c.state
    ensures SendInv(d)
  {
  }

  /** What a step of the machine does to the sending fields. */
  lemma StepOnSending(c: Conn, input: Input, p: Option<Packet>, routed: bool)
    requires Valid(c)
    requires Lookup(c.state, input).None? || input.ON_RECV_SYN_ACK? ==> p.Some?
    ensures var r, t := Step(c, input, p, routed).conn, Lookup(c.state, input);
      if t.None? || t.value.next.CLOSED? then
        r.state.CLOSED? && SendingOf(r) == (Blank(), [], 0, 0, 0, 0)
      else
        && r.state == t.value.next
        && SendingOf(r) == SendingOf(if Queues(t.value.action) then QueueFlags(c, t.value.action.flags) else c)
  {
  }

  /** A step of the machine, whatever the input, keeps the sending invariant. */
  lemma StepKeepsSending(c: Conn, input: Input, p: Option<Packet>, routed: bool)
    requires Valid(c) && SendInv(c)
    requires Lookup(c.state, input).None? || input.ON_RECV_SYN_ACK? ==> p.Some?
    ensures SendInv(Step(c, input, p, routed).conn)
  {
    StepOnSending(c, input, p, routed);
    var t := Lookup(c.state, input);
    if t.Some? && !t.value.next.CLOSED? {
      TableShape(c.slog, c.state, input);
      var d := if Queues(t.value.action) then QueueFlags(c, t.value.action.flags) else c;
      if Queues(t.value.action) {
        QueueKeepsSending(c, t.value.action.flags, t.value.next);
      }
      SameSending(d.(state := t.value.next), Step(c, input, p, routed).conn);
    }
  }

  lemma ConnectKeepsSending(c: Conn, isn: nat)
    requires Valid(c) && SendInv(c)
    ensures SendInv(Connect(c, isn).conn)
  {
    if CanConnect(c.state) {
      StepKeepsSending(c.(una := isn, next := isn, written := isn, high := isn), ON_ACTIVE_OPEN, None, true);
    }
  }

  lemma WriteKeepsSending(c: Conn, data: seq<byte>)
    requires Valid(c) && SendInv(c) && WriteAsserts(c, data) && c.sendWindow <= WINDOW
    ensures SendInv(Write(c, data))
  {
    if CanSend(c.state) {
      var d := data[..Taken(c, data)];
      HoldsPutRange(c.sbuf, c.slog, c.written, d);
      var r := CopyFromUser(c, d);
      assert Shape(r.slog, r.state);
      assert Pointers(r);
    }
  }

  lemma BeforeDataKeepsSending(c: Conn, p: Packet, routed: bool)
    requires Valid(c) && SendInv(c)
    requires HasAck(p.flags) ==> p.ackNum <= c.high
    ensures SendInv(BeforeData(c, p, routed).conn)
  {
    var c1 := ProcessAck(UpdateWindow(c, p.window), p);
    assert SendInv(c1);
    var c2 := if IsControl(p) then AckData(c1, 1) else c1;
    SameSending(c1, c2);
    StepKeepsSending(c2, PacketToInput(p.flags), Some(p), routed);
  }

  lemma DumbKeepsSending(c: Conn, p: Packet, flags: byte, routed: bool)
    requires Valid(c) && SendInv(c)
    ensures SendInv(SendDumb(c, p, flags, routed).conn)
  {
  }

  lemma ReceiveKeepsSending(c: Conn, p: Packet, routed: bool)
    requires Valid(c) && SendInv(c)
    requires AckCovered(c, p)
    requires Accepts(c, p, routed) ==> |p.payload| <= SIZE
    ensures SendInv(Receive(c, p, routed).conn)
  {
    if IsValid(c, p.seqNum, |p.payload|) {
      BeforeDataKeepsSending(c, p, routed);
      var mid := BeforeData(c, p, routed).conn;
      if Accepts(c, p, routed) {
        SameSending(mid, TakeData(mid, p.payload).conn);
      }
    } else {
      var c1 := UpdateWindow(c, p.window);
      SameSending(c, c1);
      DumbKeepsSending(c1, p, ACK, routed);
      DumbKeepsSending(c, p, RST, routed);
    }
  }

  lemma WatchdogKeepsSending(c: Conn, timeWait: bool, retransmit: bool, connecting: bool)
    requires Valid(c) && SendInv(c)
    ensures SendInv(Watchdog(c, timeWait, retransmit, connecting).conn)
  {
    var c1 := if c.state.CLOSED? then c.(timer := false) else c;
    if c1.state.TIME_WAIT? && timeWait {
      StepKeepsSending(c1, ON_TIMEOUT, None, true);
    }
  }

  /** The position `p` of the log that ends at `c.written`, read from the buffer. */
  lemma CellToSend(c: Conn, p: nat)
    requires SendInv(c) && c.next <= p < c.written
    ensures At(c.sbuf, p) == c.slog[p - Start(c)]
    ensures At(c.sbuf, p).kind == DATA || At(c.sbuf, p).kind == FLAG
  {
    assert c.written - p <= SIZE - 1;
  }

  /** What a segment says of the log: its bytes are the data queued at its positions, or, without bytes,
      its flags are the flag queued there. */
  ghost predicate Faithful(p: Packet, log: seq<Cell>, start: int) {
    var i := p.seqNum - start;
    && 0 <= i
    && if p.payload == [] then i < |log| && log[i] == Cell(FLAG, p.flags)
       else p.flags == 0 && i + |p.payload| <= |log| && log[i..i + |p.payload|] == DataCells(p.payload)
  }

  /** The number of positions a segment occupies. */
  function Extent(p: Packet): nat {
    Max(1, |p.payload|)
  }

  /** The run of data at `send_next` is the log there. */
  lemma DataToSend(c: Conn, m: nat)
    requires Valid(c) && SendInv(c) && 0 < m <= c.written - c.next
    requires At(c.sbuf, c.next).kind == DATA
    ensures var r := GetRange(c.sbuf, c.next, m);
      && r.data.Some? && 0 < r.ret == |r.data.value| <= m
      && c.slog[c.next - Start(c)..][..r.ret] == DataCells(r.data.value)
  {
    var n := DataRun(c.sbuf, c.next, m);
    var bytes, i := Values(c.sbuf, c.next, n), c.next - Start(c);
    forall k | 0 <= k < n
      ensures c.slog[i + k] == DataCells(bytes)[k]
    {
      CellToSend(c, c.next + k);
    }
  }

  /** What was found at `send_next`: the flag of the log there, or a run of its data. */
  ghost predicate Found(c: Conn, range: Range)
    requires Valid(c)
  {
    var i := c.next - Start(c);
    && 0 <= i < |c.slog|
    && range.data.Some?
    && if range.ret < 0 then c.slog[i] == Cell(FLAG, At(c.sbuf, c.next).value)
       else 0 < range.ret == |range.data.value| <= c.written - c.next
            && c.slog[i..i + range.ret] == DataCells(range.data.value)
  }

  /** The read at `send_next` never meets an EOF and never fails on its length. */
  lemma ReadToSend(c: Conn)
    requires Valid(c) && SendInv(c) && Sendable(c) > 0
    ensures Sendable(c) <= c.written - c.next < SIZE
    ensures Outgoing(c).ret <= Sendable(c)
    ensures Found(c, Outgoing(c))
  {
    var m := Sendable(c);
    assert c.written - c.next < SIZE;
    CellToSend(c, c.next);
    if At(c.sbuf, c.next).kind == DATA {
      DataToSend(c, m);
      var r, i := Outgoing(c), c.next - Start(c);
      assert c.slog[i..][..r.ret] == c.slog[i..i + r.ret];
    } else {
      ControlAlone(c.sbuf, c.next, m);
    }
  }

  /** A turn of the send thread fires no assertion. */
  lemma TransmitAsserts(c: Conn)
    requires Valid(c) && SendInv(c)
    ensures SendAsserts(c)
  {
    if Sendable(c) > 0 {
      ReadToSend(c);
    }
  }

  /** What sending that makes of the connection, in terms of the one segment sent. */
  lemma EmitOne(c: Conn, range: Range)
    requires Valid(c) && Found(c, range)
    ensures var r := Emit(c, range);
      && |r.sent| == 1 && !r.sent[0].raw
      && var p := r.sent[0].packet;
        && p.seqNum == c.next
        && Faithful(p, c.slog, Start(c))
        && c.next + Extent(p) <= c.written
        && SendingOf(r.conn) == SendingOf(Advance(c, Extent(p)))
        && r.conn.state == c.state
  {
  }

  lemma AdvanceKeepsSending(c: Conn, n: nat)
    requires SendInv(c) && c.next + n <= c.written
    ensures SendInv(Advance(c, n))
  {
  }

  /** A turn sends at most one segment, which is faithful to the log, moves `send_next` past it and keeps
      the invariant. */
  lemma TransmitFaithful(c: Conn, r: Outcome)
    requires Valid(c) && SendInv(c) && SendAsserts(c) && r == Transmit(c)
    ensures SendInv(r.conn)
    ensures r.sent == [] ==> r.conn == c
    ensures r.sent != [] ==>
      && |r.sent| == 1 && !r.sent[0].raw
      && r.sent[0].packet.seqNum == c.next
      && Faithful(r.sent[0].packet, c.slog, Start(c))
      && r.conn.next == c.next + Extent(r.sent[0].packet) <= c.written
  {
    if Sendable(c) > 0 {
      ReadToSend(c);
      EmitOne(c, Outgoing(c));
      AdvanceKeepsSending(c, Extent(r.sent[0].packet));
      SameSending(Advance(c, Extent(r.sent[0].packet)), r.conn);
    }
  }

  /** A flow edge that was not behind is not overrun. */
  lemma FlowNotOverrun(c: Conn, r: Outcome)
    requires Valid(c) && SendAsserts(c) && r == Transmit(c)
    requires c.next <= c.flow < c.next + 0x1_0000_0000
    ensures r.conn.next <= c.flow
  {
  }
}
