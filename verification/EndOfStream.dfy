/** The end of the peer's stream: what its FIN leaves for the reader, and that nothing but a reset or our
    own close disturbs it. */
module EndOfStream {
  import opened Common
  import opened RingBuffer
  import opened Machine
  import opened Connection
  import opened Receiving
  import opened Reading
  import opened Arrival
  import Modulo

  /** The bytes accepted and not yet read. */
  function Unread(c: Conn): seq<byte>
    requires c.rread <= c.rack && Base(c) <= c.rread + 1
  {
    if c.rread < Base(c) then c.got else c.got[c.rread - Base(c)..]
  }

  lemma AcceptedByteAt(c: Conn, p: nat)
    requires RecvData(c) && CanReceive(c.state)
    requires Base(c) <= p < c.rack && c.rack - p <= SIZE
    ensures At(c.rbuf, p) == Cell(DATA, c.got[p - Base(c)])
  {
    assert c.rack - |DataCells(c.got)| == Base(c);
    assert At(c.rbuf, p) == DataCells(c.got)[p - Base(c)];
  }

  /** The position of the peer's SYN holds nothing, for as long as it is still to be read past. */
  lemma SynIsBlank(c: Conn)
    requires RecvInv(c) && RecvData(c) && CanReceive(c.state) && c.rread < Base(c)
    ensures At(c.rbuf, c.rread) == Cell(BLANK, 0)
  {
    assert At(c.rbuf, c.rread + SIZE) == Cell(BLANK, 0);
    Modulo.Residue(c.rread + SIZE, SIZE, (c.rread + SIZE) / SIZE, c.rread % SIZE) by {
      assert c.rread + SIZE == ((c.rread + SIZE) / SIZE) * SIZE + c.rread % SIZE;
    }
  }

  /** From its first byte on, the stream is a run of what was accepted. */
  lemma StreamFromByte(c: Conn, lo: nat)
    requires RecvInv(c) && RecvData(c) && CanReceive(c.state)
    requires lo == Max(c.rread, Base(c))
    ensures Stream(c.rbuf, lo, c.rnext) == Unread(c) && FirstEof(c.rbuf, lo, c.rnext) == c.rnext
  {
    var n := c.rack - lo;
    forall p | lo <= p < lo + n
      ensures At(c.rbuf, p) == Cell(DATA, c.got[p - Base(c)])
    {
      AcceptedByteAt(c, p);
    }
    StreamOfRun(c.rbuf, lo, c.rnext, n);
    assert Values(c.rbuf, lo, n) == c.got[lo - Base(c)..];
  }

  /** While data can be accepted, the reader's stream is exactly the bytes accepted and not yet read. */
  lemma StreamIsUnread(c: Conn)
    requires RecvInv(c) && RecvData(c) && CanReceive(c.state)
    ensures Stream(c.rbuf, c.rread, c.rnext) == Unread(c)
    ensures FirstEof(c.rbuf, c.rread, c.rnext) == c.rnext
  {
    StreamFromByte(c, Max(c.rread, Base(c)));
    if c.rread < Base(c) {
      SynIsBlank(c);
    }
  }

  /** A read from the first byte on takes as much as it asks for, or all there is. */
  lemma TakesAll(c: Conn, lo: nat, n: nat)
    requires RecvInv(c) && RecvData(c) && CanReceive(c.state)
    requires lo == Max(c.rread, Base(c)) && 0 < n && lo < c.rnext
    ensures var m := Min(n, c.rnext - lo);
      GetData(c.rbuf, lo, c.rnext, n) == (Bytes(Values(c.rbuf, lo, m)), lo + m)
  {
    var m := Min(n, c.rnext - lo);
    forall p | lo <= p < c.rnext
      ensures At(c.rbuf, p).kind == DATA
    {
      AcceptedByteAt(c, p);
    }
    LongestRun(c.rbuf, lo, m, m);
  }

  /** While data can be accepted, a read returns as many of the unread bytes as it asks for, or all of them. */
  lemma ReadIsGreedy(c: Conn, n: nat)
    requires Valid(c) && RecvInv(c) && RecvData(c) && CanReceive(c.state)
    ensures var r := Read(c, n).1; r.Bytes? && |r.data| == Min(n, |Unread(c)|)
  {
    var lo := Max(c.rread, Base(c));
    if n > 0 && lo < c.rnext {
      TakesAll(c, lo, n);
    }
    if n > 0 && c.rread < c.rnext && c.rread < Base(c) {
      SynIsBlank(c);
      SkipsSyn(c, n);
    }
  }

  lemma SkipsSyn(c: Conn, n: nat)
    requires Valid(c) && c.rread < c.rnext && n > 0 && At(c.rbuf, c.rread) == Cell(BLANK, 0)
    ensures GetData(c.rbuf, c.rread, c.rnext, n) == GetData(c.rbuf, c.rread + 1, c.rnext, n)
  {
  }

  /** The byte a reader would be given for the position of the peer's FIN: none on the first lap of the
      buffer, and after that the byte accepted one lap earlier, since nothing is written for a FIN. */
  function Stale(c: Conn): seq<byte> {
    if |c.got| < SIZE then [] else [c.got[|c.got| - SIZE]]
  }

  lemma FinPosition(c: Conn)
    requires RecvInv(c) && RecvData(c) && CanReceive(c.state)
    ensures At(c.rbuf, c.rack) == if |c.got| < SIZE then Cell(BLANK, 0) else Cell(DATA, Stale(c)[0])
  {
    if |c.got| >= SIZE {
      AcceptedByteAt(c, c.rack - SIZE);
      assert c.rack % SIZE == (c.rack - SIZE) % SIZE;
    }
  }

  /** A FIN accepted in ESTAB moves on to CLOSE_WAIT with one EOF queued after the FIN's position. */
  lemma FinStep(c: Conn, fin: Packet, routed: bool)
    requires RecvInv(c) && RecvData(c) && c.state.ESTAB?
    requires fin.flags == FIN && IsValid(c, fin.seqNum, |fin.payload|)
    ensures !Accepts(c, fin, routed)
    ensures var d := Receive(c, fin, routed).conn;
      && d.state.CLOSE_WAIT?
      && d.rread == c.rread && d.rack == c.rack + 1 && d.rnext == c.rack + 2
      && d.rbuf == Put(c.rbuf, c.rack + 1, Cell(EOF, 0))
  {
  }

  /** Queueing the EOF disturbs no position still to be read. */
  lemma EofFrame(c: Conn, b: seq<Cell>, p: nat)
    requires RecvInv(c) && |c.rbuf| == SIZE && CanReceive(c.state)
    requires b == Put(c.rbuf, c.rack + 1, Cell(EOF, 0)) && c.rread <= p <= c.rack
    ensures At(b, p) == At(c.rbuf, p)
  {
    PutAt(c.rbuf, c.rack + 1, Cell(EOF, 0), p);
    if p % SIZE == (c.rack + 1) % SIZE {
      Modulo.Distinct(p, c.rack + 1, SIZE);
    }
  }

  /** The stretch of the FIN and the EOF. */
  lemma StreamOfFin(c: Conn, b: seq<Cell>)
    requires RecvInv(c) && RecvData(c) && CanReceive(c.state)
    requires b == Put(c.rbuf, c.rack + 1, Cell(EOF, 0))
    ensures Stream(b, c.rack, c.rack + 2) == Stale(c)
    ensures FirstEof(b, c.rack, c.rack + 2) == c.rack + 1
  {
    EofFrame(c, b, c.rack);
    FinPosition(c);
    assert At(b, c.rack + 1) == Cell(EOF, 0);
    assert Stream(b, c.rack + 1, c.rack + 2) == [];
  }

  lemma StreamAfterFin(c: Conn, b: seq<Cell>)
    requires RecvInv(c) && RecvData(c) && CanReceive(c.state)
    requires b == Put(c.rbuf, c.rack + 1, Cell(EOF, 0))
    ensures Stream(b, c.rread, c.rack + 2) == Unread(c) + Stale(c)
    ensures FirstEof(b, c.rread, c.rack + 2) == c.rack + 1
  {
    forall p | c.rread <= p < c.rack
      ensures At(b, p) == At(c.rbuf, p)
    {
      EofFrame(c, b, p);
    }
    assert Stream(b, c.rread, c.rack) == Unread(c) && FirstEof(b, c.rread, c.rack) == c.rack by {
      StreamFrame(c.rbuf, b, c.rread, c.rack);
      StreamIsUnread(c);
    }
    StreamSplit(b, c.rread, c.rack, c.rack + 2);
    StreamOfFin(c, b);
  }

  /** What the reader finds after a FIN: the unread bytes, on a later lap one stale byte, and one EOF, in
      the last position. So the stream ends as it should if and only if fewer bytes than the buffer's size
      were ever accepted. */
  lemma FinDelivers(c: Conn, fin: Packet, routed: bool)
    requires RecvInv(c) && RecvData(c) && c.state.ESTAB?
    requires fin.flags == FIN && IsValid(c, fin.seqNum, |fin.payload|)
    ensures !Accepts(c, fin, routed)
    ensures var d := Receive(c, fin, routed).conn;
      && d.state.CLOSE_WAIT?
      && d.rread <= d.rnext
      && Stream(d.rbuf, d.rread, d.rnext) == Unread(c) + Stale(c)
      && FirstEof(d.rbuf, d.rread, d.rnext) == d.rnext - 1
      && (forall q :: d.rread <= q < d.rnext ==> (At(d.rbuf, q).kind == EOF <==> q == d.rnext - 1))
      && (Stream(d.rbuf, d.rread, d.rnext) == Unread(c) <==> |c.got| < SIZE)
  {
    FinStep(c, fin, routed);
    var b := Put(c.rbuf, c.rack + 1, Cell(EOF, 0));
    StreamAfterFin(c, b);
    OneEof(b, c.rread, c.rack + 2);
  }

  /** The first EOF, when it is in the last position, is the only one. */
  lemma OneEof(b: seq<Cell>, lo: nat, hi: nat)
    requires |b| > 0 && lo < hi && FirstEof(b, lo, hi) == hi - 1
    ensures forall q :: lo <= q < hi ==> (At(b, q).kind == EOF <==> q == hi - 1)
  {
    FirstEofIs(b, lo, hi);
  }

  // Afterwards

  /** The states after the peer's FIN: no more data is accepted, and what there is can be read. */
  predicate Settled(s: State) {
    s.CLOSE_WAIT? || s.LAST_ACK? || s.CLOSING? || s.TIME_WAIT?
  }

  /** What the reader depends on. */
  function ReaderOf(c: Conn): (seq<Cell>, nat, nat) {
    (c.rbuf, c.rread, c.rnext)
  }

  /** After the peer's FIN a packet resets the socket or changes nothing for the reader. */
  lemma AcceptableWhenSettled(c: Conn, p: Packet, routed: bool)
    requires Valid(c) && Settled(c.state)
    ensures var d := BeforeData(c, p, routed).conn;
      d.state.CLOSED? || (Settled(d.state) && ReaderOf(d) == ReaderOf(c))
  {
    var c1 := ProcessAck(UpdateWindow(c, p.window), p);
    var c2 := if IsControl(p) then AckData(c1, 1) else c1;
    StepOnPointers(c2, PacketToInput(p.flags), Some(p), routed);
    StepOnData(c2, PacketToInput(p.flags), Some(p), routed);
    if p.flags == ACK {
      AckWhenSettled(c2, p, routed);
    }
  }

  /** A pure ACK is all that the table takes in these states. */
  lemma AckWhenSettled(c: Conn, p: Packet, routed: bool)
    requires Valid(c) && Settled(c.state)
    ensures var d := Step(c, ON_RECV_ACK, Some(p), routed).conn;
      d.state.CLOSED? || (Settled(d.state) && ReaderOf(d) == ReaderOf(c))
  {
  }

  lemma PacketWhenSettled(c: Conn, p: Packet, routed: bool)
    requires Valid(c) && Settled(c.state)
    ensures !Accepts(c, p, routed)
    ensures var d := Receive(c, p, routed).conn;
      d.state.CLOSED? || (Settled(d.state) && ReaderOf(d) == ReaderOf(c))
  {
    AcceptableWhenSettled(c, p, routed);
  }

  lemma CloseWhenSettled(c: Conn)
    requires Valid(c) && Settled(c.state)
    ensures Settled(Close(c).conn.state) && ReaderOf(Close(c).conn) == ReaderOf(c)
  {
  }

  /** Whatever happens after the peer's FIN, our own close included, short of a reset or the end of
      TIME_WAIT, leaves the reader's stream alone; only reading advances it. */
  lemma SettledIsQuiet(c: Conn, op: Op)
    requires Valid(c) && RecvInv(c) && Asserts(c, op)
    requires Settled(c.state) && !Apply(c, op).conn.state.CLOSED?
    ensures var d := Apply(c, op).conn;
      Settled(d.state) && d.rbuf == c.rbuf && d.rnext == c.rnext && (!op.OpRead? ==> d.rread == c.rread)
  {
    match op
    case OpArrive(p, routed) => if !HasRst(p.flags) { PacketWhenSettled(c, p, routed); }
    case OpWrite(_) => SendersTouchNothing(c, op);
    case OpTransmit => SendersTouchNothing(c, op);
    case OpClose => CloseWhenSettled(c);
    case OpWatchdog(t, r, k) => WatchdogWhenSettled(c, t, r, k);
    case _ =>
  }

  lemma WatchdogWhenSettled(c: Conn, timeWait: bool, retransmit: bool, connecting: bool)
    requires Valid(c) && Settled(c.state)
    ensures var d := Watchdog(c, timeWait, retransmit, connecting).conn;
      d.state.CLOSED? || (d.state == c.state && ReaderOf(d) == ReaderOf(c))
  {
    if c.state.TIME_WAIT? && timeWait {
      StepOnPointers(c, ON_TIMEOUT, None, true);
    }
  }

  /** A run of operations all through which the connection stays in those states, no assertion fires, and
      reads ask for something. */
  ghost predicate Lingers(c: Conn, ops: seq<Op>)
    decreases |ops|
  {
    && Valid(c) && Settled(c.state)
    && (ops != [] ==>
          && Asserts(c, ops[0])
          && (ops[0].OpRead? ==> ops[0].n > 0)
          && Lingers(Apply(c, ops[0]).conn, ops[1..]))
  }

  /** The sizes of the reads in a run. */
  function ReadSizes(ops: seq<Op>): seq<nat> {
    if ops == [] then []
    else (if ops[0].OpRead? then [ops[0].n] else []) + ReadSizes(ops[1..])
  }

  /** The bytes `v_read` returns in a run before the first end of file, and whether that was returned. */
  ghost function Delivered(c: Conn, ops: seq<Op>): (seq<byte>, bool)
    requires Lingers(c, ops)
    decreases |ops|
  {
    if ops == [] then ([], false)
    else if ops[0].OpRead? then
      match Read(c, ops[0].n).1
      case EndOfFile => ([], true)
      case Bytes(data) =>
        var rest := Delivered(Apply(c, ops[0]).conn, ops[1..]);
        (data + rest.0, rest.1)
    else Delivered(Apply(c, ops[0]).conn, ops[1..])
  }

  /** Interleaved with anything that lingers after the FIN, the reads deliver what they would deliver on
      their own. */
  lemma {:induction false} LingeringIsDraining(c: Conn, ops: seq<Op>)
    requires RecvInv(c) && Lingers(c, ops)
    ensures Delivered(c, ops) == Drain(c.rbuf, c.rread, c.rnext, ReadSizes(ops))
    ensures forall i :: 0 <= i < |ReadSizes(ops)| ==> ReadSizes(ops)[i] > 0
    decreases |ops|
  {
    if ops != [] {
      var d := Apply(c, ops[0]).conn;
      SettledIsQuiet(c, ops[0]);
      OpKeepsReceiving(c, ops[0]);
      LingeringIsDraining(d, ops[1..]);
      if ops[0].OpRead? {
        assert ReadSizes(ops)[1..] == ReadSizes(ops[1..]);
      } else {
        assert ReadSizes(ops) == ReadSizes(ops[1..]);
      }
    }
  }

  /** After the peer's FIN, on the first lap of the buffer, the reader gets the remaining bytes in order,
      end of file only after all of them, and given enough reads both, whatever else arrives meanwhile. */
  lemma EndOfStreamDelivered(c: Conn, fin: Packet, routed: bool, ops: seq<Op>)
    requires RecvInv(c) && RecvData(c) && c.state.ESTAB? && |c.got| < SIZE
    requires fin.flags == FIN && IsValid(c, fin.seqNum, |fin.payload|)
    requires !Accepts(c, fin, routed) && Lingers(Receive(c, fin, routed).conn, ops)
    ensures var (data, end) := Delivered(Receive(c, fin, routed).conn, ops);
      && data <= Unread(c)
      && (end ==> data == Unread(c))
      && (|ReadSizes(ops)| > |Unread(c)| ==> data == Unread(c) && end)
  {
    FinDelivers(c, fin, routed);
    ReceiveKeepsReceiving(c, fin, routed);
    var d := Receive(c, fin, routed).conn;
    LingeringIsDraining(d, ops);
    DrainDelivers(d.rbuf, d.rread, d.rnext, ReadSizes(ops));
  }

  // The side that closes first

  /** A FIN taken in FIN_WAIT1 or FIN_WAIT2 queues no EOF. */
  lemma FinStepAfterClosing(c: Conn, fin: Packet, routed: bool)
    requires RecvInv(c) && RecvData(c) && (c.state.FIN_WAIT1? || c.state.FIN_WAIT2?)
    requires fin.flags == FIN || (c.state.FIN_WAIT1? && fin.flags == FIN + ACK)
    requires IsValid(c, fin.seqNum, |fin.payload|)
    ensures !Accepts(c, fin, routed)
    ensures var d := Receive(c, fin, routed).conn;
      && (d.state.CLOSING? || d.state.TIME_WAIT?)
      && d.rread == c.rread && d.rack == d.rnext == c.rack + 1 && d.rbuf == c.rbuf
  {
    assert IsControl(fin);
    var c2 := AckData(ProcessAck(UpdateWindow(c, fin.window), fin), 1);
    StepOnPointers(c2, PacketToInput(fin.flags), Some(fin), routed);
    StepOnData(c2, PacketToInput(fin.flags), Some(fin), routed);
    assert BeforeData(c, fin, routed) == Step(c2, PacketToInput(fin.flags), Some(fin), routed);
  }

  lemma StreamToFin(c: Conn)
    requires RecvInv(c) && RecvData(c) && CanReceive(c.state)
    ensures Stream(c.rbuf, c.rread, c.rack + 1) == Unread(c) + Stale(c)
    ensures FirstEof(c.rbuf, c.rread, c.rack + 1) == c.rack + 1
  {
    StreamIsUnread(c);
    FinPosition(c);
    StreamSplit(c.rbuf, c.rread, c.rack, c.rack + 1);
    assert Stream(c.rbuf, c.rack + 1, c.rack + 1) == [];
  }

  /** So the side that closes first is never told of the end of the stream while its connection lasts: its
      reads deliver the remaining bytes, and a stale one on a later lap of the buffer, and then nothing. */
  lemma FirstCloserSeesNoEnd(c: Conn, fin: Packet, routed: bool, ops: seq<Op>)
    requires RecvInv(c) && RecvData(c) && (c.state.FIN_WAIT1? || c.state.FIN_WAIT2?)
    requires fin.flags == FIN || (c.state.FIN_WAIT1? && fin.flags == FIN + ACK)
    requires IsValid(c, fin.seqNum, |fin.payload|)
    requires !Accepts(c, fin, routed) && Lingers(Receive(c, fin, routed).conn, ops)
    ensures var (data, end) := Delivered(Receive(c, fin, routed).conn, ops);
      && !end && data <= Unread(c) + Stale(c)
      && (|ReadSizes(ops)| > |Unread(c) + Stale(c)| ==> data == Unread(c) + Stale(c))
  {
    StreamAfterClosing(c, fin, routed, Receive(c, fin, routed).conn);
    NoEndWhileLingering(Receive(c, fin, routed).conn, Unread(c) + Stale(c), ops);
  }

  lemma StreamAfterClosing(c: Conn, fin: Packet, routed: bool, d: Conn)
    requires RecvInv(c) && RecvData(c) && (c.state.FIN_WAIT1? || c.state.FIN_WAIT2?)
    requires fin.flags == FIN || (c.state.FIN_WAIT1? && fin.flags == FIN + ACK)
    requires IsValid(c, fin.seqNum, |fin.payload|)
    requires !Accepts(c, fin, routed) && d == Receive(c, fin, routed).conn
    ensures RecvInv(d) && |d.rbuf| == SIZE && d.rread <= d.rnext
    ensures Stream(d.rbuf, d.rread, d.rnext) == Unread(c) + Stale(c)
    ensures FirstEof(d.rbuf, d.rread, d.rnext) == d.rnext
  {
    FinStepAfterClosing(c, fin, routed);
    StreamToFin(c);
    ReceiveKeepsReceiving(c, fin, routed);
  }

  /** Without an EOF the reads deliver the stream and no end of file. */
  lemma NoEndWhileLingering(d: Conn, stream: seq<byte>, ops: seq<Op>)
    requires RecvInv(d) && Lingers(d, ops) && d.rread <= d.rnext
    requires Stream(d.rbuf, d.rread, d.rnext) == stream && FirstEof(d.rbuf, d.rread, d.rnext) == d.rnext
    ensures var (data, end) := Delivered(d, ops);
      !end && data <= stream && (|ReadSizes(ops)| > |stream| ==> data == stream)
  {
    LingeringIsDraining(d, ops);
    DrainDelivers(d.rbuf, d.rread, d.rnext, ReadSizes(ops));
  }

  /** The end of TIME_WAIT does tell it, with whatever is still unread lost: the EOF queued on the way is
      wiped out with the buffer, and every later read fails for want of permission. */
  lemma TimeWaitDropsUnread(c: Conn, retransmit: bool, connecting: bool, n: nat)
    requires Valid(c) && c.state.TIME_WAIT?
    ensures var d := Watchdog(c, true, retransmit, connecting).conn;
      && d.state.CLOSED? && d.rbuf == Blank() && d.rread == d.rnext == 0 && d.got == []
      && Read(d, n) == (d, EndOfFile)
  {
    StepOnPointers(c, ON_TIMEOUT, None, true);
    StepOnData(c, ON_TIMEOUT, None, true);
  }
}
