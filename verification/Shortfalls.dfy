/** Runs of one connection in which the code falls short of its purpose: what the conditions proved
    elsewhere exclude does happen. */
module Shortfalls {
  import opened Common
  import opened RingBuffer
  import opened Machine
  import opened Connection
  import opened Receiving
  import opened Arrival
  import opened Reading
  import opened EndOfStream
  import opened Runs
  import opened Delivery
  import opened Handshake
  import opened Exchange

  /** With a full window the program aborts: a run that ends in a state in which every further write fails
      its assertions, after the handshake and one write of 4095 bytes. */
  lemma FullWindowAborts(isnB: nat, isnA: nat, data: seq<byte>, more: seq<byte>)
    returns (cs: seq<Conn>, ops: seq<Op>, c: Conn)
    requires |data| == WINDOW - 1
    ensures EndsIn(cs, ops, c) && CanSend(c.state) && !WriteAsserts(c, more)
  {
    cs, ops := CalleeIsReached(isnB, isnA);
    c := Write(Callee(isnB, isnA), data);
    RunGoesOn(cs, ops, Callee(isnB, isnA), OpWrite(data), c);
    cs, ops := cs + [c], ops + [OpWrite(data)];
  }

  // The stale byte

  /** In ESTAB, with `n` bytes accepted and all of them read. */
  ghost predicate Drained(c: Conn, n: nat) {
    Inv(c) && c.state.ESTAB? && |c.got| == n && Unread(c) == []
  }

  function OneByte(c: Conn, x: byte): Packet {
    Packet(c.rack, 0, 0, 0, [x])
  }

  /** The next byte is acceptable, and taking it in leaves the socket in ESTAB. */
  lemma ByteIsAccepted(c: Conn, n: nat, p: Packet, d: Conn)
    requires Drained(c, n) && p.flags == 0 && |p.payload| == 1 && c.rack <= p.seqNum && p.seqNum + 1 < Edge(c)
    requires d == Receive(c, p, true).conn
    ensures Accepts(c, p, true) && d.state.ESTAB? && d.got == c.got + p.payload
    ensures d.rread == c.rread && d.rack == c.rack + 1
  {
    TestsAgreeNearby(c, p.seqNum, 1);
    PlainAcceptedIffValid(c, p, true);
    PlainStep(c, p, true);
    PlainIsTaken(c, p, true);
    assert d == TakeData(BeforeData(c, p, true).conn, p.payload).conn;
  }

  lemma ByteArrives(c: Conn, n: nat, x: byte, d: Conn)
    requires Drained(c, n) && d == Arrive(c, OneByte(c, x), true).conn
    ensures Accepts(c, OneByte(c, x), true)
    ensures Inv(d) && d.state.ESTAB? && d.got == c.got + [x] && d.rread == c.rread && Base(d) == Base(c)
  {
    ByteIsAccepted(c, n, OneByte(c, x), d);
    OpKeepsInv(c, OpArrive(OneByte(c, x), true));
  }

  lemma UnreadGrows(c: Conn, d: Conn, x: byte)
    requires RecvInv(c) && RecvData(c) && c.state.ESTAB? && RecvInv(d) && RecvData(d) && d.state.ESTAB?
    requires d.got == c.got + [x] && d.rread == c.rread && Base(d) == Base(c)
    ensures Unread(d) == Unread(c) + [x]
  {
  }

  /** And is read. */
  lemma ByteIsRead(c: Conn, d: Conn)
    requires Inv(c) && c.state.ESTAB? && |Unread(c)| == 1 && d == Read(c, 1).0
    ensures Drained(d, |c.got|)
  {
    ReadDelivers(c, 1);
    StreamIsUnread(c);
    ReadTakes(c.rbuf, c.rread, c.rnext, 1, GetData(c.rbuf, c.rread, c.rnext, 1));
    OpKeepsInv(c, OpRead(1));
  }

  lemma NoneIsDrained(isnB: nat, isnA: nat) returns (cs: seq<Conn>, ops: seq<Op>, c: Conn)
    ensures EndsIn(cs, ops, c) && Drained(c, 0)
  {
    cs, ops := CalleeIsReached(isnB, isnA);
    c := Callee(isnB, isnA);
  }

  /** Any number of bytes can be accepted and read. */
  lemma {:induction false} AnyNumberIsDrained(n: nat) returns (cs: seq<Conn>, ops: seq<Op>, c: Conn)
    ensures EndsIn(cs, ops, c) && Drained(c, n)
  {
    if n == 0 {
      cs, ops, c := NoneIsDrained(1, 0);
    } else {
      cs, ops, c := AnyNumberIsDrained(n - 1);
      cs, ops, c := OneMoreIsDrained(cs, ops, c, n - 1);
    }
  }

  lemma OneMoreIsDrained(cs: seq<Conn>, ops: seq<Op>, c: Conn, n: nat)
    returns (cs': seq<Conn>, ops': seq<Op>, c': Conn)
    requires EndsIn(cs, ops, c) && Drained(c, n)
    ensures EndsIn(cs', ops', c') && Drained(c', n + 1)
  {
    var arrival := OpArrive(OneByte(c, 7), true);
    var d := Arrive(c, OneByte(c, 7), true).conn;
    ByteArrives(c, n, 7, d);
    UnreadGrows(c, d, 7);
    RunGoesOn(cs, ops, c, arrival, d);
    c' := Read(d, 1).0;
    ByteIsRead(d, c');
    RunGoesOn(cs + [d], ops + [arrival], d, OpRead(1), c');
    cs', ops' := cs + [d] + [c'], ops + [arrival] + [OpRead(1)];
  }

  function FinAt(c: Conn): Packet {
    Packet(c.rack, 0, FIN, 0, [])
  }

  /** The stale byte is read: for every number of bytes that fills the buffer there is a run in which they
      have been accepted and all read, and after the peer's FIN, where end of file is due, the next read
      returns a byte accepted one lap of the buffer earlier. */
  lemma StaleByteIsRead(n: nat) returns (cs: seq<Conn>, ops: seq<Op>, c: Conn)
    requires n >= SIZE
    ensures EndsIn(cs, ops, c) && Drained(c, n)
    ensures !Accepts(c, FinAt(c), true)
    ensures var d := Receive(c, FinAt(c), true).conn;
      d.state.CLOSE_WAIT? && |Stale(c)| == 1 && Read(d, 1).1 == Bytes(Stale(c))
  {
    cs, ops, c := AnyNumberIsDrained(n);
    TestsAgreeNearby(c, c.rack, 0);
    FinDelivers(c, FinAt(c), true);
    StaleIsRead(Receive(c, FinAt(c), true).conn, Stale(c));
  }

  lemma StaleIsRead(d: Conn, stale: seq<byte>)
    requires Valid(d) && d.state.CLOSE_WAIT? && d.rread <= d.rnext && |stale| == 1
    requires Stream(d.rbuf, d.rread, d.rnext) == stale && FirstEof(d.rbuf, d.rread, d.rnext) == d.rnext - 1
    ensures Read(d, 1).1 == Bytes(stale)
  {
    ReadTakes(d.rbuf, d.rread, d.rnext, 1, GetData(d.rbuf, d.rread, d.rnext, 1));
  }

  // One byte written and sent

  /** In ESTAB, with nothing waiting to be sent, and room. */
  ghost predicate CanSendOne(c: Conn) {
    && Valid(c) && c.state.ESTAB? && c.next == c.written < c.flow < c.written + 0x1_0000_0000
    && c.written < c.una + c.sendWindow && c.una + c.sendWindow - c.written < 0x1_0000_0000
  }

  function DataPacket(c: Conn, x: byte): Packet {
    Packet(c.next, c.rack, 0, Uint16(c.rread + c.recvWindow - c.rnext), [x])
  }

  /** One byte written and sent starts the timer. */
  lemma ByteSentTimed(c: Conn, x: byte, d: Conn)
    requires CanSendOne(c) && d == CopyFromUser(c, [x])
    ensures WriteAsserts(c, [x]) && Write(c, [x]) == d && SendAsserts(d)
    ensures var r := Transmit(d);
      && r.sent == [Emitted(DataPacket(c, x), false)]
      && r.conn == d.(next := c.next + 1, timer := true, high := Max(c.high, c.next + 1))
  {
    assert [x][..1] == [x];
    PutRangeWithinLap(c.sbuf, c.written, [x], c.written);
    assert At(d.sbuf, d.next) == Cell(DATA, x) && Sendable(d) == 1;
    LongestRun(d.sbuf, d.next, 1, 1);
    assert Values(d.sbuf, d.next, 1) == [At(d.sbuf, d.next + 0).value];
  }

  // An acknowledgement of what was never sent

  function WildAck(isnB: nat, isnA: nat, k: nat): Packet {
    Packet(isnA + 1, isnB + 1 + k, ACK, WINDOW, [])
  }

  /** `send_una` passes all that was written. */
  lemma WildAckIsTaken(isnB: nat, isnA: nat, k: nat, c: Conn)
    requires k > 1 && c == Receive(Callee(isnB, isnA), WildAck(isnB, isnA, k), true).conn
    ensures c == Callee(isnB, isnA).(prev := ESTAB, una := isnB + 1 + k, flow := isnB + 1 + WINDOW)
  {
    CalleeIsOpen(isnB, isnA);
    var c0, p := Callee(isnB, isnA), WildAck(isnB, isnA, k);
    TestsAgreeNearby(c0, isnA + 1, 0);
    assert c == BeforeData(c0, p, true).conn;
    assert ProcessAck(UpdateWindow(c0, WINDOW), p) == c0.(una := isnB + 1 + k, flow := isnB + 1 + WINDOW);
  }

  lemma CalleeIsOpen(isnB: nat, isnA: nat)
    ensures Inv(Callee(isnB, isnA))
  {
    var cs, ops := CalleeIsReached(isnB, isnA);
  }

  /** A user sees it: an ACK of two or more bytes that were never sent is acceptable after the handshake; one
      byte is written and sent; the watchdog takes `send_next` to `send_una`, past all that was written;
      and from then on every write, of whatever data, aborts. No other assertion fails on the way. */
  lemma WildAckAborts(isnB: nat, isnA: nat, k: nat, x: byte, data: seq<byte>)
    returns (c1: Conn, c2: Conn, c3: Conn, c4: Conn)
    requires 1 < k < 0x7000_0000
    ensures Inv(Callee(isnB, isnA)) && !Accepts(Callee(isnB, isnA), WildAck(isnB, isnA, k), true)
    ensures c1 == Receive(Callee(isnB, isnA), WildAck(isnB, isnA, k), true).conn && c1.state.ESTAB?
    ensures Valid(c1) && WriteAsserts(c1, [x]) && c2 == Write(c1, [x])
    ensures Valid(c2) && SendAsserts(c2) && c3 == Transmit(c2).conn
    ensures Valid(c3) && c4 == Watchdog(c3, false, true, false).conn
    ensures c4.state.ESTAB? && c4.next > c4.written && !WriteAsserts(c4, data)
  {
    CalleeIsOpen(isnB, isnA);
    c1 := Receive(Callee(isnB, isnA), WildAck(isnB, isnA, k), true).conn;
    WildAckIsTaken(isnB, isnA, k, c1);
    c2 := CopyFromUser(c1, [x]);
    ByteSentTimed(c1, x, c2);
    c3 := Transmit(c2).conn;
    c4 := Watchdog(c3, false, true, false).conn;
  }

  // Two sockets, and a segment that overtakes another

  /** As `Orderly`, but a segment may be accepted out of its turn. */
  ghost predicate Loose(x: Party, incoming: set<Packet>, op: Op) {
    match op
    case OpConnect(_) => false
    case OpListen => false
    case OpWrite(_) => CanSend(x.conn.state) ==> Room(x.conn) > 0
    case OpArrive(p, routed) => p in incoming && !HasFin(p.flags)
    case _ => true
  }

  ghost predicate LooseMoves(x: Party, incoming: set<Packet>, op: Op, x': Party, out: set<Packet>) {
    && Loose(x, incoming, op) && Valid(x.conn) && Asserts(x.conn, op)
    && x' == After(x, op) && out == Packets(Apply(x.conn, op).sent)
  }

  /** A step of the system, as `SystemNext`. */
  ghost predicate LooseNext(s: System, atA: bool, op: Op, s': System) {
    && s'.isnA == s.isnA && s'.isnB == s.isnB
    && exists out: set<Packet> ::
         if atA then LooseMoves(s.a, s.toA, op, s'.a, out) && s'.b == s.b && s'.toA == s.toA && s'.toB == s.toB + out
         else LooseMoves(s.b, s.toB, op, s'.b, out) && s'.a == s.a && s'.toB == s.toB && s'.toA == s.toA + out
  }

  ghost predicate LooseStepAt(ss: seq<System>, sides: seq<bool>, ops: seq<Op>, i: nat)
    requires |ss| == |ops| + 1 == |sides| + 1 && i < |ops|
  {
    LooseNext(ss[i], sides[i], ops[i], ss[i + 1])
  }

  /** A run of such steps, as `SystemRun`. */
  ghost predicate LooseRun(ss: seq<System>, sides: seq<bool>, ops: seq<Op>) {
    && |ss| == |ops| + 1 == |sides| + 1
    && Starting(ss[0])
    && forall i :: 0 <= i < |ops| ==> LooseStepAt(ss, sides, ops, i)
  }

  /** It ends in `s`. */
  ghost predicate LooseEndsIn(ss: seq<System>, sides: seq<bool>, ops: seq<Op>, s: System) {
    LooseRun(ss, sides, ops) && ss[|ops|] == s
  }

  lemma LooseGoesOn(ss: seq<System>, sides: seq<bool>, ops: seq<Op>, s: System, atA: bool, op: Op, s': System)
    requires LooseEndsIn(ss, sides, ops, s) && LooseNext(s, atA, op, s')
    ensures LooseEndsIn(ss + [s'], sides + [atA], ops + [op], s')
  {
    var ss', sides', ops' := ss + [s'], sides + [atA], ops + [op];
    forall i | 0 <= i < |ops'|
      ensures LooseStepAt(ss', sides', ops', i)
    {
      if i < |ops| {
        assert LooseStepAt(ss, sides, ops, i);
        assert ss'[i] == ss[i] && ss'[i + 1] == ss[i + 1] && ops'[i] == ops[i] && sides'[i] == sides[i];
      }
    }
  }

  lemma LooseAtA(s: System, op: Op, a': Party, out: set<Packet>)
    requires LooseMoves(s.a, s.toA, op, a', out)
    ensures LooseNext(s, true, op, s.(a := a', toB := s.toB + out))
  {
  }

  lemma LooseAtB(s: System, op: Op, b': Party, out: set<Packet>)
    requires LooseMoves(s.b, s.toB, op, b', out)
    ensures LooseNext(s, false, op, s.(b := b', toA := s.toA + out))
  {
  }

  /** A user writes one byte. */
  lemma WritesOne(x: Party, incoming: set<Packet>, b: byte, x': Party)
    requires CanSendOne(x.conn) && WriteAsserts(x.conn, [b]) && x' == After(x, OpWrite([b]))
    ensures LooseMoves(x, incoming, OpWrite([b]), x', {})
    ensures x'.conn == CopyFromUser(x.conn, [b]) && x'.wrote == x.wrote + [b] && x'.read == x.read
  {
    assert [b][..1] == [b];
    assert Packets([]) == {};
  }

  /** And it is sent. */
  lemma SendsOne(x: Party, incoming: set<Packet>, c: Conn, b: byte, x': Party)
    requires CanSendOne(c) && x.conn == CopyFromUser(c, [b]) && SendAsserts(x.conn) && x' == After(x, OpTransmit)
    ensures LooseMoves(x, incoming, OpTransmit, x', {DataPacket(c, b)})
    ensures x'.wrote == x.wrote && x'.read == x.read
    ensures x'.conn == x.conn.(next := c.next + 1, timer := true, high := Max(c.high, c.next + 1))
  {
    ByteSentTimed(c, b, x.conn);
    var e := Emitted(DataPacket(c, b), false);
    assert Packets([e]) == {e.packet} by {
      assert e in [e];
    }
    assert x.wrote + [] == x.wrote;
  }

  /** One byte is written and sent. */
  lemma SystemSendsOne(ss: seq<System>, sides: seq<bool>, ops: seq<Op>, s: System, x: byte)
    returns (mid: System, s': System)
    requires LooseEndsIn(ss, sides, ops, s) && CanSendOne(s.a.conn)
    ensures LooseEndsIn(ss + [mid] + [s'], sides + [true] + [true], ops + [OpWrite([x])] + [OpTransmit], s')
    ensures s'.b == s.b && DataPacket(s.a.conn, x) in s'.toB && s.toB <= s'.toB && s'.a.wrote == s.a.wrote + [x]
    ensures var c, d := s.a.conn, s'.a.conn;
      d.next == d.written == c.next + 1 && d.una == c.una && d.flow == c.flow && d.sendWindow == c.sendWindow
      && d.state.ESTAB? && Valid(d)
  {
    var c := s.a.conn;
    ByteSentTimed(c, x, CopyFromUser(c, [x]));
    var a1 := After(s.a, OpWrite([x]));
    WritesOne(s.a, s.toA, x, a1);
    mid := s.(a := a1, toB := s.toB + {});
    LooseAtA(s, OpWrite([x]), a1, {});
    LooseGoesOn(ss, sides, ops, s, true, OpWrite([x]), mid);
    var a2 := After(a1, OpTransmit);
    SendsOne(a1, s.toA, c, x, a2);
    s' := mid.(a := a2, toB := mid.toB + {DataPacket(c, x)});
    LooseAtA(mid, OpTransmit, a2, {DataPacket(c, x)});
    LooseGoesOn(ss + [mid], sides + [true], ops + [OpWrite([x])], mid, true, OpTransmit, s');
  }

  /** The second of two bytes arrives first. */
  lemma SecondArrives(s: System, p: Packet, n: nat) returns (s': System)
    requires Drained(s.b.conn, n) && p in s.toB && p.flags == 0 && |p.payload| == 1
    requires s.b.conn.rack <= p.seqNum && p.seqNum + 1 < Edge(s.b.conn)
    ensures LooseNext(s, false, OpArrive(p, true), s')
    ensures s'.a == s.a && s'.b.read == s.b.read && s'.b.conn == Receive(s.b.conn, p, true).conn
  {
    var c, op := s.b.conn, OpArrive(p, true);
    ByteIsAccepted(c, n, p, Receive(c, p, true).conn);
    var b' := After(s.b, op);
    var out := Packets(Apply(c, op).sent);
    s' := s.(b := b', toA := s.toA + out);
    LooseAtB(s, op, b', out);
    assert s.b.read + [] == s.b.read;
  }

  /** One byte is waiting to be read. */
  ghost predicate OneUnread(c: Conn, x: byte) {
    Inv(c) && c.state.ESTAB? && Unread(c) == [x]
  }

  lemma SecondWaits(c: Conn, p: Packet, n: nat, d: Conn)
    requires Drained(c, n) && p.flags == 0 && |p.payload| == 1 && d == Receive(c, p, true).conn
    requires c.rack <= p.seqNum && p.seqNum + 1 < Edge(c)
    ensures OneUnread(d, p.payload[0])
  {
    ByteIsAccepted(c, n, p, d);
    OpKeepsInv(c, OpArrive(p, true));
    UnreadGrows(c, d, p.payload[0]);
  }

  /** And is read. */
  lemma SecondIsRead(s: System, x: byte) returns (s': System)
    requires OneUnread(s.b.conn, x)
    ensures LooseNext(s, false, OpRead(1), s') && s'.a == s.a && s'.b.read == s.b.read + [x]
  {
    var c := s.b.conn;
    ByteIsRead(c, Read(c, 1).0);
    ReadDelivers(c, 1);
    assert Packets([]) == {};
    s' := s.(b := After(s.b, OpRead(1)), toA := s.toA + {});
    LooseAtB(s, OpRead(1), After(s.b, OpRead(1)), {});
  }

  /** Two ends ready for it: nothing is on the way from A to B, and both bytes fit every window. */
  ghost predicate ReadyForTwo(s: System) {
    var a, b := s.a.conn, s.b.conn;
    && CanSendOne(a) && a.written + 1 < a.flow && a.written + 1 < a.una + a.sendWindow
    && Drained(b, 0) && b.rack == a.next && a.next + 2 < Edge(b)
    && s.a.wrote == [] && s.b.read == []
  }

  lemma ReadyAfterHandshake(isnA: nat, isnB: nat) returns (s: System)
    ensures Starting(s) && ReadyForTwo(s) && s.isnA == isnA && s.isnB == isnB
  {
    s := Established(isnA, isnB);
    HandshakeEstablishes(isnA, isnB);
    CalleeIsOpen(isnB, isnA);
  }

  /** A writes `x` and then `y`, and both are sent. */
  lemma TwoAreSent(s0: System, x: byte, y: byte)
    returns (ss: seq<System>, sides: seq<bool>, ops: seq<Op>, s: System, p: Packet)
    requires Starting(s0) && ReadyForTwo(s0)
    ensures LooseEndsIn(ss, sides, ops, s) && ss[0] == s0
    ensures ops == [OpWrite([x]), OpTransmit, OpWrite([y]), OpTransmit]
    ensures s.b == s0.b && s.a.wrote == [x, y]
    ensures p in s.toB && p.flags == 0 && p.payload == [y] && p.seqNum == s0.a.conn.next + 1
  {
    ss, sides, ops := [s0], [], [];
    var s1, s2 := SystemSendsOne(ss, sides, ops, s0, x);
    ss, sides, ops := ss + [s1] + [s2], sides + [true] + [true], ops + [OpWrite([x])] + [OpTransmit];
    p := DataPacket(s2.a.conn, y);
    var s3;
    s3, s := SystemSendsOne(ss, sides, ops, s2, y);
    ss, sides, ops := ss + [s3] + [s], sides + [true] + [true], ops + [OpWrite([y])] + [OpTransmit];
    assert [] + [x] + [y] == [x, y];
  }

  /** The second is delivered first, and read. */
  lemma SecondOvertakes(ss: seq<System>, sides: seq<bool>, ops: seq<Op>, s: System, p: Packet)
    returns (mid: System, s': System)
    requires LooseEndsIn(ss, sides, ops, s)
    requires Drained(s.b.conn, 0) && p in s.toB && p.flags == 0 && |p.payload| == 1 && s.b.read == []
    requires s.b.conn.rack <= p.seqNum && p.seqNum + 1 < Edge(s.b.conn)
    ensures LooseEndsIn(ss + [mid] + [s'], sides + [false] + [false], ops + [OpArrive(p, true)] + [OpRead(1)], s')
    ensures s'.a == s.a && s'.b.read == p.payload
  {
    mid := SecondArrives(s, p, 0);
    LooseGoesOn(ss, sides, ops, s, false, OpArrive(p, true), mid);
    SecondWaits(s.b.conn, p, 0, mid.b.conn);
    s' := SecondIsRead(mid, p.payload[0]);
    LooseGoesOn(ss + [mid], sides + [false], ops + [OpArrive(p, true)], mid, false, OpRead(1), s');
    assert [] + [p.payload[0]] == p.payload;
  }

  /** End to end, from any handshake and for any two bytes that differ: A writes `x` and then `y`, both are
      sent, the second is delivered first, and B reads `y`, which is no prefix of what A wrote. The system
      and the network are those of the delivery theorem; only the order of arrival is not asked for. */
  lemma OvertakingCorrupts(isnA: nat, isnB: nat, x: byte, y: byte)
    returns (ss: seq<System>, sides: seq<bool>, ops: seq<Op>, s: System, p: Packet)
    requires x != y
    ensures LooseEndsIn(ss, sides, ops, s) && ss[0].isnA == isnA && ss[0].isnB == isnB
    ensures ops == [OpWrite([x]), OpTransmit, OpWrite([y]), OpTransmit, OpArrive(p, true), OpRead(1)]
    ensures s.a.wrote == [x, y] && s.b.read == [y] && !(s.b.read <= s.a.wrote)
  {
    var s0 := ReadyAfterHandshake(isnA, isnB);
    var s4;
    ss, sides, ops, s4, p := TwoAreSent(s0, x, y);
    var s5;
    s5, s := SecondOvertakes(ss, sides, ops, s4, p);
    ss, sides, ops := ss + [s5] + [s], sides + [false] + [false], ops + [OpArrive(p, true)] + [OpRead(1)];
    assert [y][0] != [x, y][0];
  }
}
