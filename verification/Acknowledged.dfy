/** Between two sockets every byte that is accepted is acknowledged to the end that sent it. */
module Acknowledged {
  import opened Machine
  import opened Connection
  import opened Receiving
  import opened Arrival
  import opened Runs
  import opened Delivery
  import opened Progress

  /** A pure ACK with this number has been sent. */
  ghost predicate AckSent(net: set<Packet>, n: nat) {
    exists p :: p in net && IsAckOf(p, n)
  }

  predicate IsAckOf(p: Packet, n: nat) {
    p.flags == ACK && p.payload == [] && p.ackNum == n
  }

  /** All that the end has accepted has been acknowledged. */
  ghost predicate Acks(x: Party, net: set<Packet>) {
    x.conn.state.CLOSED? || x.conn.got == [] || AckSent(net, x.conn.rack)
  }

  lemma ArrivalAcks(c: Conn, op: Op, r: Outcome)
    requires Inv(c) && CanReceive(c.state) && Asserts(c, op) && r == Apply(c, op) && Gained(c, op) != []
    ensures AckSent(Packets(r.sent), r.conn.rack)
  {
    AcceptedIsAcknowledged(c, op.packet, op.routed);
    assert r.sent[0] in r.sent;
    assert IsAckOf(r.sent[0].packet, r.conn.rack) && r.sent[0].packet in Packets(r.sent);
  }

  lemma LiveKeepsAcks(x: Party, incoming: set<Packet>, net: set<Packet>, op: Op, r: Outcome)
    requires Inv(x.conn) && CanReceive(x.conn.state) && Orderly(x, incoming, op) && Acks(x, net)
    requires Allowed(x.conn, op) && Asserts(x.conn, op) && r == Apply(x.conn, op)
    ensures Acks(After(x, op), net + Packets(r.sent))
  {
    var d, gained := r.conn, Gained(x.conn, op);
    LiveStays(x.conn, incoming, op, d);
    LiveFlows(x.conn, incoming, op, d);
    if !d.state.CLOSED? {
      if gained != [] {
        ArrivalAcks(x.conn, op, r);
        MoreIsSent(Packets(r.sent), net + Packets(r.sent), d.rack);
      } else if x.conn.got != [] {
        NothingGained(x.conn, d);
        MoreIsSent(net, net + Packets(r.sent), d.rack);
      } else {
        assert d.got == [];
      }
    }
  }

  lemma MoreIsSent(net: set<Packet>, net': set<Packet>, n: nat)
    requires AckSent(net, n) && net <= net'
    ensures AckSent(net', n)
  {
    var p :| p in net && IsAckOf(p, n);
    assert p in net' && IsAckOf(p, n);
  }

  lemma NothingGained(c: Conn, d: Conn)
    requires RecvInv(c) && RecvData(c) && CanReceive(c.state) && RecvInv(d) && RecvData(d) && CanReceive(d.state)
    requires Base(d) == Base(c) && d.got == c.got + []
    ensures d.got == c.got && d.rack == c.rack
  {
  }

  lemma MoveKeepsAcks(x: Party, y: Party, toX: set<Packet>, toY: set<Packet>, isnX: nat, isnY: nat,
                      op: Op, x': Party, out: set<Packet>)
    requires Half(x, y, toY, toX, isnX) && Half(y, x, toX, toY, isnY) && Acks(x, toY)
    requires Moves(x, toX, op, x', out)
    ensures Acks(x', toY + out)
  {
    EndMoves(x, y, toX, toY, isnX, isnY, op, x', out);
    if x.conn.state.CLOSED? {
      DeadStays(x.conn, toX, op);
    } else {
      LiveAllowed(x, toX, op, isnX);
      LiveKeepsAcks(x, toX, toY, op, Apply(x.conn, op));
    }
  }

  lemma StepKeepsAcks(s: System, atA: bool, op: Op, s': System)
    requires SystemInv(s) && SystemNext(s, atA, op, s') && Acks(s.a, s.toB) && Acks(s.b, s.toA)
    ensures Acks(s'.a, s'.toB) && Acks(s'.b, s'.toA)
  {
    if atA {
      var out: set<Packet> :| Moves(s.a, s.toA, op, s'.a, out) && s'.toB == s.toB + out;
      MoveKeepsAcks(s.a, s.b, s.toA, s.toB, s.isnA, s.isnB, op, s'.a, out);
    } else {
      var out: set<Packet> :| Moves(s.b, s.toB, op, s'.b, out) && s'.toA == s.toA + out;
      MoveKeepsAcks(s.b, s.a, s.toB, s.toA, s.isnB, s.isnA, op, s'.b, out);
    }
  }

  /** In every run of two sockets from ESTAB, over a network that drops, duplicates, delays and reorders: once an
      end has accepted bytes, a pure ACK of all it has accepted has been sent to the end that wrote them. */
  lemma {:induction false} AcceptedIsAlwaysAcknowledged(ss: seq<System>, sides: seq<bool>, ops: seq<Op>, i: nat)
    requires SystemRun(ss, sides, ops) && i <= |ops|
    ensures Acks(ss[i].a, ss[i].toB) && Acks(ss[i].b, ss[i].toA)
  {
    if i > 0 {
      AcceptedIsAlwaysAcknowledged(ss, sides, ops, i - 1);
      SystemStaysInv(ss, sides, ops, i - 1);
      assert SystemStepAt(ss, sides, ops, i - 1);
      StepKeepsAcks(ss[i - 1], sides[i - 1], ops[i - 1], ss[i]);
    }
  }
}
