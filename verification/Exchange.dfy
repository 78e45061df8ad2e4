/** The handshake as runs of the two sockets, each given what the other sent. */
module Exchange {
  import opened Common
  import opened Machine
  import opened Connection
  import opened Runs
  import opened Delivery
  import opened Handshake

  /** A run ends in `c`. */
  ghost predicate EndsIn(cs: seq<Conn>, ops: seq<Op>, c: Conn) {
    Run(cs, ops) && cs[|ops|] == c
  }

  /** A run goes on with any operation that is allowed. */
  lemma RunGoesOn(cs: seq<Conn>, ops: seq<Op>, c: Conn, op: Op, d: Conn)
    requires EndsIn(cs, ops, c) && Allowed(c, op) && Valid(c)
    requires Asserts(c, op) && d == Apply(c, op).conn
    ensures EndsIn(cs + [d], ops + [op], d)
  {
    var cs', ops' := cs + [d], ops + [op];
    forall i | 0 <= i < |ops'|
      ensures NextAt(cs', ops', i)
    {
      if i < |ops| {
        assert NextAt(cs, ops, i);
        assert cs'[i] == cs[i] && cs'[i + 1] == cs[i + 1] && ops'[i] == ops[i];
      }
    }
  }

  /** The handshake, as a run of the cloned socket. */
  lemma CalleeIsReached(isnB: nat, isnA: nat) returns (cs: seq<Conn>, ops: seq<Op>)
    ensures EndsIn(cs, ops, Callee(isnB, isnA)) && Inv(Callee(isnB, isnA)) && cs[0] == Clone(isnB, isnA)
    ensures ops == [OpArrive(TheSyn(isnA), true), OpTransmit, OpArrive(TheAck(isnA, isnB), true)]
    ensures cs[1] == Called(isnB, isnA)
  {
    cs, ops := AnsweringIsReached(isnB, isnA);
    AckLeads(isnB, isnA);
    RunGoesOn(cs, ops, Answering(isnB, isnA), OpArrive(TheAck(isnA, isnB), true), Callee(isnB, isnA));
    cs, ops := cs + [Callee(isnB, isnA)], ops + [OpArrive(TheAck(isnA, isnB), true)];
    RunKeepsInv(cs, ops, |ops|);
  }

  lemma AnsweringIsReached(isnB: nat, isnA: nat) returns (cs: seq<Conn>, ops: seq<Op>)
    ensures EndsIn(cs, ops, Answering(isnB, isnA)) && cs[0] == Clone(isnB, isnA)
    ensures ops == [OpArrive(TheSyn(isnA), true), OpTransmit] && cs[1] == Called(isnB, isnA)
  {
    cs, ops := CalledIsReached(isnB, isnA);
    CloneSendsAnswer(isnB, isnA);
    RunGoesOn(cs, ops, Called(isnB, isnA), OpTransmit, Answering(isnB, isnA));
    cs, ops := cs + [Answering(isnB, isnA)], ops + [OpTransmit];
  }

  lemma CalledIsReached(isnB: nat, isnA: nat) returns (cs: seq<Conn>, ops: seq<Op>)
    ensures EndsIn(cs, ops, Called(isnB, isnA)) && cs[0] == Clone(isnB, isnA)
    ensures ops == [OpArrive(TheSyn(isnA), true)] && cs[1] == Called(isnB, isnA)
  {
    var syn := OpArrive(TheSyn(isnA), true);
    cs, ops := [Clone(isnB, isnA)], [];
    SynLeads(isnB, isnA);
    RunGoesOn(cs, ops, Clone(isnB, isnA), syn, Called(isnB, isnA));
    cs, ops := cs + [Called(isnB, isnA)], ops + [syn];
  }

  /** The handshake, as a run of the socket that calls, when the two initial numbers allow it. */
  lemma CallerIsReached(isnA: nat, isnB: nat) returns (cs: seq<Conn>, ops: seq<Op>)
    requires isnA < 0x1_0000_0000 && isnA != WINDOW && isnB % SIZE < WINDOW
    ensures EndsIn(cs, ops, Caller(isnA, isnB)) && cs[0] == NewSocket()
    ensures ops == [OpConnect(isnA), OpTransmit, OpArrive(TheAnswer(isnB, isnA), true)]
    ensures cs[1] == Connect(NewSocket(), isnA).conn && cs[2] == Calling(isnA)
  {
    var c := Connect(NewSocket(), isnA).conn;
    cs, ops := [NewSocket()], [];
    RunGoesOn(cs, ops, NewSocket(), OpConnect(isnA), c);
    cs, ops := cs + [c], ops + [OpConnect(isnA)];
    CallerSendsSyn(isnA);
    RunGoesOn(cs, ops, c, OpTransmit, Calling(isnA));
    cs, ops := cs + [Calling(isnA)], ops + [OpTransmit];
    AnswerLeads(isnA, isnB);
    RunGoesOn(cs, ops, Calling(isnA), OpArrive(TheAnswer(isnB, isnA), true), Caller(isnA, isnB));
    cs, ops := cs + [Caller(isnA, isnB)], ops + [OpArrive(TheAnswer(isnB, isnA), true)];
  }

  lemma AnswerLeads(isnA: nat, isnB: nat)
    requires isnB % SIZE < WINDOW
    ensures var c, op := Calling(isnA), OpArrive(TheAnswer(isnB, isnA), true);
      Allowed(c, op) && Asserts(c, op) && Apply(c, op).conn == Caller(isnA, isnB)
  {
    CallerTakesAnswer(isnA, isnB);
  }

  /** The two sockets after the handshake, and what is left of it in the network. */
  function Established(isnA: nat, isnB: nat): System {
    System(Party(Caller(isnA, isnB), [], [], isnA + 1), Party(Callee(isnB, isnA), [], [], isnB + 1),
           {TheAnswer(isnB, isnA)}, {TheSyn(isnA), TheAck(isnA, isnB)}, isnA, isnB)
  }

  /** The whole exchange: a run of a new socket that calls, and one of the socket cloned for it, end in a
      system from which delivery is proved, and each is given just what the other sent. */
  lemma ExchangeLeadsToStart(isnA: nat, isnB: nat)
    returns (csA: seq<Conn>, opsA: seq<Op>, csB: seq<Conn>, opsB: seq<Op>)
    requires isnA < 0x1_0000_0000 && isnA != WINDOW && isnB % SIZE < WINDOW
    ensures EndsIn(csA, opsA, Established(isnA, isnB).a.conn) && csA[0] == NewSocket()
    ensures EndsIn(csB, opsB, Established(isnA, isnB).b.conn) && csB[0] == Clone(isnB, isnA)
    ensures opsA == [OpConnect(isnA), OpTransmit, OpArrive(TheAnswer(isnB, isnA), true)]
    ensures opsB == [OpArrive(TheSyn(isnA), true), OpTransmit, OpArrive(TheAck(isnA, isnB), true)]
    ensures csA[1] == Connect(NewSocket(), isnA).conn && Sends(csA[1], OpTransmit, TheSyn(isnA))
    ensures csB[1] == Called(isnB, isnA) && Sends(csB[1], OpTransmit, TheAnswer(isnB, isnA))
    ensures csA[2] == Calling(isnA) && Sends(csA[2], opsA[2], TheAck(isnA, isnB))
    ensures Starting(Established(isnA, isnB))
  {
    csA, opsA := CallerIsReached(isnA, isnB);
    csB, opsB := CalleeIsReached(isnB, isnA);
    HandshakeEstablishes(isnA, isnB);
    SynIsSent(isnA);
    AnswerIsSent(isnB, isnA);
    AckIsSent(isnA, isnB);
  }

  /** The one packet sent in that step. */
  ghost predicate Sends(c: Conn, op: Op, p: Packet) {
    Valid(c) && Asserts(c, op) && Apply(c, op).sent == [Emitted(p, false)]
  }

  lemma SynIsSent(isnA: nat)
    requires isnA < 0x1_0000_0000 && isnA != WINDOW
    ensures Sends(Connect(NewSocket(), isnA).conn, OpTransmit, TheSyn(isnA))
  {
    CallerSendsSyn(isnA);
  }

  lemma AnswerIsSent(isnB: nat, isnA: nat)
    ensures Sends(Called(isnB, isnA), OpTransmit, TheAnswer(isnB, isnA))
  {
    CloneSendsAnswer(isnB, isnA);
  }

  lemma AckIsSent(isnA: nat, isnB: nat)
    requires isnB % SIZE < WINDOW
    ensures Sends(Calling(isnA), OpArrive(TheAnswer(isnB, isnA), true), TheAck(isnA, isnB))
  {
    AnswerLeads(isnA, isnB);
    CallerTakesAnswer(isnA, isnB);
  }

  lemma SynLeads(isnB: nat, isnA: nat)
    ensures var c, op := Clone(isnB, isnA), OpArrive(TheSyn(isnA), true);
      Allowed(c, op) && Asserts(c, op) && Apply(c, op).conn == Called(isnB, isnA)
  {
    CloneTakesSyn(isnB, isnA);
  }

  lemma AckLeads(isnB: nat, isnA: nat)
    ensures var c, op := Answering(isnB, isnA), OpArrive(TheAck(isnA, isnB), true);
      Allowed(c, op) && Asserts(c, op) && Apply(c, op).conn == Callee(isnB, isnA)
  {
    CloneTakesAck(isnB, isnA);
  }
}
