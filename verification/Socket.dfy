/** The socket of the source, updated in place. Every method is proved to do to the socket what the
    function of the same operation in module Connection does to its value. */
module Sockets {
  import opened Common
  import opened RingBuffer
  import opened Machine
  import C = Connection
  import opened Connection
  import Runs

  /** `cbuf_new`, for a socket's buffer */
  method NewBuffer() returns (b: CBuffer)
    ensures b.Valid() && b.size == SIZE && fresh(b) && fresh(b.data)
    ensures b.Cells() == Blank()
  {
    b := new CBuffer(SIZE);
    assert b.Cells() == Blank();
  }

  ghost predicate TakenIfRoom(c: Conn, p: Packet, r: Outcome)
    requires C.Valid(c)
  {
    if IsData(p) && HaveRoom(c, |p.payload|) && CanReceive(c.state)
    then |p.payload| <= SIZE && r == TakeData(c, p.payload)
    else r == Outcome(c, [])
  }

  lemma ReceiveSplits(c: Conn, p: Packet, routed: bool, mid: Outcome, r: Outcome)
    requires C.Valid(c) && IsValid(c, p.seqNum, |p.payload|) && (Accepts(c, p, routed) ==> |p.payload| <= SIZE)
    requires mid == BeforeData(c, p, routed) && TakenIfRoom(mid.conn, p, r)
    ensures Receive(c, p, routed) == Outcome(r.conn, mid.sent + r.sent)
  {
    assert mid.sent + [] == mid.sent;
  }

  /** One turn of the recursion of `getDataFromBuffer`. */
  lemma GetDataIs(b: seq<Cell>, lo: nat, hi: nat, max: nat, range: Range)
    requires |b| > 0 && lo < hi && max > 0 && range == GetRange(b, lo, Min(max, hi - lo))
    ensures GetData(b, lo, hi, max) ==
      if range.ret < 0 then GetData(b, lo + 1, hi, max)
      else if range.data.None? then (EndOfFile, lo + 1)
      else (Bytes(range.data.value), lo + range.ret)
  {
  }

  class Socket {
    var state: State
    var prev: State
    var sbuf: CBuffer
    var rbuf: CBuffer
    var una: nat
    var next: nat
    var written: nat
    var flow: nat
    var rack: nat
    var rnext: nat
    var rread: nat
    var recvWindow: uint16
    var sendWindow: uint16
    var timer: bool
    ghost var slog: seq<Cell>
    ghost var got: seq<byte>
    ghost var high: nat

    ghost predicate Valid()
      reads this
    {
      && sbuf.Valid() && rbuf.Valid()
      && sbuf.size == rbuf.size == SIZE
      && sbuf.data != rbuf.data
    }

    ghost function View(): (c: Conn)
      requires Valid()
      reads this, sbuf.data, rbuf.data
      ensures C.Valid(c)
    {
      Conn(state, prev, sbuf.Cells(), rbuf.Cells(), una, next, written, flow, rack, rnext, rread,
           recvWindow, sendWindow, timer, slog, got, high)
    }

    /** The buffers are the ones the socket had, or new ones. */
    twostate predicate SameOrFresh()
      reads this
    {
      && (sbuf.data == old(sbuf.data) || fresh(sbuf.data))
      && (rbuf.data == old(rbuf.data) || fresh(rbuf.data))
    }

    /** `sys_socket`; a clone (`clone`) starts in LISTEN instead of CLOSED. */
    constructor (clone: bool)
      ensures Valid() && fresh(sbuf.data) && fresh(rbuf.data)
      ensures View() == NewSocket().(state := if clone then LISTEN else CLOSED)
    {
      state, prev := if clone then LISTEN else CLOSED, CLOSED;
      sbuf := new CBuffer(SIZE);
      rbuf := new CBuffer(SIZE);
      una, next, written, flow := 0, 0, 0, WINDOW;
      rack, rnext, rread := 0, 0, 0;
      recvWindow, sendWindow, timer := WINDOW, WINDOW, false;
      slog, got, high := [], [], 0;
    }

    method StartSendingAt(isn: nat)
      modifies `una, `next, `written, `high
      ensures una == next == written == high == isn
    {
      una, next, written, high := isn, isn, isn, isn;
    }

    /** The pointers `tcp_thread` gives the socket it has just cloned. */
    method Adopt(isn: nat, incoming: nat)
      requires Valid() && View() == NewSocket().(state := LISTEN)
      modifies `una, `next, `written, `high, `rack, `rnext, `rread
      ensures Valid() && View() == Clone(isn, incoming)
    {
      StartSendingAt(isn);
      rack, rnext, rread := incoming, incoming, incoming;
    }

    /** The pointers of `in_closed` */
    method ZeroPointers()
      modifies `una, `next, `written, `flow, `rack, `rnext, `rread, `high
      ensures una == next == written == 0 && flow == WINDOW && rack == rnext == rread == 0 && high == 0
    {
      una, next, written, flow, rack, rnext, rread, high := 0, 0, 0, WINDOW, 0, 0, 0, 0;
    }

    method NewBuffers()
      modifies `rbuf, `sbuf
      ensures Valid() && fresh(rbuf.data) && fresh(sbuf.data)
      ensures rbuf.Cells() == sbuf.Cells() == Blank()
    {
      rbuf := NewBuffer();
      sbuf := NewBuffer();
    }

    /** The windows, the timer and the history of `in_closed` */
    method ResetWindows()
      modifies `timer, `sendWindow, `recvWindow, `slog, `got
      ensures !timer && sendWindow == recvWindow == WINDOW && slog == [] && got == []
    {
      timer, sendWindow, recvWindow, slog, got := false, WINDOW, WINDOW, [], [];
    }

    /** `in_closed` */
    method InClosed()
      requires Valid()
      modifies this
      ensures Valid() && SameOrFresh()
      ensures View() == Reinit(old(View()))
    {
      ZeroPointers();
      ResetWindows();
      NewBuffers();
    }

    /** `machine_reset` */
    method MachineReset()
      requires Valid()
      modifies this
      ensures Valid() && SameOrFresh()
      ensures View() == Reset(old(View()))
    {
      state, prev := CLOSED, CLOSED;
      InClosed();
    }

    /** `tcp_sendto` */
    method TcpSendTo(payload: seq<byte>, flags: byte) returns (sent: seq<Emitted>)
      requires Valid()
      modifies this`timer
      ensures Valid()
      ensures Outcome(View(), sent) == SendTo(old(View()), payload, flags)
    {
      sent := [Emitted(Packet(next, rack, flags, Uint16(rread + recvWindow - rnext), payload), false)];
      if !(flags == ACK && payload == []) {
        if !timer { timer := true; }
      } else {
        timer := false;
      }
    }

    /** `send_dumb_packet`, with `tcp_sendto_raw` */
    method SendDumbPacket(p: Packet, flags: byte, routed: bool) returns (sent: seq<Emitted>)
      requires Valid() && (flags == ACK || flags == RST)
      modifies this
      ensures Valid() && SameOrFresh()
      ensures Outcome(View(), sent) == SendDumb(old(View()), p, flags, routed)
    {
      if !routed {
        MachineReset();
        return [];
      }
      sent := [Emitted(Packet(p.ackNum, rack, flags, sendWindow, []), true)];
      if flags == ACK {
        timer := false;
      } else if !timer {
        timer := true;
      }
    }

    /** `queue_up_flags` */
    method QueueUpFlags(flags: byte)
      requires Valid()
      modifies this, sbuf.data
      ensures Valid() && sbuf == old(sbuf) && rbuf == old(rbuf)
      ensures View() == QueueFlags(old(View()), flags)
    {
      sbuf.PutCell(written, flags, FLAG);
      written := written + 1;
      slog := slog + [Cell(FLAG, flags)];
    }

    /** `send_packet_with_flags` */
    method SendPacketWithFlags(flags: byte) returns (sent: seq<Emitted>)
      requires Valid()
      modifies this, sbuf.data
      ensures Valid() && sbuf == old(sbuf) && rbuf == old(rbuf)
      ensures Outcome(View(), sent) == SendFlags(old(View()), flags)
    {
      if flags == ACK {
        sent := TcpSendTo([], ACK);
      } else {
        QueueUpFlags(flags);
        sent := [];
      }
    }

    /** `queue_eof` */
    method QueueUpEof()
      requires Valid()
      modifies this, rbuf.data
      ensures Valid() && sbuf == old(sbuf) && rbuf == old(rbuf)
      ensures View() == QueueEof(old(View()))
    {
      rbuf.PutCell(rnext, 0, EOF);
      rnext := rnext + 1;
    }

    /** The action of a transition. */
    method RunAction(action: Action, p: Option<Packet>) returns (sent: seq<Emitted>)
      requires Valid() && (action.DoConnect? ==> p.Some?)
      modifies this, sbuf.data, rbuf.data
      ensures Valid() && sbuf == old(sbuf) && rbuf == old(rbuf)
      ensures Outcome(View(), sent) == Act(old(View()), action, p)
    {
      sent := [];
      match action {
        case DoSendFlags(flags) =>
          sent := SendPacketWithFlags(flags);
        case DoConnect(flags) =>
          var n := p.value.seqNum;
          rnext, rack := rnext + n, rack + n;
          rread := n;
          sent := SendPacketWithFlags(flags);
        case DoClose(CLOSE_EOF) =>
          QueueUpEof();
        case _ =>
      }
    }

    /** The action of the state just entered */
    method EnterState()
      requires Valid()
      modifies this, rbuf.data
      ensures Valid() && SameOrFresh()
      ensures View() == Enter(old(View()))
    {
      if state.CLOSED? {
        InClosed();
      } else if state.CLOSE_WAIT? && !prev.CLOSE_WAIT? {
        QueueUpEof();
      }
    }

    method MoveTo(target: State)
      requires Valid()
      modifies `prev, `state
      ensures Valid() && View() == old(View()).(prev := old(state), state := target)
    {
      prev := state;
      state := target;
    }

    /** `machine_step`, where there is a transition */
    method TakeTransition(target: State, action: Action, p: Option<Packet>) returns (sent: seq<Emitted>)
      requires Valid() && (action.DoConnect? ==> p.Some?)
      modifies this, sbuf.data, rbuf.data
      ensures Valid() && SameOrFresh()
      ensures var done := Act(old(View()), action, p);
        sent == done.sent && View() == Enter(done.conn.(prev := old(state), state := target))
    {
      ghost var was := state;
      sent := RunAction(action, p);
      assert state == was;
      MoveTo(target);
      EnterState();
    }

    /** `machine_step` */
    method MachineStep(input: Input, p: Option<Packet>, routed: bool) returns (sent: seq<Emitted>)
      requires Valid()
      requires Lookup(state, input).None? || input.ON_RECV_SYN_ACK? ==> p.Some?
      modifies this, sbuf.data, rbuf.data
      ensures Valid() && SameOrFresh()
      ensures Outcome(View(), sent) == Step(old(View()), input, p, routed)
    {
      match Lookup(state, input) {
        case None =>
          sent := SendDumbPacket(p.value, RST, routed);
          MachineReset();
        case Some(To(target, action)) =>
          sent := TakeTransition(target, action, p);
      }
    }

    /** `updateFromWindowAnnounce` */
    method UpdateFromWindowAnnounce(window: uint16)
      requires Valid()
      modifies `flow
      ensures Valid() && View() == UpdateWindow(old(View()), window)
    {
      flow := una + window;
    }

    /** `processPacketForAck` */
    method ProcessPacketForAck(p: Packet)
      requires Valid()
      modifies `una, `timer
      ensures Valid() && View() == ProcessAck(old(View()), p)
    {
      if HasAck(p.flags) && p.ackNum > una {
        una, timer := p.ackNum, false;
      }
    }

    /** `do_recv_tcp` on an acceptable packet, up to and including the step of the machine */
    method ProcessControl(p: Packet, routed: bool) returns (sent: seq<Emitted>)
      requires Valid()
      modifies this, sbuf.data, rbuf.data
      ensures Valid() && SameOrFresh()
      ensures Outcome(View(), sent) == BeforeData(old(View()), p, routed)
    {
      UpdateFromWindowAnnounce(p.window);
      ProcessPacketForAck(p);
      if IsControl(p) {
        AckBytes(1);
      }
      sent := MachineStep(PacketToInput(p.flags), Some(p), routed);
    }

    /** `dataFromNetworkToBuffer` and `ackThisPacket` */
    method TakeFromNetwork(data: seq<byte>) returns (sent: seq<Emitted>)
      requires Valid() && |data| <= SIZE
      modifies this, rbuf.data
      ensures Valid() && sbuf == old(sbuf) && rbuf == old(rbuf)
      ensures Outcome(View(), sent) == TakeData(old(View()), data)
    {
      rbuf.PutBytes(data, rnext);
      got := got + data;
      AckBytes(|data|);
      sent := TcpSendTo([], ACK);
    }

    /** `do_recv_tcp` on a packet that is not acceptable */
    method Refuse(p: Packet, routed: bool) returns (sent: seq<Emitted>)
      requires Valid() && !IsValid(View(), p.seqNum, |p.payload|)
      modifies this
      ensures Valid() && SameOrFresh()
      ensures Outcome(View(), sent) == Receive(old(View()), p, routed)
    {
      if CheckOld(p.seqNum) {
        UpdateFromWindowAnnounce(p.window);
        sent := [];
        if !state.SYN_RCVD? {
          sent := SendDumbPacket(p, ACK, routed);
        }
      } else {
        sent := SendDumbPacket(p, RST, routed);
      }
    }

    /** What `do_recv_tcp` does with the payload, once the machine has been stepped */
    method TakeIfRoom(p: Packet) returns (sent: seq<Emitted>)
      requires Valid()
      requires IsData(p) && HaveRoom(View(), |p.payload|) && CanReceive(state) ==> |p.payload| <= SIZE
      modifies this, rbuf.data
      ensures Valid() && sbuf == old(sbuf) && rbuf == old(rbuf)
      ensures TakenIfRoom(old(View()), p, Outcome(View(), sent))
    {
      sent := [];
      if IsData(p) && Uint32(rread + recvWindow - rnext) >= |p.payload| && CanReceive(state) {
        sent := TakeFromNetwork(p.payload);
      }
    }

    /** `do_recv_tcp` on an acceptable packet */
    method ReceiveAcceptable(p: Packet, routed: bool) returns (sent: seq<Emitted>)
      requires Valid() && IsValid(View(), p.seqNum, |p.payload|)
      requires Accepts(View(), p, routed) ==> |p.payload| <= SIZE
      modifies this, sbuf.data, rbuf.data
      ensures Valid() && SameOrFresh()
      ensures Outcome(View(), sent) == Receive(old(View()), p, routed)
    {
      sent := ProcessControl(p, routed);
      ghost var mid := Outcome(View(), sent);
      var ack := TakeIfRoom(p);
      ReceiveSplits(old(View()), p, routed, mid, Outcome(View(), ack));
      sent := sent + ack;
    }

    /** `do_recv_tcp` */
    method DoRecvTcp(p: Packet, routed: bool) returns (sent: seq<Emitted>)
      requires Valid()
      requires Accepts(View(), p, routed) ==> |p.payload| <= SIZE
      modifies this, sbuf.data, rbuf.data
      ensures Valid() && SameOrFresh()
      ensures Outcome(View(), sent) == Receive(old(View()), p, routed)
    {
      if !CheckValid(p.seqNum, |p.payload|) {
        sent := Refuse(p, routed);
      } else {
        sent := ReceiveAcceptable(p, routed);
      }
    }

    /** `isValidSeqNum` */
    predicate CheckValid(num: nat, len: nat)
      requires Valid()
      reads this, sbuf.data, rbuf.data
      ensures CheckValid(num, len) == IsValid(View(), num, len)
    {
      var edge := rread + recvWindow;
      C.Window.BtmContains(rbuf.size, rack, edge, num) && C.Window.BtmContains(rbuf.size, rack, edge, num + len)
    }

    /** `isOldSeqNum` */
    predicate CheckOld(num: nat)
      requires Valid()
      reads this, sbuf.data, rbuf.data
      ensures CheckOld(num) == IsOld(View(), num)
    {
      C.Window.Lt(rbuf.size, num, rack)
    }

    /** `ackData` */
    method AckBytes(n: nat)
      requires Valid()
      modifies `rnext, `rack, `sendWindow
      ensures Valid()
      ensures View() == AckData(old(View()), n)
    {
      rnext, rack, sendWindow := rnext + n, rack + n, Uint16(rread + recvWindow - (rnext + n));
    }

    /** `tcp_thread`, from where it has found the socket */
    method OnPacket(p: Packet, routed: bool) returns (sent: seq<Emitted>)
      requires Valid()
      requires !HasRst(p.flags) && Accepts(View(), p, routed) ==> |p.payload| <= SIZE
      modifies this, sbuf.data, rbuf.data
      ensures Valid() && SameOrFresh()
      ensures Outcome(View(), sent) == Arrive(old(View()), p, routed)
    {
      if HasRst(p.flags) {
        MachineReset();
        sent := [];
      } else {
        sent := DoRecvTcp(p, routed);
      }
    }

    /** `getDataFromBuffer`: a flag is skipped by trying again one position on. */
    method GetDataFromBuffer(max: nat) returns (r: ReadResult)
      requires Valid() && rread <= rnext && Min(max, rnext - rread) <= SIZE
      modifies this`rread
      ensures Valid() && rread <= rnext
      ensures (r, rread) == GetData(old(rbuf.Cells()), old(rread), rnext, max)
      decreases rnext - rread
    {
      var amount := Min(max, rnext - rread);
      if amount == 0 {
        return Bytes([]);
      }
      var range := rbuf.GetBytes(rread, amount);
      GetDataIs(rbuf.Cells(), rread, rnext, max, range);
      if range.ret < 0 {
        rread := rread + 1;
        r := GetDataFromBuffer(max);
      } else if range.data.None? {
        rread := rread + 1;
        r := EndOfFile;
      } else {
        rread := rread + range.ret;
        r := Bytes(range.data.value);
      }
    }

    /** `v_read` */
    method VRead(n: nat) returns (r: ReadResult)
      requires Valid() && ReadAsserts(View(), n)
      modifies this`rread
      ensures Valid()
      ensures (View(), r) == Read(old(View()), n)
    {
      if !CanRead(state) {
        return EndOfFile;
      }
      if n == 0 {
        return Bytes([]);
      }
      r := GetDataFromBuffer(n);
    }

    /** `v_write`, with `copyDataFromUser` */
    method VWrite(data: seq<byte>) returns (taken: int)
      requires Valid() && WriteAsserts(View(), data)
      modifies this, sbuf.data
      ensures Valid() && sbuf == old(sbuf) && rbuf == old(rbuf)
      ensures View() == Write(old(View()), data)
      ensures taken == if CanSend(old(state)) then Taken(old(View()), data) else -1
    {
      if !CanSend(state) {
        return -1;
      }
      taken := Min(una + sendWindow - written, |data|);
      sbuf.PutBytes(data[..taken], written);
      written := written + taken;
      slog := slog + DataCells(data[..taken]);
    }

    /** `getAmountAbleToSend`, with the read it makes; `None` when there is nothing to look at */
    method AmountAbleToSend() returns (r: Option<Range>)
      requires Valid() && SendAsserts(View())
      ensures r == if Sendable(View()) == 0 then None else Some(Outgoing(View()))
    {
      var m := Min(Uint32(written - next), Uint32(flow - next));
      if m == 0 {
        return None;
      }
      var range := sbuf.GetBytes(next, m);
      r := Some(range);
    }

    /** `sendFlagNext` and, if one is next, `getFlagToSend`; an EOF would fail the assertion there. */
    method FlagToSend() returns (flag: Option<byte>)
      requires Valid() && (next != written ==> At(View().sbuf, next).kind != EOF)
      ensures flag ==
        if next == written || DataOrEof(At(View().sbuf, next).kind) then None else Some(At(View().sbuf, next).value)
    {
      if next == written {
        return None;
      }
      var range := sbuf.GetBytes(next, 1);
      assert Values(sbuf.Cells(), next, 1) == [At(sbuf.Cells(), next + 0).value];
      flag := if range.ret < 0 then Some(range.data.value[0]) else None;
    }

    /** Sends what is at `send_next` and moves past it */
    method SendNext(payload: seq<byte>, flags: byte, n: nat) returns (sent: seq<Emitted>)
      requires Valid()
      modifies this
      ensures Valid() && sbuf == old(sbuf) && rbuf == old(rbuf)
      ensures var done := SendTo(old(View()), payload, flags);
        Outcome(View(), sent) == Outcome(Advance(done.conn, n), done.sent)
    {
      sent := TcpSendTo(payload, flags);
      next := next + n;
      high := Max(high, next);
    }

    /** One turn of `tcp_send_thread` on this socket */
    method SendThreadTurn() returns (sent: seq<Emitted>)
      requires Valid() && SendAsserts(View())
      modifies this
      ensures Valid() && sbuf == old(sbuf) && rbuf == old(rbuf)
      ensures Outcome(View(), sent) == Transmit(old(View()))
    {
      var able := AmountAbleToSend();
      if able.None? {
        return [];
      }
      var flag := FlagToSend();
      if flag.Some? {
        sent := SendNext([], flag.value, 1);
      } else {
        sent := SendNext(able.value.data.value, 0, able.value.ret);
      }
    }

    /** `v_connect`, up to where it waits: refused with -1, or under way */
    method VConnect(isn: nat) returns (status: int, sent: seq<Emitted>)
      requires Valid()
      modifies this, sbuf.data, rbuf.data
      ensures Valid() && SameOrFresh()
      ensures Outcome(View(), sent) == Connect(old(View()), isn)
      ensures status == if CanConnect(old(state)) then 0 else -1
    {
      status, sent := -1, [];
      if CanConnect(state) {
        StartSendingAt(isn);
        status := 0;
        sent := MachineStep(ON_ACTIVE_OPEN, None, true);
      }
    }

    /** `v_listen` */
    method VListen() returns (status: int, sent: seq<Emitted>)
      requires Valid()
      modifies this, sbuf.data, rbuf.data
      ensures Valid() && SameOrFresh()
      ensures Outcome(View(), sent) == C.Listen(old(View()))
      ensures status == if CanListen(old(state)) then 0 else -1
    {
      status, sent := -1, [];
      if CanListen(state) {
        status := 0;
        sent := MachineStep(ON_PASSIVE_OPEN, None, true);
      }
    }

    /** `v_close`, up to where it waits: refused with -1, or under way */
    method VClose() returns (status: int, sent: seq<Emitted>)
      requires Valid()
      modifies this, sbuf.data, rbuf.data
      ensures Valid() && SameOrFresh()
      ensures Outcome(View(), sent) == C.Close(old(View()))
      ensures status == if CanClose(old(state)) then 0 else -1
    {
      status, sent := -1, [];
      if CanClose(state) {
        status := 0;
        sent := MachineStep(ON_CLOSE, None, true);
      }
    }

    /** One visit of `tcp_watchdog` */
    method WatchdogVisit(timeWait: bool, retransmit: bool, connecting: bool) returns (sent: seq<Emitted>)
      requires Valid()
      modifies this, sbuf.data, rbuf.data
      ensures Valid() && SameOrFresh()
      ensures Outcome(View(), sent) == Watchdog(old(View()), timeWait, retransmit, connecting)
    {
      sent := [];
      if state.CLOSED? {
        timer := false;
      }
      if state.TIME_WAIT? && timeWait {
        sent := MachineStep(ON_TIMEOUT, None, true);
      }
      if timer && retransmit {
        next, timer := una, false;
      }
      if state.SYN_SENT? && connecting {
        MachineReset();
      }
    }

    /** Whatever happens to a socket that satisfies the invariants of runs, under what runs ask of the
        environment: no assertion on the way fires, and the invariants hold afterwards. */
    method Perform(op: Op) returns (sent: seq<Emitted>)
      requires Valid() && Runs.Inv(View()) && Runs.Allowed(View(), op)
      modifies this, sbuf.data, rbuf.data
      ensures Valid() && SameOrFresh() && Runs.Inv(View())
      ensures C.Asserts(old(View()), op) && Outcome(View(), sent) == Apply(old(View()), op)
    {
      Runs.OpKeepsInv(View(), op);
      sent := [];
      var status: int;
      var result: ReadResult;
      match op {
        case OpConnect(isn) => status, sent := VConnect(isn);
        case OpListen => status, sent := VListen();
        case OpWrite(data) => status := VWrite(data);
        case OpRead(n) => result := VRead(n);
        case OpClose => status, sent := VClose();
        case OpTransmit => sent := SendThreadTurn();
        case OpArrive(p, routed) => sent := OnPacket(p, routed);
        case OpWatchdog(t, r, k) => sent := WatchdogVisit(t, r, k);
      }
    }
  }
}
