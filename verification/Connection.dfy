/** One TCP connection as a value, and what every operation of the source makes of it. The class
    `Socket` is proved to do exactly this in place; the theorems are about these functions. */
module Connection {
  import opened Common
  import opened RingBuffer
  import opened Machine
  import Window

  const WINDOW: nat := 4096           // SEND_WINDOW_SIZE
  const SIZE: nat := 2 * WINDOW + 2   // what in_closed passes to cbuf_new

  datatype Packet = Packet(seqNum: nat, ackNum: nat, flags: byte, window: uint16, payload: seq<byte>)

  /** A packet handed to the network, by `tcp_sendto` or (`raw`) by `tcp_sendto_raw`. */
  datatype Emitted = Emitted(packet: Packet, raw: bool)

  /** `tcp_socket_t`. `timer` says that `last_packet` is set. The last three fields are history that the
      source does not keep: the cells queued to be sent, and the bytes accepted from the network, since
      the last reset, and the highest position sent so far. */
  datatype Conn = Conn(
    state: State, prev: State,
    sbuf: seq<Cell>, rbuf: seq<Cell>,
    una: nat, next: nat, written: nat, flow: nat,
    rack: nat, rnext: nat, rread: nat,
    recvWindow: uint16, sendWindow: uint16, timer: bool,
    slog: seq<Cell>, got: seq<byte>, high: nat)

  /** A new state and what was sent on the way. */
  datatype Outcome = Outcome(conn: Conn, sent: seq<Emitted>)

  ghost predicate Valid(c: Conn) {
    |c.sbuf| == SIZE && |c.rbuf| == SIZE
  }

  function Blank(): (b: seq<Cell>)
    ensures |b| == SIZE
  {
    seq(SIZE, _ => Cell(BLANK, 0))
  }

  // Lifecycle

  /** `in_closed`: the socket starts over, with new buffers. */
  function Reinit(c: Conn): Conn {
    c.(timer := false, sendWindow := WINDOW, recvWindow := WINDOW,
       una := 0, next := 0, written := 0, flow := WINDOW,
       rack := 0, rnext := 0, rread := 0, rbuf := Blank(), sbuf := Blank(),
       slog := [], got := [], high := 0)
  }

  /** `machine_reset`: back to the root state, whose action is `in_closed`. */
  function Reset(c: Conn): Conn {
    Reinit(c.(state := CLOSED, prev := CLOSED))
  }

  /** `sys_socket(0)` */
  function NewSocket(): Conn {
    Conn(CLOSED, CLOSED, Blank(), Blank(), 0, 0, 0, WINDOW, 0, 0, 0, WINDOW, WINDOW, false, [], [], 0)
  }

  /** The socket `tcp_thread` clones for a caller, before it processes the caller's packet. */
  function Clone(isn: nat, incoming: nat): Conn {
    NewSocket().(state := LISTEN, una := isn, next := isn, written := isn, high := isn,
                 rack := incoming, rnext := incoming, rread := incoming)
  }

  // Emitting packets

  /** `tcp_sendto` */
  function SendTo(c: Conn, payload: seq<byte>, flags: byte): Outcome {
    Outcome(c.(timer := !(flags == ACK && payload == [])),
            [Emitted(Packet(c.next, c.rack, flags, Uint16(c.rread + c.recvWindow - c.rnext), payload), false)])
  }

  /** `send_dumb_packet`: answers `p` from its acknowledgement number. When there is no route
      `tcp_sendto_raw` resets the machine. */
  function SendDumb(c: Conn, p: Packet, flags: byte, routed: bool): (r: Outcome)
    requires Valid(c)
    ensures Valid(r.conn)
  {
    if routed then
      Outcome(c.(timer := flags != ACK),
              [Emitted(Packet(p.ackNum, c.rack, flags, c.sendWindow, []), true)])
    else
      Outcome(Reset(c), [])
  }

  /** `queue_up_flags` */
  function QueueFlags(c: Conn, flags: byte): Conn
    requires Valid(c)
  {
    c.(sbuf := Put(c.sbuf, c.written, Cell(FLAG, flags)),
       written := c.written + 1,
       slog := c.slog + [Cell(FLAG, flags)])
  }

  /** `send_packet_with_flags` */
  function SendFlags(c: Conn, flags: byte): (r: Outcome)
    requires Valid(c)
    ensures Valid(r.conn)
  {
    if flags == ACK then SendTo(c, [], ACK) else Outcome(QueueFlags(c, flags), [])
  }

  /** `queue_eof` */
  function QueueEof(c: Conn): Conn
    requires Valid(c)
  {
    c.(rbuf := Put(c.rbuf, c.rnext, Cell(EOF, 0)), rnext := c.rnext + 1)
  }

  // The state machine

  /** The action of a transition. Only `do_connect` looks at the packet. */
  function Act(c: Conn, action: Action, p: Option<Packet>): (r: Outcome)
    requires Valid(c) && (action.DoConnect? ==> p.Some?)
    ensures Valid(r.conn)
  {
    match action
    case DoSendFlags(flags) => SendFlags(c, flags)
    case DoConnect(flags) =>
      var n := p.value.seqNum;
      SendFlags(c.(rnext := c.rnext + n, rack := c.rack + n, rread := n), flags)
    case DoClose(CLOSE_EOF) => Outcome(QueueEof(c), [])
    case _ => Outcome(c, [])
  }

  /** The action of the state just entered. */
  function Enter(c: Conn): Conn
    requires Valid(c)
  {
    if c.state.CLOSED? then Reinit(c)
    else if c.state.CLOSE_WAIT? && !c.prev.CLOSE_WAIT? then QueueEof(c)
    else c
  }

  /** `machine_step`. An input with no transition answers the packet with a reset and starts over. */
  function Step(c: Conn, input: Input, p: Option<Packet>, routed: bool): (r: Outcome)
    requires Valid(c)
    requires Lookup(c.state, input).None? || input.ON_RECV_SYN_ACK? ==> p.Some?
    ensures Valid(r.conn)
  {
    match Lookup(c.state, input)
    case None => Outcome(Reset(c), SendDumb(c, p.value, RST, routed).sent)
    case Some(To(next, action)) =>
      var done := Act(c, action, p);
      Outcome(Enter(done.conn.(prev := c.state, state := next)), done.sent)
  }

  // Receiving

  /** `isValidSeqNum` */
  predicate IsValid(c: Conn, num: nat, len: nat) {
    var edge := c.rread + c.recvWindow;
    Window.BtmContains(SIZE, c.rack, edge, num) && Window.BtmContains(SIZE, c.rack, edge, num + len)
  }

  /** `isOldSeqNum` */
  predicate IsOld(c: Conn, num: nat) {
    Window.Lt(SIZE, num, c.rack)
  }

  /** `ackData` */
  function AckData(c: Conn, n: nat): Conn {
    c.(rnext := c.rnext + n, rack := c.rack + n,
       sendWindow := Uint16(c.rread + c.recvWindow - (c.rnext + n)))
  }

  /** `updateFromWindowAnnounce` */
  function UpdateWindow(c: Conn, window: uint16): Conn {
    c.(flow := c.una + window)
  }

  /** `processPacketForAck` */
  function ProcessAck(c: Conn, p: Packet): Conn {
    if HasAck(p.flags) && p.ackNum > c.una then c.(una := p.ackNum, timer := false) else c
  }

  predicate IsControl(p: Packet) { HasSyn(p.flags) || HasFin(p.flags) }
  predicate IsData(p: Packet) { !IsControl(p) && p.payload != [] }

  /** `haveRoomToReceive`, in unsigned arithmetic. */
  predicate HaveRoom(c: Conn, n: nat) {
    Uint32(c.rread + c.recvWindow - c.rnext) >= n
  }

  /** `do_recv_tcp` on an acceptable packet, up to and including the step of the machine. */
  function BeforeData(c: Conn, p: Packet, routed: bool): (r: Outcome)
    requires Valid(c)
    ensures Valid(r.conn)
  {
    var c1 := ProcessAck(UpdateWindow(c, p.window), p);
    var c2 := if IsControl(p) then AckData(c1, 1) else c1;
    Step(c2, PacketToInput(p.flags), Some(p), routed)
  }

  /** Whether `do_recv_tcp` copies the packet's payload into the receive buffer. */
  predicate Accepts(c: Conn, p: Packet, routed: bool)
    requires Valid(c)
  {
    && IsValid(c, p.seqNum, |p.payload|)
    && var mid := BeforeData(c, p, routed).conn;
    IsData(p) && HaveRoom(mid, |p.payload|) && CanReceive(mid.state)
  }

  /** `dataFromNetworkToBuffer` and `ackThisPacket` */
  function TakeData(c: Conn, data: seq<byte>): (r: Outcome)
    requires Valid(c) && |data| <= SIZE
    ensures Valid(r.conn)
  {
    SendTo(AckData(c.(rbuf := PutRange(c.rbuf, c.rnext, data), got := c.got + data), |data|), [], ACK)
  }

  /** `do_recv_tcp` */
  function Receive(c: Conn, p: Packet, routed: bool): (r: Outcome)
    requires Valid(c)
    requires Accepts(c, p, routed) ==> |p.payload| <= SIZE
    ensures Valid(r.conn)
  {
    if IsValid(c, p.seqNum, |p.payload|) then
      var mid := BeforeData(c, p, routed);
      if Accepts(c, p, routed) then
        var done := TakeData(mid.conn, p.payload);
        Outcome(done.conn, mid.sent + done.sent)
      else mid
    else if IsOld(c, p.seqNum) then
      var c1 := UpdateWindow(c, p.window);
      if c.state.SYN_RCVD? then Outcome(c1, []) else SendDumb(c1, p, ACK, routed)
    else
      SendDumb(c, p, RST, routed)
  }

  /** `tcp_thread`, once it has found the socket: a reset is obeyed unread. */
  function Arrive(c: Conn, p: Packet, routed: bool): (r: Outcome)
    requires Valid(c)
    requires !HasRst(p.flags) && Accepts(c, p, routed) ==> |p.payload| <= SIZE
    ensures Valid(r.conn)
  {
    if HasRst(p.flags) then Outcome(Reset(c), []) else Receive(c, p, routed)
  }

  // Reading

  /** What `getDataFromBuffer` returns: bytes (none of them meaning 0), or -1. */
  datatype ReadResult = Bytes(data: seq<byte>) | EndOfFile

  /** `getDataFromBuffer`, with the position it leaves `recv_read` at. */
  function GetData(b: seq<Cell>, lo: nat, hi: nat, max: nat): (r: (ReadResult, nat))
    requires |b| > 0
    ensures lo <= hi ==> lo <= r.1 <= hi
    decreases hi - lo
  {
    if lo >= hi || max == 0 then (Bytes([]), lo)
    else
      var range := GetRange(b, lo, Min(max, hi - lo));
      if range.ret < 0 then GetData(b, lo + 1, hi, max)
      else if range.data.None? then (EndOfFile, lo + 1)
      else (Bytes(range.data.value), lo + range.ret)
  }

  /** The assertions a call of `v_read` meets: the order of the pointers, and the length. */
  ghost predicate ReadAsserts(c: Conn, n: nat) {
    CanRead(c.state) && n > 0 ==> c.rread <= c.rnext && Min(n, c.rnext - c.rread) <= SIZE
  }

  /** `v_read`; -1 for want of permission and -1 for end of file are the same number there. */
  function Read(c: Conn, n: nat): (Conn, ReadResult)
    requires Valid(c)
  {
    if !CanRead(c.state) then (c, EndOfFile)
    else
      var r := GetData(c.rbuf, c.rread, c.rnext, n);
      (c.(rread := r.1), r.0)
  }

  // Sending

  /** `getAmountAbleToAccept` */
  function Room(c: Conn): int {
    c.una + c.sendWindow - c.written
  }

  /** How much of `data` `v_write` takes. */
  function Taken(c: Conn, data: seq<byte>): int {
    if CanSend(c.state) then Min(Room(c), |data|) else 0
  }

  /** `copyDataFromUser` */
  function CopyFromUser(c: Conn, data: seq<byte>): Conn
    requires Valid(c) && |data| <= SIZE
  {
    c.(sbuf := PutRange(c.sbuf, c.written, data),
       written := c.written + |data|,
       slog := c.slog + DataCells(data))
  }

  /** The assertions a call of `v_write` meets: room as an unsigned difference, the order of the two
      pointers, the window, and in `cbuf_put_range` the length. */
  ghost predicate WriteAsserts(c: Conn, data: seq<byte>) {
    var taken := Taken(c, data);
    CanSend(c.state) ==>
      && Uint32(Room(c)) > 0
      && c.written >= c.next
      && c.written + taken <= c.una + c.sendWindow
      && 0 <= taken <= SIZE
  }

  /** `v_write` */
  function Write(c: Conn, data: seq<byte>): Conn
    requires Valid(c) && WriteAsserts(c, data)
  {
    if CanSend(c.state) then CopyFromUser(c, data[..Taken(c, data)]) else c
  }

  /** The number of cells `getAmountAbleToSend` looks at: both differences are unsigned, so a flow edge
      behind `send_next` does not restrain it. */
  function Sendable(c: Conn): nat {
    Min(Uint32(c.written - c.next), Uint32(c.flow - c.next))
  }

  function Outgoing(c: Conn): Range
    requires Valid(c)
  {
    GetRange(c.sbuf, c.next, Sendable(c))
  }

  /** The assertions one turn of `tcp_send_thread` meets: in `getAmountAbleToSend` the sign of its
      `int`, in `cbuf_get_range` the length, that no EOF is found, and at the end that `send_next` has
      not passed `send_written`. */
  ghost predicate SendAsserts(c: Conn)
    requires Valid(c)
  {
    Sendable(c) > 0 ==>
      && Sendable(c) < 0x8000_0000
      && Sendable(c) <= SIZE
      && Outgoing(c).data.Some?
      && (Outgoing(c).ret > 0 ==> c.next + Outgoing(c).ret <= c.written)
  }

  /** One turn of `tcp_send_thread` on this socket: nothing, one flag, or one run of data. */
  function Transmit(c: Conn): (r: Outcome)
    requires Valid(c) && SendAsserts(c)
    ensures Valid(r.conn)
  {
    if Sendable(c) == 0 then Outcome(c, []) else Emit(c, Outgoing(c))
  }

  /** Sends the flag or the data that was read at `send_next`. */
  function Emit(c: Conn, range: Range): (r: Outcome)
    requires Valid(c) && range.data.Some?
    ensures Valid(r.conn)
  {
    var flag := range.ret < 0;
    var payload := if flag then [] else range.data.value;
    var done := SendTo(c, payload, if flag then At(c.sbuf, c.next).value else 0);
    Outcome(Advance(done.conn, if flag then 1 else range.ret), done.sent)
  }

  function Advance(c: Conn, n: nat): Conn {
    c.(next := c.next + n, high := Max(c.high, c.next + n))
  }

  // User calls and the watchdog

  /** `v_connect` with `seq_num` drawn as `isn` */
  function Connect(c: Conn, isn: nat): (r: Outcome)
    requires Valid(c)
    ensures Valid(r.conn)
  {
    if !CanConnect(c.state) then Outcome(c, [])
    else Step(c.(una := isn, next := isn, written := isn, high := isn), ON_ACTIVE_OPEN, None, true)
  }

  /** `v_listen` */
  function Listen(c: Conn): (r: Outcome)
    requires Valid(c)
    ensures Valid(r.conn)
  {
    if !CanListen(c.state) then Outcome(c, []) else Step(c, ON_PASSIVE_OPEN, None, true)
  }

  /** `v_close` */
  function Close(c: Conn): (r: Outcome)
    requires Valid(c)
    ensures Valid(r.conn)
  {
    if !CanClose(c.state) then Outcome(c, []) else Step(c, ON_CLOSE, None, true)
  }

  /** One visit of `tcp_watchdog`; the parameters say which of its three clocks have run out. */
  function Watchdog(c: Conn, timeWait: bool, retransmit: bool, connecting: bool): (r: Outcome)
    requires Valid(c)
    ensures Valid(r.conn)
  {
    var c1 := if c.state.CLOSED? then c.(timer := false) else c;
    var o2 := if c1.state.TIME_WAIT? && timeWait then Step(c1, ON_TIMEOUT, None, true) else Outcome(c1, []);
    var c3 := if o2.conn.timer && retransmit then o2.conn.(next := o2.conn.una, timer := false) else o2.conn;
    Outcome(if c3.state.SYN_SENT? && connecting then Reset(c3) else c3, o2.sent)
  }

  // Runs

  /** Everything that can happen to a connection. */
  datatype Op =
    | OpConnect(isn: nat)
    | OpListen
    | OpWrite(data: seq<byte>)
    | OpRead(n: nat)
    | OpClose
    | OpTransmit
    | OpArrive(packet: Packet, routed: bool)
    | OpWatchdog(timeWait: bool, retransmit: bool, connecting: bool)

  /** The assertions of the source that the operation would evaluate. */
  ghost predicate Asserts(c: Conn, op: Op)
    requires Valid(c)
  {
    match op
    case OpWrite(data) => WriteAsserts(c, data)
    case OpRead(n) => ReadAsserts(c, n)
    case OpTransmit => SendAsserts(c)
    case OpArrive(p, routed) => !HasRst(p.flags) && Accepts(c, p, routed) ==> |p.payload| <= SIZE
    case _ => true
  }

  ghost function Apply(c: Conn, op: Op): (r: Outcome)
    requires Valid(c) && Asserts(c, op)
    ensures Valid(r.conn)
  {
    match op
    case OpConnect(isn) => Connect(c, isn)
    case OpListen => Listen(c)
    case OpWrite(data) => Outcome(Write(c, data), [])
    case OpRead(n) => Outcome(Read(c, n).0, [])
    case OpClose => Close(c)
    case OpTransmit => Transmit(c)
    case OpArrive(p, routed) => Arrive(c, p, routed)
    case OpWatchdog(t, r, k) => Watchdog(c, t, r, k)
  }
}
