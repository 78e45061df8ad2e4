/** The connection state machine as data: states and inputs (`tcpstate.h`), the transition table
    (`tcpm_new`), and the classification of a packet (`tcpm_packet_to_input`). */
module Machine {
  import opened Common

  const FIN: byte := 0x01
  const SYN: byte := 0x02
  const RST: byte := 0x04
  const ACK: byte := 0x10

  predicate HasFin(flags: byte) { flags % 2 == 1 }
  predicate HasSyn(flags: byte) { (flags / 2) % 2 == 1 }
  predicate HasRst(flags: byte) { (flags / 4) % 2 == 1 }
  predicate HasAck(flags: byte) { (flags / 16) % 2 == 1 }

  datatype State =
    | CLOSED | SYN_SENT | SYN_RCVD | LISTEN | ESTAB | FIN_WAIT1 | FIN_WAIT2
    | TIME_WAIT | CLOSING | CLOSE_WAIT | LAST_ACK

  datatype Input =
    | ON_ACTIVE_OPEN | ON_PASSIVE_OPEN | ON_CLOSE | ON_TIMEOUT
    | ON_RECV_ACK | ON_RECV_SYN | ON_RECV_FIN | ON_RECV_RST
    | ON_RECV_SYN_ACK | ON_RECV_FIN_ACK | ON_INVALID | ON_NONE

  datatype CloseKind = CLOSE_OK | CLOSE_EOF

  /** A transition's action: `do_send_flags`, `do_connect`, `do_listen` or `do_close` with its
      argument, or none. */
  datatype Action =
    | DoSendFlags(flags: byte)
    | DoConnect(flags: byte)
    | DoListen
    | DoClose(kind: CloseKind)
    | NoAction

  datatype Transition = To(next: State, action: Action)

  function Lookup(state: State, input: Input): Option<Transition> {
    match (state, input)
    case (CLOSED, ON_ACTIVE_OPEN) => Some(To(SYN_SENT, DoSendFlags(SYN)))
    case (CLOSED, ON_PASSIVE_OPEN) => Some(To(LISTEN, DoListen))
    case (SYN_SENT, ON_CLOSE) => Some(To(CLOSED, NoAction))
    case (SYN_SENT, ON_RECV_SYN) => Some(To(SYN_RCVD, DoSendFlags(ACK)))
    case (SYN_SENT, ON_RECV_SYN_ACK) => Some(To(ESTAB, DoConnect(ACK)))
    case (LISTEN, ON_CLOSE) => Some(To(CLOSED, DoClose(CLOSE_OK)))
    case (LISTEN, ON_RECV_SYN) => Some(To(SYN_RCVD, DoSendFlags(SYN + ACK)))
    case (SYN_RCVD, ON_RECV_ACK) => Some(To(ESTAB, NoAction))
    case (ESTAB, ON_CLOSE) => Some(To(FIN_WAIT1, DoSendFlags(FIN)))
    case (ESTAB, ON_RECV_FIN) => Some(To(CLOSE_WAIT, DoSendFlags(ACK)))
    case (ESTAB, ON_NONE) => Some(To(ESTAB, NoAction))
    case (ESTAB, ON_RECV_ACK) => Some(To(ESTAB, NoAction))
    case (FIN_WAIT1, ON_RECV_FIN) => Some(To(CLOSING, DoSendFlags(ACK)))
    case (FIN_WAIT1, ON_RECV_FIN_ACK) => Some(To(TIME_WAIT, DoSendFlags(ACK)))
    case (FIN_WAIT1, ON_RECV_ACK) => Some(To(FIN_WAIT2, DoClose(CLOSE_OK)))
    case (FIN_WAIT1, ON_NONE) => Some(To(FIN_WAIT1, NoAction))
    case (FIN_WAIT2, ON_RECV_FIN) => Some(To(TIME_WAIT, DoSendFlags(ACK)))
    case (FIN_WAIT2, ON_NONE) => Some(To(FIN_WAIT2, NoAction))
    case (CLOSE_WAIT, ON_CLOSE) => Some(To(LAST_ACK, DoSendFlags(FIN)))
    case (CLOSE_WAIT, ON_RECV_ACK) => Some(To(CLOSE_WAIT, NoAction))
    case (CLOSING, ON_RECV_ACK) => Some(To(TIME_WAIT, NoAction))
    case (TIME_WAIT, ON_TIMEOUT) => Some(To(CLOSED, DoClose(CLOSE_EOF)))
    case (LAST_ACK, ON_RECV_ACK) => Some(To(CLOSED, DoClose(CLOSE_OK)))
    case _ => None
  }

  /** `tcpm_packet_to_input`: by the whole flag byte, not bit by bit. */
  function PacketToInput(flags: byte): Input {
    if flags == ACK then ON_RECV_ACK
    else if flags == SYN then ON_RECV_SYN
    else if flags == FIN then ON_RECV_FIN
    else if flags == RST then ON_RECV_RST
    else if flags == SYN + ACK then ON_RECV_SYN_ACK
    else if flags == FIN + ACK then ON_RECV_FIN_ACK
    else if flags == 0 then ON_NONE
    else ON_INVALID
  }

  // The guards of tcpstate.h

  predicate CanReceive(s: State) { s.ESTAB? || s.FIN_WAIT1? || s.FIN_WAIT2? }
  predicate CanRead(s: State) { !s.CLOSED? && !s.SYN_SENT? && !s.SYN_RCVD? && !s.LISTEN? }
  predicate CanSend(s: State) { s.ESTAB? || s.CLOSE_WAIT? }
  predicate CanClose(s: State) { s.LISTEN? || s.ESTAB? || s.CLOSE_WAIT? }
  predicate CanConnect(s: State) { s.CLOSED? }
  predicate CanListen(s: State) { s.CLOSED? }
}
