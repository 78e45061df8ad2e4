# Verification of the TCP data path and the RIP router

This project models the refactored copy of the program (`tcp_branch/`) in Dafny and proves properties of
the model. It has three parts.

**The TCP data path.** A connection owns two typed ring buffers of 8194 cells, and pointers into them
(`send_una`, `send_next`, `send_written`, `recv_ack`, `recv_next`, `recv_read`). A state machine, a send
thread, a watchdog that rewinds `send_next`, and the receive path all move these pointers.
`RingBuffer.dfy` and `Socket.dfy` model the code as it is, with an array and fields updated in place.
Every method is proved to do to the object what the function of the same operation in `Connection.dfy`
does to its value. The theorems are about those functions and about all runs of them:

- `Window.dfy`: when the comparison modulo the buffer size is exact.
- `Sending.dfy`, `Receiving.dfy`, `Arrival.dfy`: invariants of the two halves, kept by every operation
  and by any packet whatever.
- `Reading.dfy`, `EndOfStream.dfy`: what a reader is given, however it cuts its reads, and at a FIN.
- `Runs.dfy`: whole runs of one connection, through any number of resets. No assertion fires, no cell
  still to be sent is overwritten, and every segment carries what the user wrote at its positions.
- `RightEdge.dfy`: the advertised window never retreats.
- `Progress.dfy`, `Verdict.dfy`: what a connection does of its own when there is something to do, and what
  becomes of it on every packet, call and visit of the watchdog.
- `Handshake.dfy`, `Exchange.dfy`, `Delivery.dfy`, `Closing.dfy`: the three-way handshake, two connected sockets over a
  network that drops, duplicates, delays and reorders, and the end of a stream between them.
- `Acknowledged.dfy`, `Recovery.dfy`, `Farewell.dfy`: what is accepted is acknowledged, what is lost is sent
  again and arrives, and both ways of closing, up to whole lives of two sockets.
- `Shortfalls.dfy`, `Losses.dfy`: runs in which the code falls short of its purpose.

**The distance-vector router.** `RouteTable.dfy` models the hash table of entries, the conduit being a
reference to one of them; `Routes.dfy` says what its operations amount to on values; `WireForm.dfy` is the
form in which tables travel; `Network.dfy` lets any number of nodes exchange tables over a fixed graph
and proves soundness, freedom from loops and convergence, `Interfaces.dfy` that every route leaves over the
interface of the link to its next hop, and `Overtaking.dfy` shows what links that keep the order are needed
for. The cost rule is MIN(metric + cost, infinity)
of section 3.9.2 of RFC 2453, with infinity 16.

**Tear-down.** `Teardown.dfy` is the mark-and-sweep that frees a state machine.

`Common.dfy`, `Modulo.dfy` and `Machine.dfy` hold shared types, arithmetic, and the state machine's
transition table as data.

`dafny verify dfyconfig.toml` checks the project.

## What the model assumes

- Sequence numbers are natural numbers. The places where the source's width shows are written out: the
  16-bit window fields, and the unsigned differences that decide how much may be sent, written and
  received.
- Each stretch of code that the source runs under the socket's lock, and each user call, is one step.
  Clocks are parameters that say which timers have run out; `rand()` is a parameter; so is whether
  `van_driver_sendto` finds a route for a raw packet.
- Fresh buffer cells are blank: of none of the three types. The source leaves them as `malloc` finds them.
- The flag read through an `int` pointer in `getFlagToSend` is the one byte stored there.
- `htable` is a finite map gone through in an unspecified order, `bqueue` a FIFO, and `ht_size` the number
  of entries. An `int` has 32 bits, lowest byte first.
- Three fields of a connection are history, and are read by no operation: the cells queued and the bytes
  accepted since the last reset, and the highest position sent.
- A link of the router's network joins two nodes at most once in each direction, and ends at a fixed interface.
- The layers below carry packets of any size.

## Where the code falls short of its purpose

Each of these is proved with its exact condition, and shown to happen.

- `do_recv_tcp` copies any acceptable segment to `recv_next` and never calls `isNextSeqNum`
  (`tcp_branch/van_driver.c:127-161`). The bytes accepted remain a prefix of the sender's stream if and
  only if the segment was the next expected: `Delivery.InOrderIffNext`. The delivery theorem therefore
  assumes it of accepted segments; that others are accepted is `Handshake.OvertakingIsTaken`, and
  `Shortfalls.OvertakingCorrupts` is a run of two sockets in which what one has read is no prefix of what
  the other wrote.
- A FIN occupies a position in which nothing is written (`tcp_branch/van_driver.c:139-144`). Once a whole
  buffer of bytes has been accepted the reader is given one stale byte there before the end of file; it is
  not if and only if fewer than 8194 bytes were accepted: `EndOfStream.FinDelivers`. For every larger
  number `Shortfalls.StaleByteIsRead` gives a run in which the byte is read.
- In SYN_SENT the peer's initial sequence number is tested against a window at zero. The answer to a SYN
  is taken if and only if that number, and the end of what it carries, are below 4096 modulo 8194:
  `Handshake.AnswerTakenIff`.
- `v_connect` leaves the flow edge at 4096, and a waiting SYN can be sent if and only if the edge is not where
  the SYN stands, modulo 2^32: `Handshake.SynSendableIff`. So as long as nothing arrives the SYN is held
  back, however often the send thread and the watchdog take their turn, if and only if the initial
  sequence number is 4096: `Handshake.SynHeldBackIff`. A segment refused as old moves the edge too
  (`tcp_branch/van_driver.c:169`), and then only the window it announces decides:
  `Handshake.OldSegmentDecides`.
- `v_write` on an open connection aborts if and only if there is no room:
  `Runs.WriteSafeIffRoom`. The check in `canAcceptDataToSend` is unsigned, so it lets negative room
  through to the assertion after it. `Shortfalls.FullWindowAborts` is a run that fills the window.
- `processPacketForAck` does not bound the acknowledgement. One that ESTAB takes keeps the sending
  invariant if and only if it covers only what was sent: `Runs.AckSafeIffCovered`. After one that does not,
  `Shortfalls.WildAckAborts` leads, by a write, a send and a rewind, to where every write aborts.
- Lost bytes are not always sent again. The retransmission timer stops whenever a pure ACK is sent, as after
  every segment accepted, and whenever `send_una` moves, though bytes be outstanding (`tcp_branch/tcp.c:186`,
  `tcp_branch/seq.c:263`). When all has been sent and some of it is not acknowledged, a connection left alone sends
  anything again if and only if the timer is running: `Losses.SentAgainIff`. After any handshake one byte
  each way suffices to lose one for good: `Losses.LossIsReached`. While the timer runs, what was lost is
  recovered: `Recovery.LostIsRecovered`.
- Closing with bytes unacknowledged resets the connection. Any acceptable ACK takes FIN_WAIT1 to FIN_WAIT2, whatever
  it acknowledges (`tcp_branch/tcpstate.c:77`), and FIN_WAIT2 has no transition for the next. So the close goes on
  if and only if no more than one ACK comes before the peer's FIN: `Losses.SecondAckResets`. In
  `Losses.UnacknowledgedCloseResets` nothing is lost or reordered, and the peer loses a byte it had accepted.
  From sockets at rest both ways of closing are proved to end well: `Farewell.OneClosesThenOther`,
  `Farewell.BothCloseAtOnce`.
- A FIN that bears an ACK, which this program never sends, resets ESTAB and FIN_WAIT2: `Verdict.PacketLeads`.
- The side that closes first is never told of the end of the stream while its connection lasts: a FIN taken in
  FIN_WAIT1 or FIN_WAIT2 queues no EOF (`EndOfStream.FirstCloserSeesNoEnd`), and the EOF of `do_close` is
  wiped by `in_closed` in the same step, with all that is unread (`EndOfStream.TimeWaitDropsUnread`).
- The window test asks that both ends of a segment lie strictly inside the window, so a segment that
  exactly fills the window is refused, unlike in the table of section 3.3 of RFC 793:
  `Receiving.TestsAreExact`. The next segment expected, of no more than the window, is taken if and only if it is
  shorter than the window: `Losses.NextIsTakenIff`. One that is not shorter is answered with a reset, which its
  sender obeys: `Losses.FilledWindowResets`, in a state that `Losses.EdgeIsReached` reaches after any handshake.
- A received table makes a route dearer if and only if the route goes by way of its sender and the table
  offers more: `Network.DearerIff`. Where tables may overtake one another only soundness is claimed:
  `send_route_table` serialises and sends without one lock (`tcp_branch/van_driver.c:560-593`) and is called
  from several threads. On every graph with a short and a longer way to a destination there is a run in
  which overtaking makes a route dearer and leaves a next hop no closer: `Overtaking.OvertakingBreaksOrder`.
- The order in which `rtable_merge` goes through a table that lists its own sender may matter. It does not
  if and only if no offer is judged differently once the sender's own entry has been merged:
  `Routes.OrderIrrelevantIff`, with `Routes.OrderMatters` for a case in which it does. No node of this
  program sends such a table: no node ever has a route to itself (`Network.RoutesAreWalks`).
- `update_route` moves a usable route to another interface but leaves it the type of the old one
  (`tcp_branch/van_driver.c:1216-1218`). After hearing a neighbour the route to it has the type of the interface it
  was heard on if and only if there was no usable route to it, or one of that type: `Interfaces.TypeFollowsIff`,
  with `Interfaces.TypeStaysBehind` for a case.
- `rtable_serialize` reports the length of all entries, including those it filters out. The round trip
  holds, for every content of the buffer's end, if and only if nothing is filtered out:
  `WireForms.WireRoundTrip`.
- `rtable_unserialize` reads past the end of its buffer if and only if the length is not that of whole
  entries: `WireForms.Unserialize`.

## Model

| member | source | states |
|---|---|---|
| RingBuffer.CBuffer.constructor | tcp_branch/cbuffer.c:10-21 | a new buffer of the given size, all blank |
| RingBuffer.CBuffer.PutCell | tcp_branch/cbuffer.c:28-37 | exactly the cell at the position modulo the size changes |
| RingBuffer.CBuffer.GetCell | tcp_branch/cbuffer.c:39-55 | type and byte of the cell at the position modulo the size |
| RingBuffer.CBuffer.PutBytes | tcp_branch/cbuffer.c:57-67 | the loop over indices writes what `PutRange` describes cell by cell |
| RingBuffer.CBuffer.GetBytes | tcp_branch/cbuffer.c:81-109 | the loop with its three-part condition returns what `GetRange` describes |
| RingBuffer.PutRangeAt | tcp_branch/cbuffer.c:57-67 | at any position, on any lap: the written byte as DATA, or what was there |
| RingBuffer.PutRangeWithinLap | tcp_branch/cbuffer.c:57-67 | within one lap, exactly the positions written change |
| RingBuffer.ReadBack | tcp_branch/cbuffer.c:57-109 | reading back a written range of at least one byte is the identity, at any start and wrap |
| RingBuffer.ControlAlone | tcp_branch/cbuffer.c:94-108 | a leading FLAG is returned alone with -1, a leading EOF alone as NULL |
| RingBuffer.LongestRun | tcp_branch/cbuffer.h:52-60 | a leading DATA cell yields the maximal run of DATA cut at the length |
| Window.CmpByDistance | tcp_branch/cbuffer.h:39-44 | the comparison in terms of the distance on the circle; opposite counts as after |
| Window.WindowIsExact | tcp_branch/cbuffer.h:49 | for an even size and a window of at most half, containment holds if and only if the offset is below the window's length |
| Window.ExactIffHalf | tcp_branch/cbuffer.h:39-50 | the test is exact for every position if and only if the window is at most half the buffer |
| Sending.TableShape | tcp_branch/tcpstate.c:65-87 | every transition keeps the log's shape: one SYN-bearing flag, DATA, and a FIN exactly in the five states after closing |
| Sending.StepOnSending | tcp_branch/state.c:55-108 | what a step of the machine makes of the sending fields, for every state and input |
| Sending.StepKeepsSending | tcp_branch/state.c:55-108 | every step, also one without a transition, keeps the sending invariant |
| Sending.WriteKeepsSending | tcp_branch/seq.c:291-299 | writing overwrites no cell the log still needs |
| Sending.ReceiveKeepsSending | tcp_branch/van_driver.c:120-184 | any packet that acknowledges no more than was sent keeps the sending invariant, also when it lifts `send_una` over `send_next` |
| Sending.WatchdogKeepsSending | tcp_branch/van_driver.c:203-227 | rewinding `send_next` keeps the sending invariant |
| Sending.TransmitAsserts | tcp_branch/seq.c:210-240 | no EOF is found in the send buffer, and no length or sign assertion fires |
| Sending.TransmitFaithful | tcp_branch/van_driver.c:255-284 | one turn sends at most one segment, at `send_next`, with just the cells logged there, and moves past it |
| Sending.FlowNotOverrun | tcp_branch/seq.c:210-223 | a turn that starts at or before the flow edge ends so |
| Receiving.TestsAreExact | tcp_branch/seq.c:10-22 | in every reachable state: acceptable if and only if offset plus length is below the window's length, old if and only if the offset exceeds half the buffer, and never both |
| Receiving.TestsAgreeNearby | tcp_branch/seq.c:10-22 | within half a buffer the tests agree with the comparison of the numbers themselves |
| Receiving.StepOnPointers | tcp_branch/statefunc.c:42-215 | what a step makes of the receiving pointers: reset, taken from a SYN, an EOF queued, or nothing |
| Receiving.AcceptedFits | tcp_branch/seq.c:130-136 | what is accepted fits the buffer, so the assertion on the way in holds |
| Receiving.ReceiveKeepsReceiving | tcp_branch/van_driver.c:120-184 | an arbitrary packet keeps the receiving invariant |
| Receiving.OpKeepsReceiving | tcp_branch/statefunc.c:42-146 | every operation keeps it: `recv_next` is `recv_ack`, plus one in CLOSE_WAIT and LAST_ACK, and at most a window past `recv_read` |
| Arrival.TakeDataHolds | tcp_branch/seq.c:130-136 | accepting a segment extends the bytes the buffer holds by its payload |
| Arrival.ReceiveKeepsData | tcp_branch/van_driver.c:120-184 | an arbitrary packet keeps the buffer's contents tied to the bytes accepted, extended only by an accepted payload |
| Arrival.OpKeepsData | tcp_branch/statefunc.c:42-215 | so does every operation |
| Reading.ReadTakes | tcp_branch/seq.c:62-122 | one read takes the next bytes up to an EOF, at least one if there is any; -1 if and only if no byte precedes an EOF; flags are passed over |
| Reading.DrainDelivers | tcp_branch/tcp.c:417-440 | reads of any positive sizes deliver a prefix of the stream, end of file only after all of it, and enough reads deliver all |
| Reading.ChunksDoNotMatter | tcp_branch/tcp.c:417-440 | two ways of cutting enough reads deliver the same |
| EndOfStream.StreamIsUnread | tcp_branch/seq.c:62-122 | while open, what can be read is exactly the bytes accepted and not yet read |
| EndOfStream.ReadIsGreedy | tcp_branch/seq.c:62-122 | while open, a read returns as many of the unread bytes as it asks for, or all of them |
| EndOfStream.FinDelivers | tcp_branch/statefunc.c:137-146 | after a FIN: the unread bytes, perhaps a stale one, then exactly one EOF, in the last cell; nothing stale if and only if fewer bytes than the buffer's size were accepted |
| EndOfStream.SettledIsQuiet | tcp_branch/van_driver.c:120-284 | after the peer's FIN nothing short of a reset or the end of TIME_WAIT, our own close included, changes what the reader finds |
| EndOfStream.LingeringIsDraining | tcp_branch/tcp.c:417-440 | reads interleaved with anything that may happen after the peer's FIN deliver what they would alone |
| EndOfStream.EndOfStreamDelivered | tcp_branch/statefunc.c:137-146 | on the first lap, after a FIN, the reader gets all remaining bytes and then -1, whatever else arrives |
| EndOfStream.FirstCloserSeesNoEnd | tcp_branch/tcpstate.c:77-81 | after a FIN in FIN_WAIT1 or FIN_WAIT2 the reads deliver the unread bytes, perhaps a stale one, and never -1 |
| EndOfStream.TimeWaitDropsUnread | tcp_branch/tcpstate.c:86 | the end of TIME_WAIT empties the buffer, unread bytes and EOF included, and every later read fails |
| Runs.WriteSafeIffRoom | tcp_branch/seq.c:291-299 | the three assertions of a write hold if and only if the connection may not send or has room |
| Runs.AckSafeIffCovered | tcp_branch/seq.c:255-275 | in ESTAB an acceptable ACK keeps the sending invariant if and only if it covers only what was sent |
| Runs.OpKeepsInv | tcp_branch/van_driver.c:120-284 | every operation fires no assertion and keeps all invariants |
| Runs.RunIsSafe | tcp_branch/cbuffer.c:81-92 | in every run no assertion fires |
| Runs.Capacity | tcp_branch/seq.c:291-299 | in every run send_una <= H <= send_written, send_next <= H <= send_next + 4097, send_written - send_next <= 8193 < 8194, H being the highest position sent |
| Runs.OpExtendsLog | tcp_branch/tcp.c:40-51 | every operation extends the bytes of the log by just what the user wrote with it, or empties the log |
| Runs.LogIsWhatWasWritten | tcp_branch/tcp.c:444-460 | in every run the log is what the user wrote between its control cells |
| Runs.WrittenGrows | tcp_branch/tcp.c:444-460 | within one connection the bytes written only grow and the start stays |
| Runs.SegmentFidelity | tcp_branch/seq.c:210-337 | every data segment ever sent, first time or again, carries exactly the bytes the user wrote at its positions |
| Progress.TurnSends | tcp_branch/van_driver.c:255-284 | when something waits and the flow edge is ahead, a turn of the send thread sends one segment, numbered `send_next`, with what is queued there, and starts the timer |
| Progress.TurnSendsAll | tcp_branch/seq.c:210-240 | such a turn goes on to all that is written, to the flow edge, or to a flag |
| Progress.VisitRewinds | tcp_branch/van_driver.c:213-220 | a visit on which the retransmission clock alone has run out takes `send_next` to `send_una`, stops the timer and changes nothing else |
| Progress.LostIsSentAgain | tcp_branch/van_driver.c:213-284 | after such a visit, with something unacknowledged and the flow edge ahead, the next turn sends one segment numbered `send_una`, faithful to the log |
| Progress.WriteFillsTheWindow | tcp_branch/tcp.c:444-460 | `v_write` appends a prefix of the data, all of it or as much as fills the window |
| Progress.AcceptedIsAcknowledged | tcp_branch/van_driver.c:154-161 | accepting a payload sends just one packet, a pure ACK of it, whose window reaches to the right edge |
| Verdict.PacketLeads | tcp_branch/tcpstate.c:65-87 | for every state and flag byte, where an acceptable packet leads; one without a place resets the socket and is answered with a reset |
| Verdict.AnswerIs | tcp_branch/statefunc.c:13-67 | an acceptable packet that ends nothing is answered at once with one pure ACK of all that has come if it is a FIN or met SYN_SENT, and otherwise, but for its data, not at all |
| Verdict.TakenIff | tcp_branch/van_driver.c:152-161 | in any state a payload is taken if and only if the window test admits it, it is no longer than the window, bears no SYN or FIN, and leaves the connection where it may receive |
| Verdict.AcknowledgementCounts | tcp_branch/van_driver.c:131-137 | in any state an acceptable packet that ends nothing moves `send_una` forward only, and the flow edge to its window past where `send_una` was |
| Verdict.RefusalAnswers | tcp_branch/van_driver.c:168-183 | an old segment is answered with a raw ACK, but not in SYN_RCVD, any other not acceptable with a raw reset, and what each leaves of the connection |
| Verdict.ResetsAreObeyed | tcp_branch/van_driver.c:413-426 | a reset, a call unanswered too long and an answer without a route all leave a new socket |
| Verdict.OpensFromClosed | tcp_branch/tcp.c:333-372 | `v_connect` and `v_listen` work in CLOSED only; the one queues its SYN at the number drawn |
| Verdict.RefusedCalls | tcp_branch/tcpstate.h:58-60 | `v_write` does nothing but in ESTAB and CLOSE_WAIT; `v_read` fails in CLOSED, LISTEN, SYN_SENT and SYN_RCVD |
| Verdict.VisitDoesNothing | tcp_branch/van_driver.c:205-227 | without a clock run out that matters in the state, a visit of the watchdog changes nothing |
| RightEdge.AdvertisesEdge | tcp_branch/tcp.c:156-157 | between the handshake and the end of the peer's stream, every packet sent through `tcp_sendto` advertises recv_read + 4096 |
| RightEdge.OnlyReadsMoveEdge | tcp_branch/seq.c:44-51 | in the same states only a read moves the edge, and forward |
| RightEdge.RightEdgeNeverRetreats | tcp_branch/tcp.c:145-191 | in every run, of two packets sent before EOF is queued the later advertises no less (section 3.7 of RFC 793) |
| Handshake.AnswerTakenIff | tcp_branch/seq.c:15-22 | SYN_SENT takes a SYN with ACK, data or none, if and only if its number and its end are below 4096 modulo 8194 |
| Handshake.SynSendableIff | tcp_branch/seq.c:210-223 | in SYN_SENT something can be sent if and only if the SYN is waiting and the flow edge differs from `send_next` modulo 2^32 |
| Handshake.SynSentIff | tcp_branch/tcp.c:364-366 | straight after `v_connect` the SYN can be sent if and only if the initial number is not 4096 |
| Handshake.SynHeldBackIff | tcp_branch/van_driver.c:203-284 | through any operations but arrivals that stay in SYN_SENT and hold a turn of the send thread, nothing is sent if and only if the initial number is 4096 |
| Handshake.OldSegmentDecides | tcp_branch/van_driver.c:168-177 | after a segment refused as old a waiting SYN can be sent if and only if the segment announced a window |
| Handshake.CallerSendsSyn | tcp_branch/tcp.c:352-372 | the caller's SYN and the state after it |
| Handshake.CloneTakesSyn | tcp_branch/van_driver.c:373-409 | the cloned socket takes the SYN, whatever the two initial numbers |
| Handshake.CloneSendsAnswer | tcp_branch/van_driver.c:255-270 | its answer and the state after it |
| Handshake.CallerTakesAnswer | tcp_branch/statefunc.c:42-67 | the caller's pointers after `do_connect`, and its acknowledgement |
| Handshake.CloneTakesAck | tcp_branch/tcpstate.c:72 | the cloned socket enters ESTAB |
| Handshake.HandshakeEstablishes | tcp_branch/van_driver.c:373-426 | the two sockets the step lemmas end in, with what is left of the exchange, meet the start of the delivery theorem |
| Exchange.CallerIsReached | tcp_branch/tcp.c:352-372 | a run of a new socket that calls ends in ESTAB, when the two initial numbers allow it |
| Exchange.CalleeIsReached | tcp_branch/van_driver.c:373-426 | a run of the cloned socket ends in ESTAB, whatever the two initial numbers |
| Exchange.ExchangeLeadsToStart | tcp_branch/van_driver.c:120-426 | the two runs together: each socket is given just what the other sent, and they end in a system from which delivery is proved |
| Delivery.EndMoves | tcp_branch/van_driver.c:120-284 | a move of one end keeps what is known of both directions and of every packet in the network |
| Delivery.SystemStaysInv | tcp_branch/van_driver.c:120-284 | so every run does |
| Delivery.BytesDeliveredInOrder | tcp_branch/van_driver.c:120-184 | in every run in which accepted segments are the next expected, what either end has read is a prefix of what the other wrote, no ACK exceeds what was sent, and no assertion fires |
| Delivery.InOrderIffNext | tcp_branch/van_driver.c:127-161 | accepting a segment leaves the bytes accepted a prefix of every stream consistent with what was seen if and only if its number is `recv_ack` |
| Handshake.PlainAcceptedIffValid | tcp_branch/van_driver.c:127-161 | in ESTAB a data segment is copied to the buffer if and only if the window test admits it |
| Handshake.OvertakingIsTaken | tcp_branch/van_driver.c:127-161 | in ESTAB every in-window segment that overtakes others is accepted, its bytes following those accepted before |
| Closing.OthersSendNoFin | tcp_branch/tcp.c:53-66 | no operation but the send thread's turn sends a FIN |
| Closing.StaysSpent | tcp_branch/tcpstate.c:65-87 | an end that has closed or was reset never writes again, whatever arrives, unless it connects or listens anew |
| Closing.MoveKeepsFins | tcp_branch/van_driver.c:120-284 | every FIN in the network stands right after all that its sender wrote, and its sender writes no more |
| Closing.WholeStreamDelivered | tcp_branch/statefunc.c:137-146 | between two sockets, after a FIN accepted on the first lap, a reader given end of file has read exactly what the peer ever wrote if and only if the FIN was the next expected |
| Acknowledged.AcceptedIsAlwaysAcknowledged | tcp_branch/van_driver.c:154-161 | in every run of two sockets from ESTAB, once an end has accepted bytes a pure ACK of all it has accepted has been sent to the other |
| Recovery.LostIsRecovered | tcp_branch/van_driver.c:120-284 | between two sockets: rewind, segment sent again, accepted in its turn, acknowledged, and `send_una` past it |
| Farewell.CloseQueuesFin | tcp_branch/tcpstate.c:73-83 | closing in ESTAB (CLOSE_WAIT) leads to FIN_WAIT1 (LAST_ACK), queues just a FIN right after all that was written, sends nothing at once and ends writing |
| Farewell.CloseElsewhere | tcp_branch/tcp.c:464-472 | closing in LISTEN starts over, and elsewhere does nothing |
| Farewell.FinIsNumberedLast | tcp_branch/van_driver.c:261-270 | when all before it has been sent and the flow edge is ahead, a turn sends the FIN, numbered right after all the user wrote |
| Farewell.FinIsTaken | tcp_branch/tcpstate.c:74-80 | a FIN leads from ESTAB to CLOSE_WAIT with an EOF queued, from FIN_WAIT1 to CLOSING and from FIN_WAIT2 to TIME_WAIT, and is acknowledged at once |
| Farewell.AckIsTaken | tcp_branch/tcpstate.c:77-87 | a pure ACK leads from FIN_WAIT1 to FIN_WAIT2, from CLOSING to TIME_WAIT, and ends LAST_ACK |
| Farewell.TimeWaitEnds | tcp_branch/tcpstate.c:86 | the timeout of TIME_WAIT starts the socket over |
| Farewell.OneClosesThenOther | tcp_branch/tcpstate.c:65-87 | two sockets at rest, one closing and then the other, each given what the other sent: FIN_WAIT1, FIN_WAIT2, TIME_WAIT, CLOSED and CLOSE_WAIT, LAST_ACK, CLOSED |
| Farewell.BothCloseAtOnce | tcp_branch/tcpstate.c:65-87 | both closing at once: FIN_WAIT1, CLOSING, TIME_WAIT, CLOSED at both ends |
| Farewell.WholeLife | tcp_branch/van_driver.c:120-426 | runs of a new socket and of the one cloned for it, from the handshake to where both have started over |
| Losses.SentAgainIff | tcp_branch/van_driver.c:213-220 | all being sent and some of it outstanding, a connection left alone sends anything again if and only if the timer was running |
| Losses.LostForGood | tcp_branch/tcp.c:181-187 | a byte sent, and the peer's next segment accepted: if the byte was lost it is never sent again while the connection is left alone |
| Losses.LossIsReached | tcp_branch/tcp.c:181-187 | a run from any handshake that ends so, the segment being one the peer sends |
| Losses.SecondAckResets | tcp_branch/tcpstate.c:77-81 | after closing, no acceptable ACK leaves FIN_WAIT1, one leads to FIN_WAIT2, two or more to CLOSED |
| Losses.UnacknowledgedCloseResets | tcp_branch/tcpstate.c:77-81 | a byte written, sent and followed by a close, all delivered in order and acknowledged: both ends are reset and the byte cannot be read |
| Losses.NextIsTakenIff | tcp_branch/seq.c:15-22 | the next segment expected, of no more than the window, is taken if and only if it is shorter than the window, and otherwise answered with a reset |
| Losses.FilledWindowResets | tcp_branch/seq.c:15-22 | a write of just the window's size is sent in one segment, refused with a reset, and the sender is reset |
| Losses.EdgeIsReached | tcp_branch/seq.c:142-145 | two runs from any handshake that end where that can happen |
| Shortfalls.FullWindowAborts | tcp_branch/seq.c:291-299 | a run after which every further write fails its assertions |
| Shortfalls.StaleByteIsRead | tcp_branch/van_driver.c:139-144 | for every number of bytes from 8194 on, a run in which a byte of the lap before is read after the FIN |
| Shortfalls.OvertakingCorrupts | tcp_branch/van_driver.c:127-161 | for any two bytes that differ, a run of two sockets from the handshake in which the second written is the first read |
| Shortfalls.WildAckAborts | tcp_branch/seq.c:255-275 | an ACK of two or more bytes never sent, a write, a send and a rewind, after which every write aborts |
| Sockets.Socket.constructor | tcp_branch/tcp.c:290-298 | a new socket, CLOSED or, cloned, LISTEN |
| Sockets.Socket.Adopt | tcp_branch/van_driver.c:390-399 | the pointers of a cloned socket |
| Sockets.Socket.InClosed | tcp_branch/statefunc.c:163-197 | all pointers and windows start over, with new buffers |
| Sockets.Socket.MachineReset | tcp_branch/state.c:45-53 | back to CLOSED, started over |
| Sockets.Socket.TcpSendTo | tcp_branch/tcp.c:145-191 | the packet sent and the timer, for every state |
| Sockets.Socket.SendDumbPacket | tcp_branch/tcp.c:80-141 | the raw answer, or the reset when there is no route |
| Sockets.Socket.QueueUpFlags | tcp_branch/tcp.c:40-51 | one FLAG cell at `send_written`, logged |
| Sockets.Socket.SendPacketWithFlags | tcp_branch/tcp.c:53-66 | a pure ACK at once, anything else queued |
| Sockets.Socket.QueueUpEof | tcp_branch/tcp.c:31-38 | one EOF cell at `recv_next`, not acknowledged |
| Sockets.Socket.RunAction | tcp_branch/statefunc.c:13-86 | the action of a transition |
| Sockets.Socket.EnterState | tcp_branch/state.c:99-103 | the entry action of the state just entered |
| Sockets.Socket.TakeTransition | tcp_branch/state.c:77-107 | action, prev, current and entry action, in place |
| Sockets.Socket.MachineStep | tcp_branch/state.c:55-108 | one step in place: action, prev, current, entry action, or error and reset |
| Sockets.Socket.UpdateFromWindowAnnounce | tcp_branch/seq.c:142-145 | the flow edge |
| Sockets.Socket.ProcessPacketForAck | tcp_branch/seq.c:255-275 | `send_una` moves forward only, and then the timer stops |
| Sockets.Socket.ProcessControl | tcp_branch/van_driver.c:131-150 | the first part of `do_recv_tcp` in place |
| Sockets.Socket.TakeFromNetwork | tcp_branch/van_driver.c:155-161 | payload into the buffer, pointers, window and ACK |
| Sockets.Socket.Refuse | tcp_branch/van_driver.c:168-183 | an old segment is answered with an ACK (not in SYN_RCVD), any other with a reset |
| Sockets.Socket.ReceiveAcceptable | tcp_branch/van_driver.c:127-166 | the acceptable case in place |
| Sockets.Socket.DoRecvTcp | tcp_branch/van_driver.c:120-184 | `do_recv_tcp` in place, every branch |
| Sockets.Socket.CheckValid | tcp_branch/seq.c:15-22 | the window test on the object is that on its value |
| Sockets.Socket.CheckOld | tcp_branch/seq.c:10-12 | likewise the test for old segments |
| Sockets.Socket.AckBytes | tcp_branch/seq.c:44-51 | both pointers and the 16-bit window |
| Sockets.Socket.OnPacket | tcp_branch/van_driver.c:411-430 | a reset is obeyed unread, anything else processed |
| Sockets.Socket.GetDataFromBuffer | tcp_branch/seq.c:62-122 | the flag-skipping recursion ends, and returns and consumes what `GetData` says |
| Sockets.Socket.VRead | tcp_branch/tcp.c:417-440 | `v_read` in place |
| Sockets.Socket.VWrite | tcp_branch/tcp.c:444-460 | `v_write` in place, with what it takes |
| Sockets.Socket.AmountAbleToSend | tcp_branch/seq.c:210-240 | what can be sent, with the unsigned differences |
| Sockets.Socket.FlagToSend | tcp_branch/seq.c:160-207 | whether a flag is next, and which; none when nothing is waiting |
| Sockets.Socket.SendThreadTurn | tcp_branch/van_driver.c:255-284 | one turn of the send thread in place |
| Sockets.Socket.VConnect | tcp_branch/tcp.c:352-375 | `v_connect` up to where it waits, refused with -1 unless CLOSED |
| Sockets.Socket.VListen | tcp_branch/tcp.c:333-347 | `v_listen`, refused with -1 unless CLOSED |
| Sockets.Socket.VClose | tcp_branch/tcp.c:464-472 | `v_close` up to where it waits, refused with -1 where it may not be called |
| Sockets.Socket.WatchdogVisit | tcp_branch/van_driver.c:203-227 | one visit of the watchdog |
| Sockets.Socket.Perform | tcp_branch/van_driver.c:120-284 | from any object state that satisfies the invariants, every operation in place fires no assertion and keeps them |
| Teardown.StateMachine.MarkTargets | tcp_branch/state.c:147-157 | the unmarked targets are marked and queued once each, and every transition is freed |
| Teardown.StateMachine.Sweep | tcp_branch/state.c:159-162 | draining the queue frees just what is newly marked, none of it twice |
| Teardown.StateMachine.StateDestroy | tcp_branch/state.c:130-170 | ends on any graph; frees its argument and what it marks with all transitions, nothing twice, all of it reachable |
| Teardown.StateMachine.Destroy | tcp_branch/state.c:32-35 | with no marks set: a state is freed if and only if it is reachable from the root, a transition if and only if its state is |
| Teardown.ClosedHoldsReachable | tcp_branch/state.c:146-162 | a set that holds the targets of its states holds all that is reachable |
| Teardown.FreedMore | tcp_branch/state.c:159-162 | what one queued state adds to what has been freed |
| Routes.FoundIs | tcp_branch/van_driver.c:1204-1208 | the route found is an entry below 16: the address's own, or the default route for an address without an entry |
| Routes.ReportsIffChanged | tcp_branch/van_driver.c:1210-1222 | `update_route` reports a change if and only if it makes one |
| Routes.UpdateIsFound | tcp_branch/van_driver.c:1210-1246 | afterwards the route is found as given, but for the type of one that was usable, and nothing else has changed |
| Routes.MergeIsPointwise | tcp_branch/rtable.c:17-66 | whenever no offer is judged differently once the conduit's own entry is merged, and so whenever the table lists none, every order of iteration does one rule per destination (keep, adopt, forced update), although the conduit is an entry of the table being changed |
| Routes.OrderIrrelevantIff | tcp_branch/rtable.c:17-66 | all orders of iteration give the same table if and only if no offer is judged differently once the conduit's own entry has been merged |
| Routes.ConduitFirst | tcp_branch/rtable.c:27-60 | with the conduit's own entry first, every other offer is judged by the conduit as that entry makes it |
| Routes.ConduitLast | tcp_branch/rtable.c:27-60 | with it last, by the conduit as it was |
| Routes.OrderMatters | tcp_branch/rtable.c:27-60 | an instance: two orders of one table give two costs |
| Routes.HeardIsPointwise | tcp_branch/van_driver.c:523-537 | a turn of `rip_monitor` is that rule after a route of cost 1 to the sender, under the same condition |
| RouteTables.RouteTable.constructor | tcp_branch/rtable.c:68-84 | an empty table |
| RouteTables.RouteTable.Get | tcp_branch/rtable.c:101-116 | the entry, or the default route, or NULL |
| RouteTables.RouteTable.Put | tcp_branch/rtable.c:119-131 | exactly one route is added or replaced |
| RouteTables.RouteTable.Lookup | tcp_branch/van_driver.c:1204-1208 | the entry found, unless it costs 16 |
| RouteTables.RouteTable.Update | tcp_branch/van_driver.c:1210-1246 | the whole new table, and whether anything changed |
| RouteTables.RouteTable.Adopt | tcp_branch/rtable.c:55-58 | one entry is overwritten from the conduit, perhaps itself |
| RouteTables.RouteTable.MergeEntry | tcp_branch/rtable.c:27-60 | one entry of the received table, in place |
| RouteTables.RouteTable.Merge | tcp_branch/rtable.c:17-66 | the loop, in whatever order, does what `MergeAll` says for that order, and leaves the received table alone |
| RouteTables.RouteTable.Hear | tcp_branch/van_driver.c:523-537 | one turn of `rip_monitor` in place |
| RouteTables.RouteTable.PoisonIface | tcp_branch/rtable.c:162-176 | exactly the routes over the interface get cost 16 |
| Network.HearingTakes | tcp_branch/van_driver.c:516-540 | what a table heard makes of each destination: what was there, or the offer |
| Network.DearerIff | tcp_branch/rtable.c:47-58 | hearing a table makes a route dearer if and only if it goes by way of the sender and is offered for more |
| Network.KeptIff | tcp_branch/rtable.c:47-49 | a route that does not go by way of the sender stays as it is unless the table offers the destination for strictly less |
| Network.StepKeepsSound | tcp_branch/van_driver.c:516-593 | every step, with tables late, lost, repeated or reordered and interfaces going down, keeps every route a walk |
| Network.RoutesAreWalks | tcp_branch/van_driver.c:516-540 | in every such run a cost below 16 is the length of a walk, and no node has a route to itself |
| Network.TakingIsBelow | tcp_branch/rtable.c:47-58 | a table no cheaper route rests on makes none dearer |
| Network.StepStaysWell | tcp_branch/van_driver.c:516-593 | with links that keep the order, every step keeps the tables on each wire, its two ends and what its end has learned in line |
| Network.CostsNeverRise | tcp_branch/rtable.c:47-58 | in every such run no step makes any route dearer |
| Network.NextHopIsCloser | tcp_branch/rtable.c:47-58 | in every such run the next hop is a neighbour and is the destination or holds a strictly cheaper route |
| Network.HopsArrive | tcp_branch/rtable.c:47-58 | in every such run following next hops arrives, within as many hops as the route costs |
| Network.TablesConverge | tcp_branch/rtable.c:17-66 | after k rounds, in any order, every destination at distance at most k and below 16 costs its distance |
| Network.LookupFindsTheNear | tcp_branch/van_driver.c:1204-1208 | after fifteen rounds a route is found if and only if the destination is fewer than 16 links away |
| Interfaces.HearingCarries | tcp_branch/van_driver.c:516-537 | after hearing a neighbour over an interface, the route to it and every route taken from its table leave over that interface |
| Interfaces.RoutesLeaveByTheirLink | tcp_branch/rtable.c:55-58 | in every run, late tables and poisoning included, every route leaves over the interface of the link to its next hop |
| Interfaces.PoisonCuts | tcp_branch/rtable.c:162-176 | in every run, when an interface goes down the routes still found are just those whose link ends at another, unchanged |
| Interfaces.TypeFollowsIff | tcp_branch/van_driver.c:1210-1222 | the route to a neighbour has the type of the interface it was heard on if and only if there was no usable route, or one of that type |
| Interfaces.TypeStaysBehind | tcp_branch/van_driver.c:1210-1222 | an instance in which it has not |
| Overtaking.Receives | tcp_branch/rtable.c:47-58 | a received table decides the route to a destination that goes by way of its sender, at any place of the wire |
| Overtaking.OvertakingBreaksOrder | tcp_branch/van_driver.c:560-593 | on every graph with such a diamond of links, a run in which a late table raises a cost and leaves a next hop no closer |
| WireForms.EntryLayout | tcp_branch/rtable.h:13-19 | where each field of an entry stands in its 20 bytes, and in which order its four |
| WireForms.EntryRoundTrip | tcp_branch/rtable.c:222-233 | an entry of five 32-bit integers, negative ones included, comes back from its bytes |
| WireForms.DecodedEncoded | tcp_branch/rtable.c:179-220 | entries one after the other come back, all bytes consumed |
| WireForms.WireRoundTrip | tcp_branch/rtable.c:179-220 | the received table equals the one sent, whatever the end of the buffer holds, if and only if nothing is filtered out |
| WireForms.WriteEntry | tcp_branch/rtable.c:192-194 | one entry is appended, or skipped |
| WireForms.Serialize | tcp_branch/rtable.c:179-203 | the buffer, for some order of iteration; the assertion on its length never fires |
| WireForms.Unserialize | tcp_branch/rtable.c:205-220 | the table of all whole entries, the later of two with one address staying; an overrun if and only if the length is not a multiple of 20 |

## Left out

- Sequence numbers past 2^31 and their wrap-around: the source lists them as not yet tried
  (`tcp_branch/URGENT_REMINDERS:24`) and `cbuf_get_range` asserts a non-negative start.
- Delivery.BytesDeliveredInOrder: assumes that accepted segments are the next expected, which the code does
  not check, and that no FIN has arrived; `Closing.WholeStreamDelivered` goes on from there.
- Closing.WholeStreamDelivered: covers a FIN that meets ESTAB, and does not follow the other end after it
  has been accepted; `Farewell.dfy` follows both ends, from sockets at rest.
- Farewell.OneClosesThenOther: starts from sockets at rest, because of what `Losses.UnacknowledgedCloseResets` shows, and
  does not follow a connection over which packets of the close are lost.
- Recovery.LostIsRecovered: follows one segment, from where the peer has accepted all before it.
- Losses.SentAgainIff: speaks of connections on which nothing arrives and the user at most reads.
- Delivery.InOrderIffNext: speaks of the first segment out of order; what later segments make of the stream is not described.
- Runs.SegmentFidelity: assumes that acknowledgements cover only what was sent, because
  `processPacketForAck` does not check it; the delivery theorem discharges this for two of these sockets.
- RightEdge.RightEdgeNeverRetreats: covers packets sent through `tcp_sendto` before EOF is queued; the raw
  answers carry `send_window_size` instead, and after an EOF with a full window the difference wraps.
- Exchange.ExchangeLeadsToStart: one exchange of three packets, in order; simultaneous open is covered by
  the invariants of runs only.
- EndOfStream.EndOfStreamDelivered: covers a FIN in ESTAB; `EndOfStream.FirstCloserSeesNoEnd` covers FIN_WAIT1
  and FIN_WAIT2.
- RightEdge.AdvertisesEdge: says nothing of CLOSE_WAIT and LAST_ACK, where the EOF takes one from the window.
- Teardown.StateMachine.Destroy: leaves out the freeing of the context and of the machine itself.
- Sockets.Socket.VClose: leaves out the wait and its result.
- Teardown.StateMachine.StateDestroy: takes marks to be readable after a state is freed, which C does not promise.
- WireForms.Unserialize: stops where the source would read past the end of the buffer.
- Sockets.Socket.constructor: leaves out the search for a free slot of the socket table.
- Sockets.Socket.InClosed: leaves out the ports, the peer, the condition variables and the notification.
- Sockets.Socket.RunAction: leaves out `notify` and the socket table insertion of `do_listen`.
- Sockets.Socket.VConnect: leaves out the peer's address, the socket table, the wait and its result.
- Sockets.Socket.VListen: leaves out the socket table insertion.
- RouteTables.RouteTable.Merge: leaves out the value returned, which describes the last entry only and, for
  a new entry, compares fields that were never written.
- RouteTables.RouteTable.Hear: leaves out the broadcasts that a change triggers; in `Network.dfy` a node may
  send at any time, also between the two halves of a turn.
- Network.CostsNeverRise: covers a fixed graph without poisoned interfaces, and links that keep the order of
  tables; so do the lemmas on loops and convergence.
- Split horizon: `peer` stays -1, so the filter is never active; the filter itself is modelled in `WireForm.dfy`.
- The socket table, and which socket a packet is for: nested maps, easy members.
- `v_accept`, `notify` and `wait_for_event`, threads and mutexes: blocking is not modelled.
- Packet headers, checksums and IP forwarding: packets are records.
- `last_ack`, `seq_num`, `gotAckFor` and `unackData`: set or defined, never used to decide anything.
- A tail of the receive loop that frees packets, and all logging and display.
- The copies of these files outside `tcp_branch/`: an earlier version.
