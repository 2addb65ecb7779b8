# libmqtt client connection: the QoS acknowledgment engine

A Dafny model of `clientConn` from the libmqtt client (`clientconn.go`). It covers the part
that runs once a connection to an MQTT 3.1.1 broker exists:

- **The dispatcher (`logic`).** It consumes decoded inbound packets one at a time. It keeps the
  client's correlation table (`idGen`: packet identifier → the SUBSCRIBE, UNSUBSCRIBE or
  PUBLISH that started the exchange) and the redelivery store (`persist`, keyed by
  `sendKey(id)` and `recvKey(id)`). It queues control replies and reports events to the
  application. This is the client side of the QoS 1 and QoS 2 flows (sections 4.3.2 and 4.3.3
  of MQTT 3.1.1) and of SUBACK and UNSUBACK (sections 3.9 and 3.11).
- **The two writers.** `handleClientSend` sends the application's requests and reports them as
  sent. `handleLogicSend` sends the dispatcher's control packets and updates the store after
  each flush.
- **The reader (`handleRecv`).** It routes PINGRESP to the keepalive monitor and every other
  packet to the dispatcher.
- **`send` and `close`.** These enqueue a packet.

Layout:

- `packets.dfy` (module `Packets`): packets, store keys and events. `SendKey` and `RecvKey` are
  distinct constructors, so keys with the same number never collide.
- `session.dfy` (module `Session`):
  - the connection state `Conn` that the dispatcher and the writers share; the wire and the
    closed flag sit in its `Link` part;
  - the dispatcher step `Step` and the loop `Run` as functions;
  - lemmas for each packet kind and for whole runs.
- `writer.dfy` (module `Writer`): both writer loops as functions, with their lemmas, and the
  findings below.
- `reader.dfy` (module `Reader`): the reader's own channels (`Routing`) and its routing as
  functions, with its lemmas.
- `clientconn.dfy` (module `ClientConnection`):
  - class `ClientConn`, with the fields of `Conn` and of `Routing`;
  - one method per loop, per loop iteration and per packet kind the dispatcher handles; each
    method may change only the fields its goroutine writes;
  - each method is proved to leave `Model()` (or `RoutingModel()` for the reader) equal to its
    specification function applied to the old state.

Channels are modelled as the sequence of what has been put on them. A loop's input (the
packets received from a channel) is a parameter. Outcomes the core does not compute are
parameters too, one flag per packet: whether encode and flush succeeded, whether a store call
succeeded, and whether decoding succeeded. A failed `Store` or `Delete` leaves the store
unchanged. It appends a persistence event, and the step goes on.

Where the code departs from the QoS 2 handshake of section 4.3.3 of MQTT 3.1.1, the model
follows the code:
- On PUBCOMP the dispatcher queues another PUBREL (line 151).
- An inbound PUBREL is looked up in the client's own correlation table. It stores a receive
  entry that nothing deletes (lines 128-139).

`Writer.PubCompLeavesStaleSendEntry` shows a consequence of the first: the extra PUBREL is
queued (line 151) before the dispatcher deletes the send entry (line 157). When the control
writer flushes it after that delete, it stores a send entry for an identifier that is already
freed. When the flush comes first, the delete removes it.

The client writer reports a PUBLISH as sent as soon as it is flushed (lines 214-215). The event
has the same form as the confirmation the dispatcher reports at PUBACK (line 101) or PUBCOMP
(line 154). So the application sees two identical events for each outgoing QoS 1 or QoS 2
PUBLISH, and the first comes before the acknowledgement (`Writer.Qos1PublishReportedTwice`).
The dispatcher alone never confirms an exchange before its terminal acknowledgement.

## Model

| member | source | states |
|---|---|---|
| `ClientConnection.ClientConn.constructor` | clientconn.go:11-19 | a new connection starts with the client's existing table and store, and empty channels, wire and flags |
| `ClientConnection.ClientConn.Send` | clientconn.go:281-283 | `send` appends the packet to the control send channel and changes nothing else |
| `ClientConnection.ClientConn.Close` | clientconn.go:199-202 | `close` queues exactly one DISCONNECT |
| `ClientConnection.ClientConn.StoreEntry` | clientconn.go:81-83 | a Store that succeeds writes the entry; one that fails leaves the store unchanged and appends one persistence event |
| `ClientConnection.ClientConn.DeleteEntry` | clientconn.go:48-50 | a Delete that succeeds removes the key; one that fails leaves the store unchanged and appends one persistence event |
| `ClientConnection.ClientConn.Free` | clientconn.go:46 | freeing an identifier removes exactly its correlation entry |
| `ClientConnection.ApplyGrantedQos` | clientconn.go:39-44 | topic i gets SUBACK code i for every i below both lengths; the other topics keep their QoS and every name is unchanged |
| `ClientConnection.ClientConn.HandleSubAck` | clientconn.go:31-52 | leaves the state of `Session.OnSubAck`, whose effect `Session.SubAckConfirmsSubscribe` states |
| `ClientConnection.ClientConn.HandleUnsubAck` | clientconn.go:53-68 | leaves the state of `Session.OnUnsubAck`, whose effect `Session.UnsubAckConfirmsUnsubscribe` states |
| `ClientConnection.ClientConn.HandlePublish` | clientconn.go:69-91 | leaves the state of `Session.OnPublish`, whose effect `Session.PublishIsDelivered` states |
| `ClientConnection.ClientConn.HandlePubAck` | clientconn.go:92-109 | leaves the state of `Session.OnPubAck`, whose effect `Session.PubAckConfirmsQos1` states |
| `ClientConnection.ClientConn.HandlePubRec` | clientconn.go:110-123 | leaves the state of `Session.OnPubRec`, whose effect `Session.PubRecRepliesPubRel` states |
| `ClientConnection.ClientConn.HandlePubRel` | clientconn.go:124-141 | leaves the state of `Session.OnPubRel`, whose effect `Session.PubRelRepliesPubComp` states |
| `ClientConnection.ClientConn.HandlePubComp` | clientconn.go:142-162 | leaves the state of `Session.OnPubComp`, whose effect `Session.PubCompConfirmsQos2` states |
| `ClientConnection.ClientConn.Dispatch` | clientconn.go:30-165 | one loop iteration leaves the state `Session.Step` gives for that packet and store outcome |
| `ClientConnection.ClientConn.Logic` | clientconn.go:29-166 | the loop leaves the state of `Session.Run`: every packet is processed in arrival order |
| `ClientConnection.ClientConn.FlushRequest` | clientconn.go:213-220 | a flushed application packet goes on the wire; PUBLISH, SUBSCRIBE and UNSUBSCRIBE each add their "sent" event |
| `ClientConnection.ClientConn.HandleClientSend` | clientconn.go:205-223 | the packets before the first encode or flush error reach the wire in order, with their "sent" events; nothing after the error does |
| `ClientConnection.ClientConn.FlushControl` | clientconn.go:234-252 | a flushed control packet goes on the wire, with the store update for its type |
| `ClientConnection.ClientConn.HandleLogicSend` | clientconn.go:226-254 | the control packets before the first encode or flush error are flushed in order, each with its store update; a DISCONNECT closes the connection and the loop goes on, as written |
| `ClientConnection.ClientConn.HandleRecv` | clientconn.go:257-278 | the reader's channels end as `Reader.Received` gives, and the dispatcher's and writers' state is untouched: the decoded packets before the first decode error are routed, PINGRESP as a keepalive signal and the rest to the dispatcher; a decode error closes both channels |
| `Session.StaleAckIsIgnored` | clientconn.go:30-162 | an acknowledgement whose identifier has no correlation entry changes nothing at all |
| `Session.SubAckConfirmsSubscribe` | clientconn.go:31-52 | SUBACK on a SUBSCRIBE origin reports the topics with the granted QoS copied in by position (clipped to the shorter list), frees the identifier and deletes its send entry; on any other origin it changes nothing |
| `Session.UnsubAckConfirmsUnsubscribe` | clientconn.go:53-68 | UNSUBACK on an UNSUBSCRIBE origin reports the origin's topic names, frees the identifier and deletes its send entry; a failed delete adds a persistence event and the identifier is still freed |
| `Session.PublishIsDelivered` | clientconn.go:69-91 | an inbound PUBLISH always goes to the inbox; QoS 1 queues PUBACK with the same identifier, QoS 2 queues PUBREC, and both store the packet under its receive key; any other QoS changes nothing else |
| `Session.PubAckConfirmsQos1` | clientconn.go:92-109 | PUBACK on a QoS 1 PUBLISH origin reports one confirmation with its topic, frees the identifier and deletes its send entry; any other origin is left alone |
| `Session.PubRecRepliesPubRel` | clientconn.go:110-123 | PUBREC on a QoS 2 PUBLISH origin queues exactly PUBREL with the same identifier and leaves the table and store untouched |
| `Session.PubRelRepliesPubComp` | clientconn.go:124-141 | PUBREL matched against a QoS 2 PUBLISH origin queues PUBCOMP and stores the PUBREL under the receive key, without freeing the identifier |
| `Session.PubCompConfirmsQos2` | clientconn.go:142-162 | PUBCOMP on a QoS 2 PUBLISH origin queues PUBREL, reports exactly one confirmation with the origin's topic, frees the identifier and deletes its send entry |
| `Session.FreedExactlyAtTerminalAck` | clientconn.go:35-162 | a step frees an identifier if and only if the packet is the terminal acknowledgement of that identifier's origin; no other entry changes |
| `Session.FreeAndDeleteTogether` | clientconn.go:46-48 | whenever a step frees an identifier, it also deletes that identifier's send entry, unless the store reports an error |
| `Session.DeletedOnlyWhenFreed` | clientconn.go:35-162 | conversely, a step removes a send entry only when it frees that identifier, which was allocated before the step |
| `Session.RunDeletesOnlyFreedSendEntries` | clientconn.go:29-166 | over any run, a send entry the dispatcher removed belongs to an identifier that was allocated at the start and is freed at the end |
| `Session.DuplicateTerminalAckIgnored` | clientconn.go:35-162 | a SUBACK, UNSUBACK, PUBACK or PUBCOMP delivered twice has the same effect as delivering it once |
| `Session.StepDeliversPublish` | clientconn.go:69-73 | one step adds the packet to the inbox exactly when it is a PUBLISH |
| `Session.StepQueuesOnlyReplies` | clientconn.go:79-151 | one step queues at most one packet, and only PUBACK, PUBREC, PUBREL or PUBCOMP |
| `Session.StepOnlyFrees` | clientconn.go:35-162 | a step never adds a correlation entry nor changes one it keeps |
| `Session.RunOnlyFrees` | clientconn.go:29-166 | over any run the table only loses entries, and the entries it keeps are unchanged |
| `Session.RunKeepsEntryUntilTerminalAck` | clientconn.go:29-166 | an exchange stays in the table, unchanged, until its terminal acknowledgement arrives: the dispatcher does not free an exchange before its SUBACK, UNSUBACK, PUBACK or PUBCOMP |
| `Session.RunOfStaleAcksIsNoOp` | clientconn.go:29-166 | a run of stale or duplicate acknowledgements leaves the whole state unchanged |
| `Session.StepStoreDirections` | clientconn.go:48-159 | a step never writes a send entry and never removes a receive entry |
| `Session.RunStoreDirections` | clientconn.go:29-166 | the dispatcher never creates or changes send entries, and receive entries it stores are never removed by it |
| `Session.RunQueuesOnlyReplies` | clientconn.go:29-166 | the dispatcher only appends to its send channel, and only PUBACK, PUBREC, PUBREL or PUBCOMP |
| `Session.RunDeliversEveryPublish` | clientconn.go:69-73 | the inbox receives exactly the inbound PUBLISH packets, in order, whatever their QoS and the store outcomes |
| `Session.SubscribeRoundTrip` | clientconn.go:36-51 | SUBSCRIBE id 1 with two topics, answered by SUBACK id 1 with codes [1, 2]: the topics are reported with QoS 1 and 2, id 1 is freed, and its send entry is deleted |
| `Writer.FirstFailure` | clientconn.go:206-212 | the index of the first encode or flush error (or the length): every packet before it succeeded |
| `Writer.SentEventsMatchRequests` | clientconn.go:213-220 | one "sent" event for each flushed PUBLISH, SUBSCRIBE or UNSUBSCRIBE, none for other packets, and never a persistence event |
| `Writer.ClientSendStopsAtError` | clientconn.go:206-212 | after an error in the client writer, nothing that follows it has any effect |
| `Writer.ControlFlushBookkeeping` | clientconn.go:234-252 | after one control packet is flushed: PUBREL is stored under its send key; PUBACK and PUBCOMP delete their send key; DISCONNECT closes the connection; other packets only reach the wire |
| `Writer.LogicSendStopsAtError` | clientconn.go:227-233 | after an error in the control writer, nothing that follows it has any effect |
| `Writer.LogicFlushedWire` | clientconn.go:227-233 | control packets reach the wire in the order they were queued |
| `Writer.LogicFlushedTouchesOnlyTheirSendKeys` | clientconn.go:234-252 | the control writer never touches receive entries, or send entries other than those of the PUBREL, PUBACK and PUBCOMP packets it flushed, and never the table or the inbox |
| `Writer.PubRelIsStoredAfterFlush` | clientconn.go:235-238 | after PUBREL is flushed and stored, its send key holds that PUBREL |
| `Writer.Qos2OutgoingExchange` | clientconn.go:110-160 | outgoing QoS 2 PUBLISH: PUBREC queues PUBREL and keeps the identifier; flushing PUBREL overwrites the send entry; PUBCOMP deletes it, frees the identifier and reports exactly one confirmation; from the flush of the PUBLISH until PUBCOMP no event is reported |
| `Writer.PubCompLeavesStaleSendEntry` | clientconn.go:150-158 | the PUBREL queued on PUBCOMP, when flushed after the dispatcher's delete, leaves a send entry for an identifier that is already freed |
| `Writer.Qos1PublishReportedTwice` | clientconn.go:213-215 | an outgoing QoS 1 PUBLISH yields the same event twice: once when the client writer flushes it, once when the dispatcher handles its PUBACK (line 101), which frees the identifier |
| `Writer.WriterContinuesAfterDisconnect` | clientconn.go:247-251 | as written, the control writer goes on after a DISCONNECT: a later PUBACK still reaches the wire |
| `Writer.WriterPubAckDropsOwnSendEntry` | clientconn.go:239-242 | as written, sending the PUBACK for the broker's QoS 1 PUBLISH id 5 deletes the send entry of the client's own in-flight QoS 1 PUBLISH id 5, while id 5 is still allocated |
| `Writer.CorrectedWriterStopsAtDisconnect` | clientconn.go:247-251 | the corrected writer stops after DISCONNECT: the packets queued after it have no effect, and the connection ends up closed |
| `Writer.CorrectedWriterNeverDeletesSendKeys` | clientconn.go:239-246 | the corrected writer never removes a send entry; only the dispatcher removes one, at the terminal acknowledgement |
| `Reader.FirstDecodeError` | clientconn.go:258-269 | the index of the first decode error (or the length): every result before it is a packet |
| `Reader.RoutingPartitions` | clientconn.go:271-276 | every decoded packet goes to exactly one of the two channels; PINGRESP never reaches the dispatcher, and each keepalive signal is 1 |
| `Reader.ReaderStopsAtError` | clientconn.go:260-269 | after a decode error nothing more is routed, and both channels are closed |

## Left out

- The keepalive loop (clientconn.go:170-196) and the code that starts it (lines 23-26). It is
  driven by a ticker and a timer, and its timeout is a `float64` product.
- Concurrency. The four loops are goroutines that communicate over channels. Here each loop is
  a method that runs to completion over the packets it is given. Blocking, the closing of
  channels as a shutdown signal, and the interleaving of the two writers on the shared
  buffered writer are not modelled. Each flush is atomic.
- The flush flags do not depend on the closed flag. A flush after `c.conn.Close()` (line 250)
  fails on a real connection, which the model leaves to the caller's choice of flags.
- Encoding, decoding, `net.Conn` and `bufio.Writer`. Each of these becomes a success flag per
  packet. Encode and flush errors have the same effect, so one flag covers both.
- The internals of the identifier allocator and of the redelivery store. The table is a map:
  lookup is `getExtra` and removal is `free`. The store is a map whose Store and Delete results
  are input flags. The error value a failed call carries is not modelled.
- The in-place update of topic QoS through shared `*Topic` pointers. `ApplyGrantedQos` computes
  the updated topics as values, which the event and the model carry. The update is not visible
  through other references the application holds to the same topics.
- Logging through `lg`. The commented-out network-error event and the empty
  `ErrDecodeBadPacket` branch (lines 264-267) have no effect.
- Packet fields the core never reads: the PUBLISH dup and retain flags, and MQTT 5 properties.
  The event error fields are always nil here.

## Findings

| source | as written | input that shows it | evidently intended | confidence | as-written member | corrected member |
|---|---|---|---|---|---|---|
| clientconn.go:247-251 | The `break` after closing the connection leaves only the `switch`. The control writer keeps receiving and processing packets. | DISCONNECT, then PUBACK(5), with the flush after the close reported as succeeding. On a real connection that flush fails, so the writer stays in its loop after the close until the next failed flush or until the channel is closed. | The writer stops after it flushes DISCONNECT. The comment and the `break` say so, and section 3.14.4 of MQTT 3.1.1 has the client send nothing after DISCONNECT. | medium, not executed. A flush on the closed connection will usually fail, so in practice the writer waits for one more packet and then stops. | `Writer.WriterContinuesAfterDisconnect` | `Writer.CorrectedWriterStopsAtDisconnect` |
| clientconn.go:239-246 | After sending PUBACK or PUBCOMP, the writer deletes `sendKey(id)`. These identifiers belong to the broker's exchanges. | The client's QoS 1 PUBLISH id 5 is in flight with its send entry stored. The broker delivers its own QoS 1 PUBLISH id 5. Flushing the PUBACK(5) reply deletes the client's send entry while id 5 is still allocated. | Delete `recvKey(id)`, the entry stored when the broker's PUBLISH or PUBREL arrived (lines 81 and 136). | medium, not executed | `Writer.WriterPubAckDropsOwnSendEntry` | `Writer.CorrectedWriterNeverDeletesSendKeys` |

The class methods follow the code as written. The corrected control writer is
`Writer.LogicSentCorrected`, built from `Writer.AfterLogicFlushCorrected` and
`Writer.LogicFlushedCorrected`. The two corrected-member lemmas prove its intended properties.
