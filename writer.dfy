/** The two writers of the connection: handleClientSend (application requests) and
    handleLogicSend (the dispatcher's control packets), each a loop that encodes and flushes
    one packet at a time and stops at the first encode or flush error. */
module Writer {
  import opened Packets
  import opened Session

  /** The number of packets a writer gets through before its first encode or flush error:
      the index of the first failure, or all of them. */
  function FirstFailure(oks: seq<bool>): (n: nat)
    ensures n <= |oks|
    ensures forall j :: 0 <= j < n ==> oks[j]
    ensures n < |oks| ==> !oks[n]
    decreases |oks|
  {
    if oks == [] || !oks[0] then 0 else 1 + FirstFailure(oks[1..])
  }

  // ---- handleClientSend ----

  /** The optimistic "sent" event for an application packet that has been flushed. */
  function SentMsg(pkt: Packet): seq<Event> {
    match pkt
    case Publish(topic, _, _, _) => [PubMsg(topic)]
    case Subscribe(_, topics) => [SubMsg(topics)]
    case Unsubscribe(_, names) => [UnsubMsg(names)]
    case _ => []
  }

  function SentEvents(pkts: seq<Packet>): seq<Event>
    decreases |pkts|
  {
    if pkts == [] then [] else SentEvents(pkts[..|pkts| - 1]) + SentMsg(pkts[|pkts| - 1])
  }

  /** Application packets that get a "sent" event. */
  predicate IsRequest(pkt: Packet) {
    pkt.Publish? || pkt.Subscribe? || pkt.Unsubscribe?
  }

  function CountRequests(pkts: seq<Packet>): nat
    decreases |pkts|
  {
    if pkts == [] then 0
    else CountRequests(pkts[..|pkts| - 1]) + (if IsRequest(pkts[|pkts| - 1]) then 1 else 0)
  }

  /** Every packet of pkts flushed, in order, each with its "sent" event. */
  function ClientFlushed(c: Conn, pkts: seq<Packet>): Conn {
    c.(link := c.link.(wire := c.link.wire + pkts), msgC := c.msgC + SentEvents(pkts))
  }

  /** Flushing one more packet extends the wire by it and the events by its "sent" event. */
  lemma ClientFlushedOneMore(c: Conn, done: seq<Packet>, pkt: Packet)
    ensures var d := ClientFlushed(c, done);
      ClientFlushed(c, done + [pkt]) == d.(link := d.link.(wire := d.link.wire + [pkt]), msgC := d.msgC + SentMsg(pkt))
  {
    assert (done + [pkt])[..|done|] == done;
  }

  /** The client writer after it has been handed `pkts`; flushOks[j] says whether encoding and
      flushing pkts[j] succeeded. */
  function ClientSent(c: Conn, pkts: seq<Packet>, flushOks: seq<bool>): Conn
    requires |flushOks| == |pkts|
  {
    ClientFlushed(c, pkts[..FirstFailure(flushOks)])
  }

  /** Exactly one "sent" event per flushed PUBLISH, SUBSCRIBE or UNSUBSCRIBE, none for any
      other packet, and never a persistence event. */
  lemma {:induction false} SentEventsMatchRequests(pkts: seq<Packet>)
    ensures |SentEvents(pkts)| == CountRequests(pkts)
    ensures forall j :: 0 <= j < |SentEvents(pkts)| ==> !SentEvents(pkts)[j].PersistMsg?
    decreases |pkts|
  {
    if pkts != [] {
      SentEventsMatchRequests(pkts[..|pkts| - 1]);
    }
  }

  /** An error stops the client writer: nothing from the failing packet on reaches the wire
      or produces an event, whatever follows it. */
  lemma ClientSendStopsAtError(c: Conn, pkts: seq<Packet>, flushOks: seq<bool>, rest: seq<Packet>, restOks: seq<bool>)
    requires |flushOks| == |pkts| && |restOks| == |rest|
    requires false in flushOks
    ensures ClientSent(c, pkts + rest, flushOks + restOks) == ClientSent(c, pkts, flushOks)
  {
    var n := FirstFailure(flushOks);
    var m := FirstFailure(flushOks + restOks);
    assert n < |flushOks|;
    assert m == n by {
      assert (flushOks + restOks)[n] == flushOks[n];
    }
    assert (pkts + rest)[..n] == pkts[..n];
  }

  // ---- handleLogicSend ----

  /** The bookkeeping after one control packet has been flushed; `ok` is the outcome of the
      Store or Delete it triggers, if any. As written, PUBACK and PUBCOMP delete the send key
      of their identifier, and a DISCONNECT closes the connection without ending the loop. */
  function AfterLogicFlush(c: Conn, pkt: Packet, ok: bool): Conn {
    var d := c.(link := c.link.(wire := c.link.wire + [pkt]));
    match pkt
    case PubRel(id) => Stored(d, SendKey(id), pkt, ok)
    case PubAck(id) => Deleted(d, SendKey(id), ok)
    case PubComp(id) => Deleted(d, SendKey(id), ok)
    case Disconnect => d.(link := d.link.(closed := true))
    case _ => d
  }

  /** The bookkeeping of one flushed control packet, by type: PUBREL is stored under its send
      key, PUBACK and PUBCOMP delete their send key, DISCONNECT closes the connection, and
      nothing else changes besides the wire. */
  lemma ControlFlushBookkeeping(c: Conn, pkt: Packet, ok: bool)
    ensures var r := AfterLogicFlush(c, pkt, ok);
      && r.link.wire == c.link.wire + [pkt]
      && r.idGen == c.idGen && r.recvC == c.recvC && r.logicSendC == c.logicSendC
      && (pkt.PubRel? ==>
            r.persist == AfterStore(c.persist, SendKey(pkt.packetId), pkt, ok) && r.msgC == c.msgC + PersistErrors(ok))
      && (pkt.PubAck? || pkt.PubComp? ==>
            r.persist == AfterDelete(c.persist, SendKey(pkt.packetId), ok) && r.msgC == c.msgC + PersistErrors(ok))
      && (pkt.Disconnect? ==> r == c.(link := Link(c.link.wire + [pkt], true)))
      && (!pkt.PubRel? && !pkt.PubAck? && !pkt.PubComp? && !pkt.Disconnect? ==> r == c.(link := c.link.(wire := c.link.wire + [pkt])))
  {
    match pkt
    case PubRel(_) =>
    case PubAck(_) =>
    case PubComp(_) =>
    case _ =>
  }

  /** Every packet of pkts flushed, in order. */
  function LogicFlushed(c: Conn, pkts: seq<Packet>, storeOks: seq<bool>): Conn
    requires |storeOks| == |pkts|
    decreases |pkts|
  {
    if pkts == [] then c
    else
      AfterLogicFlush(LogicFlushed(c, pkts[..|pkts| - 1], storeOks[..|storeOks| - 1]),
                      pkts[|pkts| - 1], storeOks[|storeOks| - 1])
  }

  /** Flushing the next control packet extends the fold by one step. */
  lemma LogicFlushedOneMore(c: Conn, pkts: seq<Packet>, storeOks: seq<bool>, i: nat)
    requires i < |pkts| == |storeOks|
    ensures LogicFlushed(c, pkts[..i + 1], storeOks[..i + 1])
         == AfterLogicFlush(LogicFlushed(c, pkts[..i], storeOks[..i]), pkts[i], storeOks[i])
  {
    assert pkts[..i + 1][..i] == pkts[..i];
    assert storeOks[..i + 1][..i] == storeOks[..i];
  }

  /** The control writer as written, after it has been handed `pkts`. */
  function LogicSent(c: Conn, pkts: seq<Packet>, flushOks: seq<bool>, storeOks: seq<bool>): Conn
    requires |flushOks| == |pkts| && |storeOks| == |pkts|
  {
    var n := FirstFailure(flushOks);
    LogicFlushed(c, pkts[..n], storeOks[..n])
  }

  /** An error stops the control writer: nothing from the failing packet on is flushed or
      has any effect on the store, whatever follows it. */
  lemma LogicSendStopsAtError(c: Conn, pkts: seq<Packet>, flushOks: seq<bool>, storeOks: seq<bool>,
                              rest: seq<Packet>, restFlushOks: seq<bool>, restStoreOks: seq<bool>)
    requires |flushOks| == |pkts| && |storeOks| == |pkts|
    requires |restFlushOks| == |rest| && |restStoreOks| == |rest|
    requires false in flushOks
    ensures LogicSent(c, pkts + rest, flushOks + restFlushOks, storeOks + restStoreOks)
         == LogicSent(c, pkts, flushOks, storeOks)
  {
    var n := FirstFailure(flushOks);
    assert (flushOks + restFlushOks)[n] == flushOks[n];
    assert FirstFailure(flushOks + restFlushOks) == n;
    assert (pkts + rest)[..n] == pkts[..n];
    assert (storeOks + restStoreOks)[..n] == storeOks[..n];
  }

  /** The control packets reach the wire in the order they were queued. */
  lemma {:induction false} LogicFlushedWire(c: Conn, pkts: seq<Packet>, storeOks: seq<bool>)
    requires |storeOks| == |pkts|
    ensures LogicFlushed(c, pkts, storeOks).link.wire == c.link.wire + pkts
    decreases |pkts|
  {
    if pkts != [] {
      var n := |pkts| - 1;
      LogicFlushedWire(c, pkts[..n], storeOks[..n]);
      ControlFlushBookkeeping(LogicFlushed(c, pkts[..n], storeOks[..n]), pkts[n], storeOks[n]);
      assert pkts[..n] + [pkts[n]] == pkts;
    }
  }

  /** The control writer touches only send keys, only those of the PUBREL, PUBACK and PUBCOMP
      packets it flushed, and never the correlation table or the inbox. */
  lemma {:induction false} LogicFlushedTouchesOnlyTheirSendKeys(c: Conn, pkts: seq<Packet>, storeOks: seq<bool>, k: Key)
    requires |storeOks| == |pkts|
    requires k.RecvKey? || forall j :: 0 <= j < |pkts| ==> !(IsControlReply(pkts[j]) && !pkts[j].PubRec? && pkts[j].packetId == k.id)
    ensures var r := LogicFlushed(c, pkts, storeOks);
      && (k in r.persist <==> k in c.persist)
      && (k in r.persist ==> r.persist[k] == c.persist[k])
      && r.idGen == c.idGen && r.recvC == c.recvC
    decreases |pkts|
  {
    if pkts != [] {
      var n := |pkts| - 1;
      LogicFlushedTouchesOnlyTheirSendKeys(c, pkts[..n], storeOks[..n], k);
      ControlFlushBookkeeping(LogicFlushed(c, pkts[..n], storeOks[..n]), pkts[n], storeOks[n]);
      assert k.RecvKey? || !(IsControlReply(pkts[n]) && !pkts[n].PubRec? && pkts[n].packetId == k.id);
    }
  }

  /** After a successful flush of PUBREL with a successful Store, the send key of its
      identifier holds that PUBREL, for the redelivery of the second half of a QoS 2 exchange. */
  lemma PubRelIsStoredAfterFlush(c: Conn, id: PacketId)
    ensures var r := LogicSent(c, [PubRel(id)], [true], [true]);
      SendKey(id) in r.persist && r.persist[SendKey(id)] == PubRel(id) && r.link.wire == c.link.wire + [PubRel(id)]
  {
    assert [PubRel(id)][..1] == [PubRel(id)];
    LogicFlushedWire(c, [PubRel(id)], [true]);
  }

  // ---- the two halves together ----

  /** Outgoing QoS 2 PUBLISH, with the dispatcher's and the control writer's steps
      interleaved as the protocol orders them: PUBREC queues PUBREL; flushing PUBREL stores it
      under the send key; PUBCOMP deletes that entry, frees the identifier and reports exactly
      one confirmation. Between the flush of the PUBLISH and PUBCOMP, no event is reported. */
  lemma Qos2OutgoingExchange(c: Conn, id: PacketId, topic: string, payload: seq<byte>)
    requires id in c.idGen && c.idGen[id] == Publish(topic, Qos2, id, payload)
    ensures
      var c1 := Step(c, PubRec(id), true);
      var c2 := AfterLogicFlush(c1, PubRel(id), true);
      var c3 := Step(c2, PubComp(id), true);
      && c1.logicSendC == c.logicSendC + [PubRel(id)] && c1.msgC == c.msgC && id in c1.idGen
      && c2.persist == c.persist[SendKey(id) := PubRel(id)] && c2.msgC == c.msgC && id in c2.idGen
      && SendKey(id) !in c3.persist && id !in c3.idGen
      && c3.msgC == c.msgC + [PubMsg(topic)]
  {
  }

  /** An outgoing QoS 1 PUBLISH is reported twice with the same event: once by the client
      writer when it is flushed, and once by the dispatcher when its PUBACK arrives. */
  lemma Qos1PublishReportedTwice(c: Conn, id: PacketId, topic: string, payload: seq<byte>)
    requires c.idGen == map[id := Publish(topic, Qos1, id, payload)]
    ensures
      var c1 := ClientSent(c, [Publish(topic, Qos1, id, payload)], [true]);
      var c2 := Step(c1, PubAck(id), true);
      && c1.msgC == c.msgC + [PubMsg(topic)]
      && c2.msgC == c.msgC + [PubMsg(topic), PubMsg(topic)]
      && id !in c2.idGen
  {
    var p := Publish(topic, Qos1, id, payload);
    assert [p][..1] == [p];
    assert SentEvents([p]) == SentEvents([]) + SentMsg(p);
  }

  /** As written, PUBCOMP queues a PUBREL, and flushing it stores a send entry for an
      identifier that has just been freed: when the flush comes after the dispatcher's delete,
      as here, that entry outlives its exchange. */
  lemma PubCompLeavesStaleSendEntry(c: Conn, id: PacketId)
    requires IsQos2Origin(c, id)
    ensures
      var c1 := Step(c, PubComp(id), true);
      var c2 := AfterLogicFlush(c1, c1.logicSendC[|c1.logicSendC| - 1], true);
      && id !in c2.idGen
      && SendKey(id) in c2.persist && c2.persist[SendKey(id)] == PubRel(id)
  {
  }

  // ---- findings: the control writer as evidently intended ----

  /** As written, a DISCONNECT does not end the control writer: the `break` after closing the
      connection leaves only the `switch`, and later packets are still processed. */
  lemma WriterContinuesAfterDisconnect(c: Conn)
    ensures var r := LogicSent(c, [Disconnect, PubAck(5)], [true, true], [true, true]);
      r.link.closed && r.link.wire == c.link.wire + [Disconnect, PubAck(5)]
  {
    assert [Disconnect, PubAck(5)][..2] == [Disconnect, PubAck(5)];
    assert [true, true][..2] == [true, true];
    LogicFlushedWire(c, [Disconnect, PubAck(5)], [true, true]);
  }

  /** As written, flushing the PUBACK for the broker's QoS 1 PUBLISH deletes the send key of
      the same number, which belongs to the client's own exchange: an in-flight QoS 1 PUBLISH
      with identifier 5 loses its redelivery entry while its identifier is still allocated. */
  lemma WriterPubAckDropsOwnSendEntry(c: Conn, own: Packet, inbound: Packet)
    requires own == Publish("t", Qos1, 5, []) && inbound == Publish("s", Qos1, 5, [])
    requires c.idGen == map[5 := own] && c.persist == map[SendKey(5) := own]
    ensures
      var c1 := Step(c, inbound, true);
      var c2 := AfterLogicFlush(c1, c1.logicSendC[|c1.logicSendC| - 1], true);
      && c1.logicSendC[|c1.logicSendC| - 1] == PubAck(5)
      && 5 in c2.idGen && SendKey(5) !in c2.persist
  {
  }

  /** The evidently intended bookkeeping: PUBACK and PUBCOMP answer the broker's PUBLISH and
      PUBREL, so they close the receive entry of their identifier. */
  function AfterLogicFlushCorrected(c: Conn, pkt: Packet, ok: bool): Conn {
    var d := c.(link := c.link.(wire := c.link.wire + [pkt]));
    match pkt
    case PubRel(id) => Stored(d, SendKey(id), pkt, ok)
    case PubAck(id) => Deleted(d, RecvKey(id), ok)
    case PubComp(id) => Deleted(d, RecvKey(id), ok)
    case Disconnect => d.(link := d.link.(closed := true))
    case _ => d
  }

  /** The control writer as intended: it ends after the DISCONNECT it flushed. */
  function LogicFlushedCorrected(c: Conn, pkts: seq<Packet>, storeOks: seq<bool>): Conn
    requires |storeOks| == |pkts|
    decreases |pkts|
  {
    if pkts == [] then c
    else
      var d := AfterLogicFlushCorrected(c, pkts[0], storeOks[0]);
      if pkts[0].Disconnect? then d else LogicFlushedCorrected(d, pkts[1..], storeOks[1..])
  }

  function LogicSentCorrected(c: Conn, pkts: seq<Packet>, flushOks: seq<bool>, storeOks: seq<bool>): Conn
    requires |flushOks| == |pkts| && |storeOks| == |pkts|
  {
    var n := FirstFailure(flushOks);
    LogicFlushedCorrected(c, pkts[..n], storeOks[..n])
  }

  /** The intended writer stops at a DISCONNECT: what was queued after it has no effect. */
  lemma {:induction false} CorrectedWriterStopsAtDisconnect(c: Conn, pkts: seq<Packet>, storeOks: seq<bool>, j: nat)
    requires |storeOks| == |pkts|
    requires j < |pkts| && pkts[j] == Disconnect
    ensures LogicFlushedCorrected(c, pkts, storeOks) == LogicFlushedCorrected(c, pkts[..j + 1], storeOks[..j + 1])
    ensures LogicFlushedCorrected(c, pkts, storeOks).link.closed
    decreases j
  {
    if j > 0 && !pkts[0].Disconnect? {
      var d := AfterLogicFlushCorrected(c, pkts[0], storeOks[0]);
      CorrectedWriterStopsAtDisconnect(d, pkts[1..], storeOks[1..], j - 1);
      assert pkts[1..][..j] == pkts[..j + 1][1..];
      assert storeOks[1..][..j] == storeOks[..j + 1][1..];
    }
  }

  /** The intended writer only ever writes send keys (for PUBREL): the send entry of an
      outgoing exchange is removed by the dispatcher alone, at its terminal acknowledgement. */
  lemma {:induction false} CorrectedWriterNeverDeletesSendKeys(c: Conn, pkts: seq<Packet>, storeOks: seq<bool>, id: PacketId)
    requires |storeOks| == |pkts|
    requires SendKey(id) in c.persist
    ensures SendKey(id) in LogicFlushedCorrected(c, pkts, storeOks).persist
    decreases |pkts|
  {
    if pkts != [] {
      var d := AfterLogicFlushCorrected(c, pkts[0], storeOks[0]);
      if !pkts[0].Disconnect? {
        CorrectedWriterNeverDeletesSendKeys(d, pkts[1..], storeOks[1..], id);
      }
    }
  }
}
