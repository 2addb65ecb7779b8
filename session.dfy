/** The state of one broker connection and the dispatcher's reaction to one inbound packet
    (clientConn.logic). */
module Session {
  import opened Packets

  /** Everything the dispatcher and the two writers read or change. Channels are the
      sequences of what has been put on them so far. */
  datatype Conn = Conn(
    idGen: map<PacketId, Packet>,  // correlation table: identifier -> originating packet
    persist: map<Key, Packet>,     // redelivery store
    logicSendC: seq<Packet>,       // control packets queued by the dispatcher
    msgC: seq<Event>,              // upward events
    recvC: seq<Packet>,            // application inbox
    link: Link)                    // the transport, as far as the writers use it

  datatype Link = Link(
    wire: seq<Packet>,             // packets encoded and flushed onto the connection
    closed: bool)                  // the connection has been closed

  // ---- the collaborators' effects ----

  /** persist.Store(k, p): on success the entry is written; on failure the store is left as it
      was and a persistence event is reported. */
  function Stored(c: Conn, k: Key, p: Packet, ok: bool): Conn {
    if ok then c.(persist := c.persist[k := p]) else c.(msgC := c.msgC + [PersistMsg])
  }

  /** persist.Delete(k), with the same error handling as Stored. */
  function Deleted(c: Conn, k: Key, ok: bool): Conn {
    if ok then c.(persist := c.persist - {k}) else c.(msgC := c.msgC + [PersistMsg])
  }

  /** idGen.free(id). */
  function Freed(c: Conn, id: PacketId): Conn {
    c.(idGen := c.idGen - {id})
  }

  /** c.send(p): put p on the logic send channel. */
  function Queued(c: Conn, p: Packet): Conn {
    c.(logicSendC := c.logicSendC + [p])
  }

  function Emitted(c: Conn, e: Event): Conn {
    c.(msgC := c.msgC + [e])
  }

  /** The topics of a SUBSCRIBE with the QoS of topic i replaced by SUBACK code i wherever
      there is one. */
  function Granted(topics: seq<Topic>, codes: seq<byte>): seq<Topic> {
    seq(|topics|, i requires 0 <= i < |topics| =>
      if i < |codes| then topics[i].(qos := codes[i]) else topics[i])
  }

  /** g is `topics` after the granted codes have been copied in by position, clipped to the
      shorter of the two lists. */
  ghost predicate GrantedQos(g: seq<Topic>, topics: seq<Topic>, codes: seq<byte>) {
    && |g| == |topics|
    && forall i :: 0 <= i < |g| ==>
         g[i].name == topics[i].name && g[i].qos == (if i < |codes| then codes[i] else topics[i].qos)
  }

  predicate IsQos2Origin(c: Conn, id: PacketId) {
    id in c.idGen && c.idGen[id].Publish? && c.idGen[id].qos == Qos2
  }

  // ---- the dispatcher ----

  /** SUBACK: for a SUBSCRIBE origin, copy the granted codes into its topics, report them,
      free the identifier and delete the send entry. */
  function OnSubAck(c: Conn, id: PacketId, codes: seq<byte>, ok: bool): Conn {
    if id in c.idGen && c.idGen[id].Subscribe? then
      var topics := Granted(c.idGen[id].topics, codes);
      Deleted(Freed(Emitted(c, SubMsg(topics)), id), SendKey(id), ok)
    else c
  }

  /** UNSUBACK: for an UNSUBSCRIBE origin, report its topic names, free the identifier and
      delete the send entry. */
  function OnUnsubAck(c: Conn, id: PacketId, ok: bool): Conn {
    if id in c.idGen && c.idGen[id].Unsubscribe? then
      Deleted(Freed(Emitted(c, UnsubMsg(c.idGen[id].topicNames)), id), SendKey(id), ok)
    else c
  }

  /** Inbound PUBLISH: hand it to the application, then acknowledge it by QoS. */
  function OnPublish(c: Conn, p: Packet, ok: bool): Conn
    requires p.Publish?
  {
    var d := c.(recvC := c.recvC + [p]);
    if p.qos == Qos1 then Stored(Queued(d, PubAck(p.packetId)), RecvKey(p.packetId), p, ok)
    else if p.qos == Qos2 then Stored(Queued(d, PubRec(p.packetId)), RecvKey(p.packetId), p, ok)
    else d
  }

  /** PUBACK: for a QoS 1 PUBLISH origin, report it, free the identifier and delete the send
      entry. */
  function OnPubAck(c: Conn, id: PacketId, ok: bool): Conn {
    if id in c.idGen && c.idGen[id].Publish? && c.idGen[id].qos == Qos1 then
      Deleted(Freed(Emitted(c, PubMsg(c.idGen[id].topicName)), id), SendKey(id), ok)
    else c
  }

  /** PUBREC: for a QoS 2 PUBLISH origin, queue PUBREL. */
  function OnPubRec(c: Conn, id: PacketId): Conn {
    if IsQos2Origin(c, id) then Queued(c, PubRel(id)) else c
  }

  /** PUBREL: for a QoS 2 PUBLISH origin in the client's own table, queue PUBCOMP and store
      the PUBREL under the receive key. */
  function OnPubRel(c: Conn, id: PacketId, ok: bool): Conn {
    if IsQos2Origin(c, id) then Stored(Queued(c, PubComp(id)), RecvKey(id), PubRel(id), ok) else c
  }

  /** PUBCOMP: for a QoS 2 PUBLISH origin, queue PUBREL (as the code does), report it, free the
      identifier and delete the send entry. */
  function OnPubComp(c: Conn, id: PacketId, ok: bool): Conn {
    if IsQos2Origin(c, id) then
      Deleted(Freed(Emitted(Queued(c, PubRel(id)), PubMsg(c.idGen[id].topicName)), id), SendKey(id), ok)
    else c
  }

  /** One iteration of the dispatcher loop. `ok` is the outcome of the one Store or Delete
      call the iteration makes, if it makes one. Other packet types are dropped. */
  function Step(c: Conn, pkt: Packet, ok: bool): Conn {
    match pkt
    case SubAck(id, codes) => OnSubAck(c, id, codes, ok)
    case UnsubAck(id) => OnUnsubAck(c, id, ok)
    case Publish(_, _, _, _) => OnPublish(c, pkt, ok)
    case PubAck(id) => OnPubAck(c, id, ok)
    case PubRec(id) => OnPubRec(c, id)
    case PubRel(id) => OnPubRel(c, id, ok)
    case PubComp(id) => OnPubComp(c, id, ok)
    case _ => c
  }

  /** The dispatcher loop over the packets received so far, in wire order. */
  function Run(c: Conn, pkts: seq<Packet>, oks: seq<bool>): Conn
    requires |oks| == |pkts|
    decreases |pkts|
  {
    if pkts == [] then c
    else Step(Run(c, pkts[..|pkts| - 1], oks[..|oks| - 1]), pkts[|pkts| - 1], oks[|oks| - 1])
  }

  /** The inbound PUBLISH packets among pkts, in order. */
  function Publishes(pkts: seq<Packet>): seq<Packet>
    decreases |pkts|
  {
    if pkts == [] then []
    else
      var last := pkts[|pkts| - 1];
      Publishes(pkts[..|pkts| - 1]) + (if last.Publish? then [last] else [])
  }

  /** The persistence events a Store or Delete with outcome `ok` adds. */
  function PersistErrors(ok: bool): seq<Event> {
    if ok then [] else [PersistMsg]
  }

  function AfterDelete(m: map<Key, Packet>, k: Key, ok: bool): map<Key, Packet> {
    if ok then m - {k} else m
  }

  function AfterStore(m: map<Key, Packet>, k: Key, p: Packet, ok: bool): map<Key, Packet> {
    if ok then m[k := p] else m
  }

  // ---- one packet at a time ----

  /** An acknowledgement whose identifier has no correlation entry changes nothing. */
  lemma StaleAckIsIgnored(c: Conn, pkt: Packet, ok: bool)
    requires IsAck(pkt) && pkt.packetId !in c.idGen
    ensures Step(c, pkt, ok) == c
  {
  }

  /** SUBACK for a SUBSCRIBE copies the granted codes into the topics, reports them, frees the
      identifier and deletes the send entry; for any other origin it changes nothing. */
  lemma SubAckConfirmsSubscribe(c: Conn, id: PacketId, codes: seq<byte>, ok: bool)
    requires id in c.idGen
    ensures var c' := Step(c, SubAck(id, codes), ok);
      if c.idGen[id].Subscribe? then
        && |c'.msgC| == |c.msgC| + 1 + |PersistErrors(ok)|
        && c'.msgC[..|c.msgC|] == c.msgC
        && c'.msgC[|c.msgC|].SubMsg?
        && GrantedQos(c'.msgC[|c.msgC|].topics, c.idGen[id].topics, codes)
        && c'.msgC[|c.msgC| + 1..] == PersistErrors(ok)
        && c'.idGen == c.idGen - {id}
        && c'.persist == AfterDelete(c.persist, SendKey(id), ok)
        && c'.logicSendC == c.logicSendC && c'.recvC == c.recvC
      else c' == c
  {
  }

  /** UNSUBACK for an UNSUBSCRIBE reports its topic names, frees the identifier and deletes the
      send entry; a failed delete is reported after the confirmation and the identifier is
      still freed. */
  lemma UnsubAckConfirmsUnsubscribe(c: Conn, id: PacketId, ok: bool)
    requires id in c.idGen
    ensures var c' := Step(c, UnsubAck(id), ok);
      if c.idGen[id].Unsubscribe? then
        && c'.msgC == c.msgC + [UnsubMsg(c.idGen[id].topicNames)] + PersistErrors(ok)
        && c'.idGen == c.idGen - {id}
        && c'.persist == AfterDelete(c.persist, SendKey(id), ok)
        && c'.logicSendC == c.logicSendC && c'.recvC == c.recvC
      else c' == c
  {
  }

  /** An inbound PUBLISH always reaches the inbox; QoS 1 is answered with PUBACK and QoS 2 with
      PUBREC, both storing the packet under its receive key; QoS 0 does nothing else. */
  lemma PublishIsDelivered(c: Conn, topic: string, qos: byte, id: PacketId, payload: seq<byte>, ok: bool)
    ensures var p := Publish(topic, qos, id, payload);
      var c' := Step(c, p, ok);
      && c'.recvC == c.recvC + [p]
      && c'.idGen == c.idGen
      && (qos == Qos1 ==>
            && c'.logicSendC == c.logicSendC + [PubAck(id)]
            && c'.persist == AfterStore(c.persist, RecvKey(id), p, ok)
            && c'.msgC == c.msgC + PersistErrors(ok))
      && (qos == Qos2 ==>
            && c'.logicSendC == c.logicSendC + [PubRec(id)]
            && c'.persist == AfterStore(c.persist, RecvKey(id), p, ok)
            && c'.msgC == c.msgC + PersistErrors(ok))
      && (qos != Qos1 && qos != Qos2 ==> c' == c.(recvC := c.recvC + [p]))
  {
  }

  /** PUBACK completes a QoS 1 PUBLISH: one confirmation, the identifier freed, the send entry
      deleted. Any other origin is left alone. */
  lemma PubAckConfirmsQos1(c: Conn, id: PacketId, ok: bool)
    requires id in c.idGen
    ensures var o := c.idGen[id];
      var c' := Step(c, PubAck(id), ok);
      if o.Publish? && o.qos == Qos1 then
        && c'.msgC == c.msgC + [PubMsg(o.topicName)] + PersistErrors(ok)
        && c'.idGen == c.idGen - {id}
        && c'.persist == AfterDelete(c.persist, SendKey(id), ok)
        && c'.logicSendC == c.logicSendC && c'.recvC == c.recvC
      else c' == c
  {
  }

  /** PUBREC for a QoS 2 PUBLISH queues exactly PUBREL with the same identifier and keeps the
      identifier allocated and the store untouched. */
  lemma PubRecRepliesPubRel(c: Conn, id: PacketId, ok: bool)
    requires id in c.idGen
    ensures var c' := Step(c, PubRec(id), ok);
      if IsQos2Origin(c, id) then c' == c.(logicSendC := c.logicSendC + [PubRel(id)])
      else c' == c
  {
  }

  /** PUBREL matched against the client's own QoS 2 PUBLISH queues PUBCOMP and stores the
      PUBREL under the receive key, without freeing the identifier. */
  lemma PubRelRepliesPubComp(c: Conn, id: PacketId, ok: bool)
    requires id in c.idGen
    ensures var c' := Step(c, PubRel(id), ok);
      if IsQos2Origin(c, id) then
        && c'.logicSendC == c.logicSendC + [PubComp(id)]
        && c'.persist == AfterStore(c.persist, RecvKey(id), PubRel(id), ok)
        && c'.msgC == c.msgC + PersistErrors(ok)
        && c'.idGen == c.idGen && c'.recvC == c.recvC
      else c' == c
  {
  }

  /** PUBCOMP completes a QoS 2 PUBLISH: a PUBREL is queued (as the code does), one
      confirmation with the origin's topic is reported, the identifier freed and the send entry
      deleted. */
  lemma PubCompConfirmsQos2(c: Conn, id: PacketId, ok: bool)
    requires id in c.idGen
    ensures var c' := Step(c, PubComp(id), ok);
      if IsQos2Origin(c, id) then
        && c'.logicSendC == c.logicSendC + [PubRel(id)]
        && c'.msgC == c.msgC + [PubMsg(c.idGen[id].topicName)] + PersistErrors(ok)
        && c'.idGen == c.idGen - {id}
        && c'.persist == AfterDelete(c.persist, SendKey(id), ok)
        && c'.recvC == c.recvC
      else c' == c
  {
  }

  /** An identifier leaves the correlation table exactly when its terminal acknowledgement is
      processed, and no other entry changes. */
  lemma FreedExactlyAtTerminalAck(c: Conn, pkt: Packet, ok: bool, id: PacketId)
    requires id in c.idGen
    ensures var c' := Step(c, pkt, ok);
      && (id !in c'.idGen <==> IsAck(pkt) && pkt.packetId == id && IsTerminalAck(c.idGen[id], pkt))
      && (id in c'.idGen ==> c'.idGen[id] == c.idGen[id])
      && c'.idGen.Keys <= c.idGen.Keys
  {
    match pkt
    case SubAck(_, _) =>
    case UnsubAck(_) =>
    case PubAck(_) =>
    case PubComp(_) =>
    case _ =>
  }

  /** The identifier is freed and its send entry deleted together: when a step frees an
      identifier it also removes the send entry, unless the store reported an error. */
  lemma FreeAndDeleteTogether(c: Conn, pkt: Packet, ok: bool, id: PacketId)
    requires id in c.idGen
    ensures var c' := Step(c, pkt, ok);
      id !in c'.idGen ==> c'.persist == AfterDelete(c.persist, SendKey(id), ok)
  {
    match pkt
    case SubAck(_, _) =>
    case UnsubAck(_) =>
    case PubAck(_) =>
    case PubComp(_) =>
    case _ =>
  }

  /** The converse: a step removes a send entry only when it frees that identifier, which
      therefore was allocated before the step. */
  lemma DeletedOnlyWhenFreed(c: Conn, pkt: Packet, ok: bool, id: PacketId)
    ensures var c' := Step(c, pkt, ok);
      SendKey(id) in c.persist && SendKey(id) !in c'.persist ==> id in c.idGen && id !in c'.idGen
  {
    match pkt
    case SubAck(_, _) =>
    case UnsubAck(_) =>
    case PubAck(_) =>
    case PubComp(_) =>
    case _ =>
  }

  /** A terminal acknowledgement delivered twice has the effect of delivering it once: the
      duplicate finds the identifier freed. */
  lemma DuplicateTerminalAckIgnored(c: Conn, pkt: Packet, ok: bool, ok2: bool)
    requires pkt.SubAck? || pkt.UnsubAck? || pkt.PubAck? || pkt.PubComp?
    ensures Step(Step(c, pkt, ok), pkt, ok2) == Step(c, pkt, ok)
  {
  }

  // ---- the dispatcher loop ----

  /** One step adds the packet to the inbox if it is a PUBLISH, and nothing otherwise. */
  lemma StepDeliversPublish(c: Conn, pkt: Packet, ok: bool)
    ensures Step(c, pkt, ok).recvC == c.recvC + (if pkt.Publish? then [pkt] else [])
  {
    match pkt
    case Publish(_, _, _, _) =>
    case _ =>
  }

  /** Every inbound PUBLISH reaches the application inbox, in order, whatever its QoS and
      whatever the store reports. */
  lemma {:induction false} RunDeliversEveryPublish(c: Conn, pkts: seq<Packet>, oks: seq<bool>)
    requires |oks| == |pkts|
    ensures Run(c, pkts, oks).recvC == c.recvC + Publishes(pkts)
    decreases |pkts|
  {
    if pkts != [] {
      var n := |pkts| - 1;
      RunDeliversEveryPublish(c, pkts[..n], oks[..n]);
      StepDeliversPublish(Run(c, pkts[..n], oks[..n]), pkts[n], oks[n]);
    }
  }

  /** One step never adds to the correlation table nor changes an entry it keeps. */
  lemma StepOnlyFrees(c: Conn, pkt: Packet, ok: bool)
    ensures var c' := Step(c, pkt, ok);
      && c'.idGen.Keys <= c.idGen.Keys
      && forall id :: id in c'.idGen ==> c'.idGen[id] == c.idGen[id]
  {
    match pkt
    case SubAck(_, _) =>
    case UnsubAck(_) =>
    case PubAck(_) =>
    case PubComp(_) =>
    case _ =>
  }

  /** The dispatcher never allocates: the correlation table only loses entries, and the ones
      it keeps are unchanged. */
  lemma {:induction false} RunOnlyFrees(c: Conn, pkts: seq<Packet>, oks: seq<bool>)
    requires |oks| == |pkts|
    ensures var r := Run(c, pkts, oks);
      && r.idGen.Keys <= c.idGen.Keys
      && forall id :: id in r.idGen ==> r.idGen[id] == c.idGen[id]
    decreases |pkts|
  {
    if pkts != [] {
      var n := |pkts| - 1;
      RunOnlyFrees(c, pkts[..n], oks[..n]);
      StepOnlyFrees(Run(c, pkts[..n], oks[..n]), pkts[n], oks[n]);
    }
  }

  /** An exchange stays in the correlation table, unchanged, until its terminal
      acknowledgement arrives: the dispatcher does not free a QoS 1 PUBLISH before its PUBACK
      nor a QoS 2 PUBLISH before its PUBCOMP. */
  lemma {:induction false} RunKeepsEntryUntilTerminalAck(c: Conn, pkts: seq<Packet>, oks: seq<bool>, id: PacketId)
    requires |oks| == |pkts|
    requires id in c.idGen
    requires forall j :: 0 <= j < |pkts| ==>
      !(IsAck(pkts[j]) && pkts[j].packetId == id && IsTerminalAck(c.idGen[id], pkts[j]))
    ensures id in Run(c, pkts, oks).idGen && Run(c, pkts, oks).idGen[id] == c.idGen[id]
    decreases |pkts|
  {
    if pkts != [] {
      var n := |pkts| - 1;
      RunKeepsEntryUntilTerminalAck(c, pkts[..n], oks[..n], id);
      FreedExactlyAtTerminalAck(Run(c, pkts[..n], oks[..n]), pkts[n], oks[n], id);
    }
  }

  /** A run of stale or duplicate acknowledgements changes nothing at all. */
  lemma {:induction false} RunOfStaleAcksIsNoOp(c: Conn, pkts: seq<Packet>, oks: seq<bool>)
    requires |oks| == |pkts|
    requires forall j :: 0 <= j < |pkts| ==> IsAck(pkts[j]) && pkts[j].packetId !in c.idGen
    ensures Run(c, pkts, oks) == c
    decreases |pkts|
  {
    if pkts != [] {
      var n := |pkts| - 1;
      RunOfStaleAcksIsNoOp(c, pkts[..n], oks[..n]);
      StaleAckIsIgnored(c, pkts[n], oks[n]);
    }
  }

  /** One step never writes a send entry and never removes a receive entry. */
  lemma StepStoreDirections(c: Conn, pkt: Packet, ok: bool)
    ensures var c' := Step(c, pkt, ok);
      && (forall id :: SendKey(id) in c'.persist ==> SendKey(id) in c.persist && c'.persist[SendKey(id)] == c.persist[SendKey(id)])
      && (forall id :: RecvKey(id) in c.persist ==> RecvKey(id) in c'.persist)
  {
    match pkt
    case Publish(_, _, _, _) =>
    case PubRel(_) =>
    case _ =>
  }

  /** The dispatcher never creates a send entry, and never deletes a receive entry: receive
      entries it stores are never removed by it. */
  lemma {:induction false} RunStoreDirections(c: Conn, pkts: seq<Packet>, oks: seq<bool>)
    requires |oks| == |pkts|
    ensures var r := Run(c, pkts, oks);
      && (forall id :: SendKey(id) in r.persist ==> SendKey(id) in c.persist && r.persist[SendKey(id)] == c.persist[SendKey(id)])
      && (forall id :: RecvKey(id) in c.persist ==> RecvKey(id) in r.persist)
    decreases |pkts|
  {
    if pkts != [] {
      var n := |pkts| - 1;
      RunStoreDirections(c, pkts[..n], oks[..n]);
      StepStoreDirections(Run(c, pkts[..n], oks[..n]), pkts[n], oks[n]);
    }
  }

  /** Over any run, the dispatcher removes a send entry only for an identifier that was
      allocated at the start and is freed at the end. */
  lemma {:induction false} RunDeletesOnlyFreedSendEntries(c: Conn, pkts: seq<Packet>, oks: seq<bool>, id: PacketId)
    requires |oks| == |pkts|
    ensures var r := Run(c, pkts, oks);
      SendKey(id) in c.persist && SendKey(id) !in r.persist ==> id in c.idGen && id !in r.idGen
    decreases |pkts|
  {
    if pkts != [] {
      var n := |pkts| - 1;
      var mid := Run(c, pkts[..n], oks[..n]);
      RunDeletesOnlyFreedSendEntries(c, pkts[..n], oks[..n], id);
      RunOnlyFrees(c, pkts[..n], oks[..n]);
      StepOnlyFrees(mid, pkts[n], oks[n]);
      DeletedOnlyWhenFreed(mid, pkts[n], oks[n], id);
    }
  }

  /** `q` is `p` followed by acknowledgement replies only. */
  ghost predicate ExtendedByReplies(p: seq<Packet>, q: seq<Packet>) {
    && |p| <= |q|
    && q[..|p|] == p
    && forall j :: |p| <= j < |q| ==> IsControlReply(q[j])
  }

  lemma ExtendedByRepliesTransitive(p: seq<Packet>, q: seq<Packet>, r: seq<Packet>)
    requires ExtendedByReplies(p, q) && ExtendedByReplies(q, r)
    ensures ExtendedByReplies(p, r)
  {
    assert r[..|p|] == r[..|q|][..|p|];
  }

  /** One step queues at most one packet, and only an acknowledgement reply. */
  lemma StepQueuesOnlyReplies(c: Conn, pkt: Packet, ok: bool)
    ensures ExtendedByReplies(c.logicSendC, Step(c, pkt, ok).logicSendC)
    ensures |Step(c, pkt, ok).logicSendC| <= |c.logicSendC| + 1
  {
    match pkt
    case Publish(_, _, _, _) =>
    case PubRec(_) =>
    case PubRel(_) =>
    case PubComp(_) =>
    case _ =>
  }

  /** The dispatcher only appends to its send channel, and only acknowledgement replies. */
  lemma {:induction false} RunQueuesOnlyReplies(c: Conn, pkts: seq<Packet>, oks: seq<bool>)
    requires |oks| == |pkts|
    ensures ExtendedByReplies(c.logicSendC, Run(c, pkts, oks).logicSendC)
    decreases |pkts|
  {
    if pkts == [] {
      assert c.logicSendC[..|c.logicSendC|] == c.logicSendC;
    } else {
      var n := |pkts| - 1;
      RunQueuesOnlyReplies(c, pkts[..n], oks[..n]);
      var m := Run(c, pkts[..n], oks[..n]);
      StepQueuesOnlyReplies(m, pkts[n], oks[n]);
      ExtendedByRepliesTransitive(c.logicSendC, m.logicSendC, Step(m, pkts[n], oks[n]).logicSendC);
    }
  }

  /** Subscribe round trip: SUBSCRIBE id 1 with topics "a/b" at QoS 1 and "c/d" at QoS 2,
      answered by SUBACK id 1 with codes [1, 2]. */
  lemma SubscribeRoundTrip(c: Conn)
    requires c.idGen == map[1 := Subscribe(1, [Topic("a/b", 0), Topic("c/d", 0)])]
    requires SendKey(1) in c.persist
    ensures var c' := Step(c, SubAck(1, [1, 2]), true);
      && c'.msgC == c.msgC + [SubMsg([Topic("a/b", 1), Topic("c/d", 2)])]
      && c'.idGen == map[]
      && SendKey(1) !in c'.persist
  {
    assert Granted([Topic("a/b", 0), Topic("c/d", 0)], [1, 2]) == [Topic("a/b", 1), Topic("c/d", 2)];
  }
}
