/** clientConn: one broker connection, with the dispatcher, the two writers and the reader as
    methods that update the connection's state in place. Each is proved to leave the state
    its specification function in Session, Writer or Reader describes. */
module ClientConnection {
  import opened Packets
  import opened Session
  import opened Writer
  import opened Reader

  /** Copies SUBACK return code i into topic i, for every i below both lengths. */
  method ApplyGrantedQos(topics: seq<Topic>, codes: seq<byte>) returns (r: seq<Topic>)
    ensures GrantedQos(r, topics, codes)
    ensures r == Granted(topics, codes)
  {
    r := topics;
    var n := |codes|;
    var i := 0;
    while i < |r|
      invariant |r| == |topics| && 0 <= i <= |r|
      invariant forall j :: 0 <= j < i ==> r[j] == (if j < n then topics[j].(qos := codes[j]) else topics[j])
      invariant forall j :: i <= j < |r| ==> r[j] == topics[j]
    {
      if i < n {
        r := r[i := r[i].(qos := codes[i])];
      }
      i := i + 1;
    }
  }

  class ClientConn {
    var idGen: map<PacketId, Packet>
    var persist: map<Key, Packet>
    var logicSendC: seq<Packet>
    var msgC: seq<Event>
    var recvC: seq<Packet>
    var wire: seq<Packet>
    var closed: bool
    var netRecvC: seq<Packet>
    var keepaliveC: seq<int>
    var readerDone: bool

    /** The state the dispatcher and the writers share. */
    ghost function Model(): Conn
      reads this
    {
      Conn(idGen, persist, logicSendC, msgC, recvC, Link(wire, closed))
    }

    /** The reader's own channels. */
    ghost function RoutingModel(): Routing
      reads this
    {
      Routing(netRecvC, keepaliveC, readerDone)
    }

    /** A fresh connection of a client whose correlation table and store already exist. */
    constructor (table: map<PacketId, Packet>, store: map<Key, Packet>)
      ensures Model() == Conn(table, store, [], [], [], Link([], false))
      ensures RoutingModel() == Routing([], [], false)
    {
      idGen, persist := table, store;
      logicSendC, msgC, recvC, wire := [], [], [], [];
      closed := false;
      netRecvC, keepaliveC := [], [];
      readerDone := false;
    }

    /** send: queue a control packet for the control writer. */
    method Send(pkt: Packet)
      modifies this`logicSendC
      ensures Model() == Queued(old(Model()), pkt)
    {
      logicSendC := logicSendC + [pkt];
    }

    /** close: queue a DISCONNECT. */
    method Close()
      modifies this`logicSendC
      ensures Model() == Queued(old(Model()), Disconnect)
    {
      Send(Disconnect);
    }

    method StoreEntry(k: Key, p: Packet, ok: bool)
      modifies this`persist, this`msgC
      ensures Model() == Stored(old(Model()), k, p, ok)
    {
      if ok {
        persist := persist[k := p];
      } else {
        msgC := msgC + [PersistMsg];
      }
    }

    method DeleteEntry(k: Key, ok: bool)
      modifies this`persist, this`msgC
      ensures Model() == Deleted(old(Model()), k, ok)
    {
      if ok {
        persist := persist - {k};
      } else {
        msgC := msgC + [PersistMsg];
      }
    }

    method Free(id: PacketId)
      modifies this`idGen
      ensures Model() == Freed(old(Model()), id)
    {
      idGen := idGen - {id};
    }

    method HandleSubAck(id: PacketId, codes: seq<byte>, ok: bool)
      modifies this`idGen, this`persist, this`logicSendC, this`msgC, this`recvC
      ensures Model() == OnSubAck(old(Model()), id, codes, ok)
    {
      if id in idGen && idGen[id].Subscribe? {
        var topics := ApplyGrantedQos(idGen[id].topics, codes);
        msgC := msgC + [SubMsg(topics)];
        Free(id);
        DeleteEntry(SendKey(id), ok);
      }
    }

    method HandleUnsubAck(id: PacketId, ok: bool)
      modifies this`idGen, this`persist, this`logicSendC, this`msgC, this`recvC
      ensures Model() == OnUnsubAck(old(Model()), id, ok)
    {
      if id in idGen && idGen[id].Unsubscribe? {
        msgC := msgC + [UnsubMsg(idGen[id].topicNames)];
        Free(id);
        DeleteEntry(SendKey(id), ok);
      }
    }

    method HandlePublish(p: Packet, ok: bool)
      requires p.Publish?
      modifies this`idGen, this`persist, this`logicSendC, this`msgC, this`recvC
      ensures Model() == OnPublish(old(Model()), p, ok)
    {
      recvC := recvC + [p];
      if p.qos == Qos1 {
        Send(PubAck(p.packetId));
        StoreEntry(RecvKey(p.packetId), p, ok);
      } else if p.qos == Qos2 {
        Send(PubRec(p.packetId));
        StoreEntry(RecvKey(p.packetId), p, ok);
      }
    }

    method HandlePubAck(id: PacketId, ok: bool)
      modifies this`idGen, this`persist, this`logicSendC, this`msgC, this`recvC
      ensures Model() == OnPubAck(old(Model()), id, ok)
    {
      if id in idGen && idGen[id].Publish? && idGen[id].qos == Qos1 {
        msgC := msgC + [PubMsg(idGen[id].topicName)];
        Free(id);
        DeleteEntry(SendKey(id), ok);
      }
    }

    method HandlePubRec(id: PacketId)
      modifies this`idGen, this`persist, this`logicSendC, this`msgC, this`recvC
      ensures Model() == OnPubRec(old(Model()), id)
    {
      if id in idGen && idGen[id].Publish? && idGen[id].qos == Qos2 {
        Send(PubRel(id));
      }
    }

    method HandlePubRel(id: PacketId, ok: bool)
      modifies this`idGen, this`persist, this`logicSendC, this`msgC, this`recvC
      ensures Model() == OnPubRel(old(Model()), id, ok)
    {
      if id in idGen && idGen[id].Publish? && idGen[id].qos == Qos2 {
        Send(PubComp(id));
        StoreEntry(RecvKey(id), PubRel(id), ok);
      }
    }

    method HandlePubComp(id: PacketId, ok: bool)
      modifies this`idGen, this`persist, this`logicSendC, this`msgC, this`recvC
      ensures Model() == OnPubComp(old(Model()), id, ok)
    {
      if id in idGen && idGen[id].Publish? && idGen[id].qos == Qos2 {
        var topic := idGen[id].topicName;
        Send(PubRel(id));
        msgC := msgC + [PubMsg(topic)];
        Free(id);
        DeleteEntry(SendKey(id), ok);
      }
    }

    /** One iteration of the dispatcher loop: the reaction to one inbound packet. */
    method Dispatch(pkt: Packet, ok: bool)
      modifies this`idGen, this`persist, this`logicSendC, this`msgC, this`recvC
      ensures Model() == Step(old(Model()), pkt, ok)
    {
      match pkt
      case SubAck(id, codes) => HandleSubAck(id, codes, ok);
      case UnsubAck(id) => HandleUnsubAck(id, ok);
      case Publish(_, _, _, _) => HandlePublish(pkt, ok);
      case PubAck(id) => HandlePubAck(id, ok);
      case PubRec(id) => HandlePubRec(id);
      case PubRel(id) => HandlePubRel(id, ok);
      case PubComp(id) => HandlePubComp(id, ok);
      case _ =>
    }

    /** logic: the dispatcher loop over the packets the reader handed over, in order;
        oks[j] is the outcome of the store call made for pkts[j]. */
    method Logic(pkts: seq<Packet>, oks: seq<bool>)
      requires |oks| == |pkts|
      modifies this`idGen, this`persist, this`logicSendC, this`msgC, this`recvC
      ensures Model() == Run(old(Model()), pkts, oks)
    {
      var i := 0;
      while i < |pkts|
        invariant 0 <= i <= |pkts|
        invariant Model() == Run(old(Model()), pkts[..i], oks[..i])
      {
        Dispatch(pkts[i], oks[i]);
        assert pkts[..i + 1][..i] == pkts[..i];
        assert oks[..i + 1][..i] == oks[..i];
        i := i + 1;
      }
      assert pkts[..i] == pkts && oks[..i] == oks;
    }

    /** One iteration of handleClientSend after a successful encode and flush. */
    method FlushRequest(pkt: Packet)
      modifies this`msgC, this`wire
      ensures Model() == old(Model()).(link := Link(old(wire) + [pkt], old(closed)), msgC := old(msgC) + SentMsg(pkt))
    {
      wire := wire + [pkt];
      match pkt
      case Publish(topic, _, _, _) => msgC := msgC + [PubMsg(topic)];
      case Subscribe(_, topics) => msgC := msgC + [SubMsg(topics)];
      case Unsubscribe(_, names) => msgC := msgC + [UnsubMsg(names)];
      case _ =>
    }

    /** handleClientSend: flush the application's packets until the first encode or flush
        error, reporting each PUBLISH, SUBSCRIBE and UNSUBSCRIBE as sent. */
    method HandleClientSend(pkts: seq<Packet>, flushOks: seq<bool>)
      requires |flushOks| == |pkts|
      modifies this`msgC, this`wire
      ensures Model() == ClientSent(old(Model()), pkts, flushOks)
    {
      var i := 0;
      while i < |pkts| && flushOks[i]
        invariant 0 <= i <= FirstFailure(flushOks)
        invariant Model() == ClientFlushed(old(Model()), pkts[..i])
      {
        var pkt := pkts[i];
        FlushRequest(pkt);
        ClientFlushedOneMore(old(Model()), pkts[..i], pkt);
        assert pkts[..i + 1] == pkts[..i] + [pkt];
        i := i + 1;
      }
    }

    /** One iteration of handleLogicSend after a successful encode and flush. */
    method FlushControl(pkt: Packet, ok: bool)
      modifies this`persist, this`msgC, this`wire, this`closed
      ensures Model() == AfterLogicFlush(old(Model()), pkt, ok)
    {
      wire := wire + [pkt];
      match pkt
      case PubRel(id) => StoreEntry(SendKey(id), pkt, ok);
      case PubAck(id) => DeleteEntry(SendKey(id), ok);
      case PubComp(id) => DeleteEntry(SendKey(id), ok);
      case Disconnect => closed := true;
      case _ =>
    }

    /** handleLogicSend, as written: flush the control packets until the first encode or flush
        error; a flushed PUBREL is stored under its send key, a flushed PUBACK or PUBCOMP
        deletes its send key, and a flushed DISCONNECT closes the connection. */
    method HandleLogicSend(pkts: seq<Packet>, flushOks: seq<bool>, storeOks: seq<bool>)
      requires |flushOks| == |pkts| && |storeOks| == |pkts|
      modifies this`persist, this`msgC, this`wire, this`closed
      ensures Model() == LogicSent(old(Model()), pkts, flushOks, storeOks)
    {
      var i := 0;
      while i < |pkts| && flushOks[i]
        invariant 0 <= i <= FirstFailure(flushOks)
        invariant Model() == LogicFlushed(old(Model()), pkts[..i], storeOks[..i])
      {
        FlushControl(pkts[i], storeOks[i]);
        LogicFlushedOneMore(old(Model()), pkts, storeOks, i);
        i := i + 1;
      }

    }

    /** handleRecv: route each decoded packet until the first decode error, which closes both
        of the reader's channels. */
    method HandleRecv(rs: seq<Option<Packet>>)
      modifies this`netRecvC, this`keepaliveC, this`readerDone
      ensures RoutingModel() == Received(old(RoutingModel()), rs)
    {
      var i := 0;
      while i < |rs| && rs[i].Some?
        invariant 0 <= i <= FirstDecodeError(rs)
        invariant RoutingModel() == Routing(old(netRecvC) + Dispatched(rs[..i]), old(keepaliveC) + Pings(rs[..i]), old(readerDone))
      {
        var pkt := rs[i].value;
        RoutedOneMore(rs, i);
        if pkt == PingResp {
          keepaliveC := keepaliveC + [1];
        } else {
          netRecvC := netRecvC + [pkt];
        }
        i := i + 1;
      }
      if i < |rs| {
        readerDone := true;
      }
    }
  }
}
