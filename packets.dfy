/** The decoded MQTT 3.1.1 control packets the connection engine handles, the keys of the
    redelivery store and the events it reports upward. */
module Packets {

  /** An octet, as Go's `byte`: QoS levels and SUBACK return codes are bytes. */
  newtype byte = x: int | 0 <= x < 0x100

  /** A packet identifier, a 16-bit unsigned integer on the wire. */
  newtype PacketId = x: int | 0 <= x < 0x1_0000

  const Qos0: byte := 0
  const Qos1: byte := 1
  const Qos2: byte := 2

  datatype Option<T> = None | Some(value: T)

  /** A topic filter with the QoS requested in a SUBSCRIBE, later overwritten by the granted one. */
  datatype Topic = Topic(name: string, qos: byte)

  datatype Packet =
    | Connect
    | ConnAck(code: byte)
    | Publish(topicName: string, qos: byte, packetId: PacketId, payload: seq<byte>)
    | PubAck(packetId: PacketId)
    | PubRec(packetId: PacketId)
    | PubRel(packetId: PacketId)
    | PubComp(packetId: PacketId)
    | Subscribe(packetId: PacketId, topics: seq<Topic>)
    | SubAck(packetId: PacketId, codes: seq<byte>)
    | Unsubscribe(packetId: PacketId, topicNames: seq<string>)
    | UnsubAck(packetId: PacketId)
    | PingReq
    | PingResp
    | Disconnect

  /** Keys of the redelivery store: `sendKey(id)` and `recvKey(id)`. Being distinct constructors,
      a send key and a receive key never collide, whatever their identifiers. */
  datatype Key = SendKey(id: PacketId) | RecvKey(id: PacketId)

  /** The messages put on the upward event channel. The error carried by the first three is
      always nil in this core; the store's error value is opaque. */
  datatype Event =
    | PubMsg(topic: string)
    | SubMsg(topics: seq<Topic>)
    | UnsubMsg(topicNames: seq<string>)
    | PersistMsg

  /** The acknowledgements the dispatcher correlates with its own table. */
  predicate IsAck(pkt: Packet) {
    pkt.SubAck? || pkt.UnsubAck? || pkt.PubAck? || pkt.PubRec? || pkt.PubRel? || pkt.PubComp?
  }

  /** The replies the dispatcher itself queues for sending. */
  predicate IsControlReply(pkt: Packet) {
    pkt.PubAck? || pkt.PubRec? || pkt.PubRel? || pkt.PubComp?
  }

  /** `pkt` ends the exchange that `origin` started: the acknowledgement after which the
      identifier is freed and its send entry deleted. */
  predicate IsTerminalAck(origin: Packet, pkt: Packet) {
    match pkt
    case SubAck(_, _) => origin.Subscribe?
    case UnsubAck(_) => origin.Unsubscribe?
    case PubAck(_) => origin.Publish? && origin.qos == Qos1
    case PubComp(_) => origin.Publish? && origin.qos == Qos2
    case _ => false
  }
}
