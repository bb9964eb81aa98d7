/** The MQTT 3.1.1 control packets the broker reads and writes. */
module Packets {
  import opened Base

  datatype QoS = AtMostOnce | AtLeastOnce | ExactlyOnce

  /** The number a QoS level has on the wire. */
  function QosValue(q: QoS): Byte {
    match q
    case AtMostOnce => 0
    case AtLeastOnce => 1
    case ExactlyOnce => 2
  }

  datatype PublishPacket = PublishPacket(
    topic: Text,
    packetId: Option<U16>,
    payload: seq<Byte>,
    qos: QoS,
    retain: bool,
    dup: bool)

  /** What a client publishes, apart from how it is delivered. */
  datatype Message = Message(topic: Text, payload: seq<Byte>, retain: bool)

  datatype ConnectPacket = ConnectPacket(
    protocolName: Text,
    protocolLevel: Byte,
    cleanSession: bool,
    keepAlive: U16,
    clientId: Text,
    willFlag: bool,
    willQos: QoS,
    willRetain: bool,
    willTopic: Option<Text>,
    willPayload: Option<seq<Byte>>,
    username: Option<Text>,
    password: Option<seq<Byte>>)

  datatype Packet =
    | Connect(connect: ConnectPacket)
    | ConnAck(sessionPresent: bool, returnCode: Byte)
    | Publish(publish: PublishPacket)
    | PubAck(id: U16)
    | PubRec(id: U16)
    | PubRel(id: U16)
    | PubComp(id: U16)
    | Subscribe(id: U16, filters: seq<(Text, QoS)>)
    | SubAck(id: U16, returnCodes: seq<Byte>)
    | Unsubscribe(id: U16, topics: seq<Text>)
    | UnsubAck(id: U16)
    | PingReq
    | PingResp
    | Disconnect
}
