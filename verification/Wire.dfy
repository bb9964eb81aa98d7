/** What the bytes on the wire mean: a reading of a byte sequence as packets,
    and the byte sequence that stands for a packet. The methods of module Codec
    are proved to compute exactly these functions; module CodecProofs proves
    what the functions are worth. */
module Wire {
  import opened Base
  import opened Packets

  // The largest value four length bytes can carry.
  const MAX_REMAINING_LENGTH: int := 268_435_455

  datatype PacketError =
    | InvalidPacketType(code: Byte)
    | InvalidRemainingLength
    | IncompletePacket
    | InvalidUtf8
    | InvalidPacketFlags
    | Io          // the stream ended inside a packet
    | ShortRead   // a cursor was read past its end: the reading task aborts

  /** A value read from the front of a byte sequence, and what follows it. */
  datatype Parsed<+T> = Parsed(value: T, rest: seq<Byte>)

  type Parse<+T> = Result<Parsed<T>, PacketError>

  // ---------- reading ----------

  function Word(high: Byte, low: Byte): U16 {
    (high as int) * 256 + low
  }

  function ReadU8(bs: seq<Byte>): Parse<Byte> {
    if |bs| < 1 then Err(ShortRead) else Ok(Parsed(bs[0], bs[1..]))
  }

  function ReadU16(bs: seq<Byte>): Parse<U16> {
    if |bs| < 2 then Err(ShortRead) else Ok(Parsed(Word(bs[0], bs[1]), bs[2..]))
  }

  function ReadString(utf8: seq<Byte> -> bool, bs: seq<Byte>): Parse<Text> {
    if |bs| < 2 then Err(IncompletePacket)
    else
      var n := Word(bs[0], bs[1]);
      if |bs| - 2 < n then Err(IncompletePacket)
      else if !utf8(bs[2..2 + n]) then Err(InvalidUtf8)
      else Ok(Parsed(bs[2..2 + n], bs[2 + n..]))
  }

  /** Length-prefixed bytes; `onShort` is what a missing byte amounts to. */
  function ReadBinary(bs: seq<Byte>, onShort: PacketError): Parse<seq<Byte>> {
    if |bs| < 2 then Err(onShort)
    else
      var n := Word(bs[0], bs[1]);
      if |bs| - 2 < n then Err(onShort)
      else Ok(Parsed(bs[2..2 + n], bs[2 + n..]))
  }

  function ReadQos(n: int): Option<QoS> {
    if n == 0 then Some(AtMostOnce)
    else if n == 1 then Some(AtLeastOnce)
    else if n == 2 then Some(ExactlyOnce)
    else None
  }

  /** 128 to the power of the number of length bytes already read. */
  function Weight(count: nat): (w: nat)
    ensures w > 0
  {
    if count == 0 then 1 else 128 * Weight(count - 1)
  }

  /** The remaining length, `count` of whose bytes have been read and add up
      to `value`. */
  function ReadLength(bs: seq<Byte>, count: nat, value: nat): Parse<nat>
    decreases |bs|
  {
    if count >= 4 then Err(InvalidRemainingLength)
    else if |bs| == 0 then Err(Io)
    else
      var v := value + (bs[0] % 128) * Weight(count);
      if bs[0] < 128 then Ok(Parsed(v, bs[1..]))
      else ReadLength(bs[1..], count + 1, v)
  }

  function ReadPublish(utf8: seq<Byte> -> bool, data: seq<Byte>, flags: Byte): Result<PublishPacket, PacketError> {
    var topic :- ReadString(utf8, data);
    match ReadQos(flags / 2 % 4)
    case None => Err(InvalidPacketType(flags))
    case Some(AtMostOnce) =>
      Ok(PublishPacket(topic.value, None, topic.rest, AtMostOnce, flags % 2 == 1, flags / 8 % 2 == 1))
    case Some(qos) =>
      var id :- ReadU16(topic.rest);
      Ok(PublishPacket(topic.value, Some(id.value), id.rest, qos, flags % 2 == 1, flags / 8 % 2 == 1))
  }

  function ReadFilters(utf8: seq<Byte> -> bool, bs: seq<Byte>): Result<seq<(Text, QoS)>, PacketError>
    decreases |bs|
  {
    if |bs| == 0 then Ok([])
    else
      var topic :- ReadString(utf8, bs);
      var q :- ReadU8(topic.rest);
      match ReadQos(q.value)
      case None => Err(InvalidPacketType(q.value))
      case Some(qos) =>
        var others :- ReadFilters(utf8, q.rest);
        Ok([(topic.value, qos)] + others)
  }

  function ReadTopics(utf8: seq<Byte> -> bool, bs: seq<Byte>): Result<seq<Text>, PacketError>
    decreases |bs|
  {
    if |bs| == 0 then Ok([])
    else
      var topic :- ReadString(utf8, bs);
      var others :- ReadTopics(utf8, topic.rest);
      Ok([topic.value] + others)
  }

  function ReadWill(utf8: seq<Byte> -> bool, bs: seq<Byte>, present: bool): Parse<(Option<Text>, Option<seq<Byte>>)> {
    if !present then Ok(Parsed((None, None), bs))
    else
      var topic :- ReadString(utf8, bs);
      var payload :- ReadBinary(topic.rest, ShortRead);
      Ok(Parsed((Some(topic.value), Some(payload.value)), payload.rest))
  }

  function ReadUsername(utf8: seq<Byte> -> bool, bs: seq<Byte>, present: bool): Parse<Option<Text>> {
    if !present then Ok(Parsed(None, bs))
    else
      var name :- ReadString(utf8, bs);
      Ok(Parsed(Some(name.value), name.rest))
  }

  function ReadPassword(bs: seq<Byte>, present: bool): Parse<Option<seq<Byte>>> {
    if !present then Ok(Parsed(None, bs))
    else
      var password :- ReadBinary(bs, IncompletePacket);
      Ok(Parsed(Some(password.value), password.rest))
  }

  // The CONNECT flag bits of section 3.1.2.3 of MQTT 3.1.1.
  predicate CleanSessionBit(flags: Byte) { flags / 2 % 2 == 1 }
  predicate WillBit(flags: Byte) { flags / 4 % 2 == 1 }
  function WillQosBits(flags: Byte): int { flags / 8 % 4 }
  predicate WillRetainBit(flags: Byte) { flags / 32 % 2 == 1 }
  predicate PasswordBit(flags: Byte) { flags / 64 % 2 == 1 }
  predicate UsernameBit(flags: Byte) { flags / 128 % 2 == 1 }

  /** What follows the client identifier; the flags say which fields are there. */
  function ReadConnectPayload(utf8: seq<Byte> -> bool, name: Text, level: Byte, f: Byte, keepAlive: U16,
                              clientId: Text, bs: seq<Byte>): Result<ConnectPacket, PacketError>
  {
    if WillBit(f) && WillQosBits(f) == 3 then Err(InvalidPacketFlags)
    else if PasswordBit(f) && !UsernameBit(f) then Err(InvalidPacketFlags)
    else
      var will :- ReadWill(utf8, bs, WillBit(f));
      var username :- ReadUsername(utf8, will.rest, UsernameBit(f));
      var password :- ReadPassword(username.rest, PasswordBit(f));
      var willQos := if WillBit(f) then ReadQos(WillQosBits(f)).value else AtMostOnce;
      Ok(ConnectPacket(name, level, CleanSessionBit(f), keepAlive, clientId, WillBit(f), willQos, WillRetainBit(f),
                       will.value.0, will.value.1, username.value, password.value))
  }

  function ReadConnect(utf8: seq<Byte> -> bool, data: seq<Byte>): Result<ConnectPacket, PacketError> {
    var name :- ReadString(utf8, data);
    var level :- ReadU8(name.rest);
    var flags :- ReadU8(level.rest);
    var keepAlive :- ReadU16(flags.rest);
    var clientId :- ReadString(utf8, keepAlive.rest);
    ReadConnectPayload(utf8, name.value, level.value, flags.value, keepAlive.value, clientId.value, clientId.rest)
  }

  /** A packet whose whole body is a packet identifier. */
  function ReadIdBody(kind: Byte, data: seq<Byte>): Result<U16, PacketError> {
    if |data| != 2 then Err(InvalidPacketType(kind)) else Ok(Word(data[0], data[1]))
  }

  function ReadSubscribe(utf8: seq<Byte> -> bool, data: seq<Byte>): Result<Packet, PacketError> {
    var id :- ReadU16(data);
    var filters :- ReadFilters(utf8, id.rest);
    Ok(Subscribe(id.value, filters))
  }

  function ReadUnsubscribe(utf8: seq<Byte> -> bool, data: seq<Byte>): Result<Packet, PacketError> {
    var id :- ReadU16(data);
    var topics :- ReadTopics(utf8, id.rest);
    Ok(Unsubscribe(id.value, topics))
  }

  /** The packet of type `kind` whose body is `data`. */
  function ReadBody(utf8: seq<Byte> -> bool, kind: Byte, flags: Byte, data: seq<Byte>): Result<Packet, PacketError> {
    if kind == 1 then var c :- ReadConnect(utf8, data); Ok(Connect(c))
    else if kind == 3 then var p :- ReadPublish(utf8, data, flags); Ok(Publish(p))
    else if kind == 4 then var id :- ReadIdBody(kind, data); Ok(PubAck(id))
    else if kind == 5 then var id :- ReadIdBody(kind, data); Ok(PubRec(id))
    else if kind == 6 then
      if flags != 2 then Err(InvalidPacketFlags) else var id :- ReadIdBody(kind, data); Ok(PubRel(id))
    else if kind == 7 then var id :- ReadIdBody(kind, data); Ok(PubComp(id))
    else if kind == 8 then ReadSubscribe(utf8, data)
    else if kind == 10 then ReadUnsubscribe(utf8, data)
    else if kind == 12 then Ok(PingReq)
    else if kind == 14 then Ok(Disconnect)
    else Err(InvalidPacketType(kind))
  }

  /** The first packet of a byte stream. */
  function ReadPacket(utf8: seq<Byte> -> bool, bs: seq<Byte>): Parse<Packet> {
    if |bs| == 0 then Err(Io)
    else
      var kind := bs[0] / 16;
      if !(1 <= kind <= 14) then Err(InvalidPacketType(kind))
      else
        var length :- ReadLength(bs[1..], 0, 0);
        if |length.rest| < length.value then Err(Io)
        else
          var packet :- ReadBody(utf8, kind, bs[0] % 16, length.rest[..length.value]);
          Ok(Parsed(packet, length.rest[length.value..]))
  }

  // ---------- writing ----------

  function U16Bytes(n: U16): seq<Byte> {
    [n / 256, n % 256]
  }

  /** The length prefix is cut down to sixteen bits, as the cast does. */
  function StringBytes(s: Text): seq<Byte> {
    U16Bytes(|s| % 65536) + s
  }

  function LengthBytes(n: nat): seq<Byte> {
    if n < 128 then [n] else [n % 128 + 128] + LengthBytes(n / 128)
  }

  function Bit(b: bool, weight: nat): nat {
    if b then weight else 0
  }

  function PublishBody(p: PublishPacket): seq<Byte> {
    StringBytes(p.topic) + (if p.packetId.Some? then U16Bytes(p.packetId.value) else []) + p.payload
  }

  function PublishBytes(p: PublishPacket): seq<Byte> {
    [48 + Bit(p.dup, 8) + QosValue(p.qos) * 2 + Bit(p.retain, 1)]
    + LengthBytes(|PublishBody(p)| % U32_LIMIT) + PublishBody(p)
  }

  function SubAckLength(codes: seq<Byte>): U32 {
    (2 + |codes| % U32_LIMIT) % U32_LIMIT
  }

  function SubAckBytes(id: U16, codes: seq<Byte>): seq<Byte> {
    [0x90] + LengthBytes(SubAckLength(codes)) + U16Bytes(id) + codes
  }

  /** What the broker writes for a packet. It has no encoder for the packets
      that only clients send. */
  function PacketBytes(p: Packet): seq<Byte> {
    match p
    case ConnAck(present, code) => [0x20, 2, Bit(present, 1), code]
    case Publish(publish) => PublishBytes(publish)
    case PubAck(id) => [0x40, 2] + U16Bytes(id)
    case PubRec(id) => [0x50, 2] + U16Bytes(id)
    case PubRel(id) => [0x62, 2] + U16Bytes(id)
    case PubComp(id) => [0x70, 2] + U16Bytes(id)
    case SubAck(id, codes) => SubAckBytes(id, codes)
    case UnsubAck(id) => [0xB0, 2] + U16Bytes(id)
    case PingResp => [0xD0, 0]
    case Disconnect => [0xE0, 0]
    case _ => []
  }

  // ---------- what clients write (sections 3.1, 3.8 and 3.10 of MQTT 3.1.1) ----------

  function ConnectFlags(c: ConnectPacket): Byte {
    Bit(c.cleanSession, 2) + Bit(c.willFlag, 4) + QosValue(c.willQos) * 8 + Bit(c.willRetain, 32)
    + Bit(c.password.Some?, 64) + Bit(c.username.Some?, 128)
  }

  function OptionalString(s: Option<Text>): seq<Byte> {
    if s.Some? then StringBytes(s.value) else []
  }

  function ConnectBody(c: ConnectPacket): seq<Byte> {
    StringBytes(c.protocolName) + ([c.protocolLevel] + ([ConnectFlags(c)] + (U16Bytes(c.keepAlive)
    + (StringBytes(c.clientId) + (OptionalString(c.willTopic) + (OptionalString(c.willPayload)
    + (OptionalString(c.username) + OptionalString(c.password))))))))
  }

  function FilterBytes(filters: seq<(Text, QoS)>): seq<Byte> {
    if filters == [] then []
    else StringBytes(filters[0].0) + ([QosValue(filters[0].1)] + FilterBytes(filters[1..]))
  }

  function TopicBytes(topics: seq<Text>): seq<Byte> {
    if topics == [] then [] else StringBytes(topics[0]) + TopicBytes(topics[1..])
  }

  /** Type and flags, length and body of a packet a client may send. */
  function Framed(first: Byte, body: seq<Byte>): seq<Byte> {
    [first] + LengthBytes(|body|) + body
  }

  function ClientBytes(p: Packet): seq<Byte> {
    match p
    case Connect(c) => Framed(0x10, ConnectBody(c))
    case Subscribe(id, filters) => Framed(0x82, U16Bytes(id) + FilterBytes(filters))
    case Unsubscribe(id, topics) => Framed(0xA2, U16Bytes(id) + TopicBytes(topics))
    case PingReq => [0xC0, 0]
    case _ => PacketBytes(p)
  }

  function StreamBytes(ps: seq<Packet>): seq<Byte> {
    if ps == [] then [] else ClientBytes(ps[0]) + StreamBytes(ps[1..])
  }

  // ---------- what the broker has written to one client ----------

  function Concatenated(parts: seq<seq<Byte>>): seq<Byte> {
    if parts == [] then [] else Concatenated(parts[..|parts| - 1]) + parts[|parts| - 1]
  }

  function Parts(ps: seq<Packet>): seq<seq<Byte>> {
    seq(|ps|, i requires 0 <= i < |ps| => PacketBytes(ps[i]))
  }

  /** The bytes of a list of packets, one after the other. */
  function BytesOf(ps: seq<Packet>): seq<Byte> {
    Concatenated(Parts(ps))
  }
}
