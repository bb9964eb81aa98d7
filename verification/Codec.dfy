/** The packet encoders, which append to a growing buffer, and the decoders,
    which advance a cursor. Each is proved to compute the meaning given in
    module Wire. */
module Codec {
  import opened Base
  import opened Packets
  import opened Wire

  /** A byte source and a parse of what it held before agree on the outcome and
      on what is left. */
  ghost predicate Follows<T>(p: Parse<T>, r: Result<T, PacketError>, rest: seq<Byte>) {
    match p
    case Ok(v) => r == Ok(v.value) && rest == v.rest
    case Err(e) => r == Err(e)
  }

  // ---------- encoding ----------

  class Buffer {
    var bytes: seq<Byte>

    constructor ()
      ensures bytes == []
    {
      bytes := [];
    }

    method PutU8(b: Byte)
      modifies this
      ensures bytes == old(bytes) + [b]
    {
      bytes := bytes + [b];
    }

    method PutU16(n: U16)
      modifies this
      ensures bytes == old(bytes) + U16Bytes(n)
    {
      bytes := bytes + [n / 256, n % 256];
    }

    method PutSlice(s: seq<Byte>)
      modifies this
      ensures bytes == old(bytes) + s
    {
      bytes := bytes + s;
    }
  }

  method EncodeRemainingLength(length: U32, buf: Buffer)
    modifies buf
    ensures buf.bytes == old(buf.bytes) + LengthBytes(length)
  {
    var remaining: U32 := length;
    while true
      invariant buf.bytes + LengthBytes(remaining) == old(buf.bytes) + LengthBytes(length)
      decreases remaining
    {
      ghost var digits := LengthBytes(remaining);
      var byte: Byte := remaining % 128;
      remaining := remaining / 128;
      if remaining > 0 {
        byte := byte + 128;
      }
      buf.PutU8(byte);
      if remaining == 0 {
        assert digits == [byte];
        break;
      }
      assert digits == [byte] + LengthBytes(remaining);
    }
  }

  method EncodeString(s: Text, buf: Buffer)
    modifies buf
    ensures buf.bytes == old(buf.bytes) + StringBytes(s)
  {
    buf.PutU16(|s| % 65536);
    buf.PutSlice(s);
  }

  method EncodePublish(p: PublishPacket, buf: Buffer)
    modifies buf
    ensures buf.bytes == old(buf.bytes) + PublishBytes(p)
  {
    var first: Byte := 48;
    if p.dup {
      first := first + 8;
    }
    first := first + QosValue(p.qos) * 2;
    if p.retain {
      first := first + 1;
    }
    buf.PutU8(first);
    var remainingLength := 2 + |p.topic|;
    if p.packetId.Some? {
      remainingLength := remainingLength + 2;
    }
    remainingLength := remainingLength + |p.payload|;
    assert remainingLength == |PublishBody(p)|;
    EncodeRemainingLength(remainingLength % U32_LIMIT, buf);
    EncodePublishBody(p, buf);
  }

  method EncodePublishBody(p: PublishPacket, buf: Buffer)
    modifies buf
    ensures buf.bytes == old(buf.bytes) + PublishBody(p)
  {
    EncodeString(p.topic, buf);
    if p.packetId.Some? {
      buf.PutU16(p.packetId.value);
    }
    buf.PutSlice(p.payload);
  }

  method EncodeId(first: Byte, id: U16, buf: Buffer)
    modifies buf
    ensures buf.bytes == old(buf.bytes) + ([first, 2] + U16Bytes(id))
  {
    buf.PutU8(first);
    buf.PutU8(2);
    buf.PutU16(id);
  }

  method EncodeReturnCodes(codes: seq<Byte>, buf: Buffer)
    modifies buf
    ensures buf.bytes == old(buf.bytes) + codes
  {
    for i := 0 to |codes|
      invariant buf.bytes == old(buf.bytes) + codes[..i]
    {
      buf.PutU8(codes[i]);
    }
  }

  method EncodeSubAck(id: U16, codes: seq<Byte>, buf: Buffer)
    modifies buf
    ensures buf.bytes == old(buf.bytes) + SubAckBytes(id, codes)
  {
    buf.PutU8(0x90);
    EncodeRemainingLength(SubAckLength(codes), buf);
    buf.PutU16(id);
    EncodeReturnCodes(codes, buf);
  }

  /** Encoding appends the packet's bytes and disturbs nothing before them. */
  method Encode(p: Packet, buf: Buffer)
    modifies buf
    ensures buf.bytes == old(buf.bytes) + PacketBytes(p)
  {
    match p {
      case ConnAck(present, code) =>
        buf.PutU8(0x20);
        buf.PutU8(2);
        buf.PutU8(if present then 1 else 0);
        buf.PutU8(code);
      case Publish(publish) => EncodePublish(publish, buf);
      case PubAck(id) => EncodeId(0x40, id, buf);
      case PubRec(id) => EncodeId(0x50, id, buf);
      case PubRel(id) => EncodeId(0x62, id, buf);
      case PubComp(id) => EncodeId(0x70, id, buf);
      case SubAck(id, codes) => EncodeSubAck(id, codes, buf);
      case UnsubAck(id) => EncodeId(0xB0, id, buf);
      case PingResp =>
        buf.PutU8(0xD0);
        buf.PutU8(0);
      case Disconnect =>
        buf.PutU8(0xE0);
        buf.PutU8(0);
      case _ => // clients send these
    }
  }

  // ---------- decoding ----------

  /** A position in a byte sequence. As a stream (`ReadByte`, `ReadExact`) it
      reports its end; as the cursor over one packet's body (`GetU8`, `GetU16`)
      it must not be read past it. */
  class Cursor {
    const data: seq<Byte>
    var pos: nat

    constructor (data: seq<Byte>)
      ensures Valid() && this.data == data && Rest() == data
    {
      this.data := data;
      pos := 0;
    }

    ghost predicate Valid()
      reads this
    {
      pos <= |data|
    }

    function Rest(): (r: seq<Byte>)
      requires Valid()
      reads this
    {
      data[pos..]
    }

    method ReadByte() returns (r: Result<Byte, PacketError>)
      requires Valid()
      modifies this`pos
      ensures Valid()
      ensures r == if |old(Rest())| == 0 then Err(Io) else Ok(old(Rest())[0])
      ensures r.Ok? ==> Rest() == old(Rest())[1..]
      ensures r.Err? ==> pos == old(pos)
    {
      if pos == |data| {
        return Err(Io);
      }
      r := Ok(data[pos]);
      pos := pos + 1;
    }

    method ReadExact(n: nat) returns (r: Result<seq<Byte>, PacketError>)
      requires Valid()
      modifies this`pos
      ensures Valid()
      ensures r == if |old(Rest())| < n then Err(Io) else Ok(old(Rest())[..n])
      ensures r.Ok? ==> Rest() == old(Rest())[n..]
    {
      if |data| - pos < n {
        pos := |data|;
        return Err(Io);
      }
      assert data[pos..pos + n] == Rest()[..n] && data[pos + n..] == Rest()[n..];
      r := Ok(data[pos..pos + n]);
      pos := pos + n;
    }

    method GetU8() returns (r: Result<Byte, PacketError>)
      requires Valid()
      modifies this`pos
      ensures Valid()
      ensures Follows(ReadU8(old(Rest())), r, Rest())
    {
      if pos == |data| {
        return Err(ShortRead);
      }
      r := Ok(data[pos]);
      pos := pos + 1;
    }

    method GetU16() returns (r: Result<U16, PacketError>)
      requires Valid()
      modifies this`pos
      ensures Valid()
      ensures Follows(ReadU16(old(Rest())), r, Rest())
    {
      if |data| - pos < 2 {
        return Err(ShortRead);
      }
      r := Ok(Word(data[pos], data[pos + 1]));
      pos := pos + 2;
    }

    /** Two length bytes and as many bytes as they say. */
    method GetBinary(onShort: PacketError) returns (r: Result<seq<Byte>, PacketError>)
      requires Valid()
      modifies this`pos
      ensures Valid()
      ensures Follows(ReadBinary(old(Rest()), onShort), r, Rest())
    {
      if |data| - pos < 2 {
        return Err(onShort);
      }
      var n := Word(data[pos], data[pos + 1]);
      pos := pos + 2;
      if |data| - pos < n {
        return Err(onShort);
      }
      assert data[pos..pos + n] == old(Rest())[2..2 + n] && data[pos + n..] == old(Rest())[2 + n..];
      r := Ok(data[pos..pos + n]);
      pos := pos + n;
    }
  }

  method DecodeRemainingLength(reader: Cursor) returns (r: Result<U32, PacketError>)
    requires reader.Valid()
    modifies reader`pos
    ensures reader.Valid()
    ensures Follows(ReadLength(old(reader.Rest()), 0, 0), r, reader.Rest())
  {
    var multiplier: U32 := 1;
    var value: U32 := 0;
    var byteCount := 0;
    while true
      invariant reader.Valid()
      invariant 0 <= byteCount <= 4
      invariant multiplier == Weight(byteCount) <= 268_435_456
      invariant value < multiplier
      invariant ReadLength(reader.Rest(), byteCount, value) == ReadLength(old(reader.Rest()), 0, 0)
      decreases 4 - byteCount
    {
      if byteCount >= 4 {
        return Err(InvalidRemainingLength);
      }
      assert Weight(1) == 128 && Weight(2) == 16_384 && Weight(3) == 2_097_152 && Weight(4) == 268_435_456;
      var byte :- reader.ReadByte();
      value := value + (byte % 128) * multiplier;
      if byte < 128 {
        break;
      }
      multiplier := multiplier * 128;
      byteCount := byteCount + 1;
    }
    r := Ok(value);
  }

  method DecodeString(utf8: seq<Byte> -> bool, cursor: Cursor) returns (r: Result<Text, PacketError>)
    requires cursor.Valid()
    modifies cursor`pos
    ensures cursor.Valid()
    ensures Follows(ReadString(utf8, old(cursor.Rest())), r, cursor.Rest())
  {
    var bytes :- cursor.GetBinary(IncompletePacket);
    if !utf8(bytes) {
      return Err(InvalidUtf8);
    }
    r := Ok(bytes);
  }

  method DecodePublish(utf8: seq<Byte> -> bool, cursor: Cursor, flags: Byte) returns (r: Result<PublishPacket, PacketError>)
    requires cursor.Valid()
    modifies cursor`pos
    ensures cursor.Valid()
    ensures r == ReadPublish(utf8, old(cursor.Rest()), flags)
  {
    var topic :- DecodeString(utf8, cursor);
    var qos := ReadQos(flags / 2 % 4);
    if qos.None? {
      return Err(InvalidPacketType(flags));
    }
    var packetId := None;
    if qos.value != AtMostOnce {
      var id :- cursor.GetU16();
      packetId := Some(id);
    }
    var payload := cursor.Rest();
    cursor.pos := |cursor.data|;
    r := Ok(PublishPacket(topic, packetId, payload, qos.value, flags % 2 == 1, flags / 8 % 2 == 1));
  }

  /** What has been read so far, and the reading of what is left. */
  function Prepended<T>(before: seq<T>, r: Result<seq<T>, PacketError>): Result<seq<T>, PacketError> {
    if r.Ok? then Ok(before + r.value) else r
  }

  lemma PrependedMore<T>(before: seq<T>, x: T, others: seq<T>)
    ensures Prepended(before, Ok([x] + others)) == Prepended(before + [x], Ok(others))
  {
    assert before + ([x] + others) == before + [x] + others;
  }

  lemma FiltersStep(utf8: seq<Byte> -> bool, bs: seq<Byte>, before: seq<(Text, QoS)>)
    requires |bs| > 0 && ReadString(utf8, bs).Ok? && ReadU8(ReadString(utf8, bs).value.rest).Ok?
    requires ReadQos(ReadU8(ReadString(utf8, bs).value.rest).value.value).Some?
    ensures var topic := ReadString(utf8, bs).value;
            var q := ReadU8(topic.rest).value;
            Prepended(before, ReadFilters(utf8, bs))
            == Prepended(before + [(topic.value, ReadQos(q.value).value)], ReadFilters(utf8, q.rest))
  {
    var topic := ReadString(utf8, bs).value;
    var q := ReadU8(topic.rest).value;
    var others := ReadFilters(utf8, q.rest);
    if others.Ok? {
      PrependedMore(before, (topic.value, ReadQos(q.value).value), others.value);
    }
  }

  lemma TopicsStep(utf8: seq<Byte> -> bool, bs: seq<Byte>, before: seq<Text>)
    requires |bs| > 0 && ReadString(utf8, bs).Ok?
    ensures var topic := ReadString(utf8, bs).value;
            Prepended(before, ReadTopics(utf8, bs)) == Prepended(before + [topic.value], ReadTopics(utf8, topic.rest))
  {
    var topic := ReadString(utf8, bs).value;
    var others := ReadTopics(utf8, topic.rest);
    if others.Ok? {
      PrependedMore(before, topic.value, others.value);
    }
  }

  lemma NothingRead<T>(r: Result<seq<T>, PacketError>, before: seq<T>)
    ensures Prepended([], r) == r && Prepended(before, Ok([])) == Ok(before)
  {
    if r.Ok? {
      assert [] + r.value == r.value;
    }
    assert before + [] == before;
  }

  method DecodeFilters(utf8: seq<Byte> -> bool, cursor: Cursor) returns (r: Result<seq<(Text, QoS)>, PacketError>)
    requires cursor.Valid()
    modifies cursor`pos
    ensures cursor.Valid()
    ensures r == ReadFilters(utf8, old(cursor.Rest()))
  {
    var filters := [];
    ghost var all := ReadFilters(utf8, cursor.Rest());
    NothingRead(all, filters);
    while |cursor.Rest()| > 0
      invariant cursor.Valid()
      invariant all == Prepended(filters, ReadFilters(utf8, cursor.Rest()))
      decreases |cursor.Rest()|
    {
      ghost var bs := cursor.Rest();
      var topic :- DecodeString(utf8, cursor);
      var qosByte :- cursor.GetU8();
      var qos := ReadQos(qosByte);
      if qos.None? {
        return Err(InvalidPacketType(qosByte));
      }
      FiltersStep(utf8, bs, filters);
      filters := filters + [(topic, qos.value)];
    }
    NothingRead(all, filters);
    r := Ok(filters);
  }

  method DecodeTopics(utf8: seq<Byte> -> bool, cursor: Cursor) returns (r: Result<seq<Text>, PacketError>)
    requires cursor.Valid()
    modifies cursor`pos
    ensures cursor.Valid()
    ensures r == ReadTopics(utf8, old(cursor.Rest()))
  {
    var topics := [];
    ghost var all := ReadTopics(utf8, cursor.Rest());
    NothingRead(all, topics);
    while |cursor.Rest()| > 0
      invariant cursor.Valid()
      invariant all == Prepended(topics, ReadTopics(utf8, cursor.Rest()))
      decreases |cursor.Rest()|
    {
      ghost var bs := cursor.Rest();
      var topic :- DecodeString(utf8, cursor);
      TopicsStep(utf8, bs, topics);
      topics := topics + [topic];
    }
    NothingRead(all, topics);
    r := Ok(topics);
  }

  method DecodeConnectPayload(utf8: seq<Byte> -> bool, cursor: Cursor, name: Text, level: Byte, flags: Byte,
                              keepAlive: U16, clientId: Text) returns (r: Result<ConnectPacket, PacketError>)
    requires cursor.Valid()
    modifies cursor`pos
    ensures cursor.Valid()
    ensures r == ReadConnectPayload(utf8, name, level, flags, keepAlive, clientId, old(cursor.Rest()))
  {
    var willQos := AtMostOnce;
    if WillBit(flags) {
      if WillQosBits(flags) == 3 {
        return Err(InvalidPacketFlags);
      }
      willQos := ReadQos(WillQosBits(flags)).value;
    }
    if PasswordBit(flags) && !UsernameBit(flags) {
      return Err(InvalidPacketFlags);
    }
    var willTopic, willPayload := None, None;
    if WillBit(flags) {
      var topic :- DecodeString(utf8, cursor);
      var payload :- cursor.GetBinary(ShortRead);
      willTopic, willPayload := Some(topic), Some(payload);
    }
    var username := None;
    if UsernameBit(flags) {
      var name :- DecodeString(utf8, cursor);
      username := Some(name);
    }
    var password := None;
    if PasswordBit(flags) {
      var bytes :- cursor.GetBinary(IncompletePacket);
      password := Some(bytes);
    }
    r := Ok(ConnectPacket(name, level, CleanSessionBit(flags), keepAlive, clientId, WillBit(flags), willQos,
                          WillRetainBit(flags), willTopic, willPayload, username, password));
  }

  method DecodeConnect(utf8: seq<Byte> -> bool, cursor: Cursor) returns (r: Result<ConnectPacket, PacketError>)
    requires cursor.Valid()
    modifies cursor`pos
    ensures cursor.Valid()
    ensures r == ReadConnect(utf8, old(cursor.Rest()))
  {
    var name :- DecodeString(utf8, cursor);
    var level :- cursor.GetU8();
    var flags :- cursor.GetU8();
    var keepAlive :- cursor.GetU16();
    var clientId :- DecodeString(utf8, cursor);
    r := DecodeConnectPayload(utf8, cursor, name, level, flags, keepAlive, clientId);
  }

  method DecodeIdBody(kind: Byte, remainingLength: nat, cursor: Cursor) returns (r: Result<U16, PacketError>)
    requires cursor.Valid() && |cursor.Rest()| == remainingLength
    modifies cursor`pos
    ensures cursor.Valid()
    ensures r == ReadIdBody(kind, old(cursor.Rest()))
  {
    if remainingLength != 2 {
      return Err(InvalidPacketType(kind));
    }
    var id :- cursor.GetU16();
    r := Ok(id);
  }

  method DecodeBody(utf8: seq<Byte> -> bool, kind: Byte, flags: Byte, remainingLength: nat, cursor: Cursor)
    returns (r: Result<Packet, PacketError>)
    requires cursor.Valid() && |cursor.Rest()| == remainingLength
    modifies cursor`pos
    ensures r == ReadBody(utf8, kind, flags, old(cursor.Rest()))
  {
    if kind == 1 {
      var c :- DecodeConnect(utf8, cursor);
      r := Ok(Connect(c));
    } else if kind == 3 {
      var p :- DecodePublish(utf8, cursor, flags);
      r := Ok(Publish(p));
    } else if kind == 4 {
      var id :- DecodeIdBody(kind, remainingLength, cursor);
      r := Ok(PubAck(id));
    } else if kind == 5 {
      var id :- DecodeIdBody(kind, remainingLength, cursor);
      r := Ok(PubRec(id));
    } else if kind == 6 {
      if flags != 2 {
        return Err(InvalidPacketFlags);
      }
      var id :- DecodeIdBody(kind, remainingLength, cursor);
      r := Ok(PubRel(id));
    } else if kind == 7 {
      var id :- DecodeIdBody(kind, remainingLength, cursor);
      r := Ok(PubComp(id));
    } else if kind == 8 {
      var id :- cursor.GetU16();
      var filters :- DecodeFilters(utf8, cursor);
      r := Ok(Subscribe(id, filters));
    } else if kind == 10 {
      var id :- cursor.GetU16();
      var topics :- DecodeTopics(utf8, cursor);
      r := Ok(Unsubscribe(id, topics));
    } else if kind == 12 {
      r := Ok(PingReq);
    } else if kind == 14 {
      r := Ok(Disconnect);
    } else {
      r := Err(InvalidPacketType(kind));
    }
  }

  /** Reads one packet off the stream and stops right behind it. */
  method Decode(utf8: seq<Byte> -> bool, reader: Cursor) returns (r: Result<Packet, PacketError>)
    requires reader.Valid()
    modifies reader`pos
    ensures reader.Valid()
    ensures Follows(ReadPacket(utf8, old(reader.Rest())), r, reader.Rest())
  {
    var first :- reader.ReadByte();
    var kind := first / 16;
    if !(1 <= kind <= 14) {
      return Err(InvalidPacketType(kind));
    }
    var remainingLength :- DecodeRemainingLength(reader);
    var data :- reader.ReadExact(remainingLength);
    var cursor := new Cursor(data);
    var packet :- DecodeBody(utf8, kind, first % 16, remainingLength, cursor);
    r := Ok(packet);
  }
}
