/** The wire format from the other side. What only servers send is read back by a
    reader that follows sections 3.2, 3.9, 3.11 and 3.13 of MQTT 3.1.1; and what
    clients may not send is refused. */
module PacketReading {
  import opened Base
  import opened Packets
  import opened Wire
  import opened CodecProofs

  // ---------- what clients read ----------

  /** Two bytes, the higher one first. */
  function Number(bytes: seq<Byte>): U16
    requires |bytes| == 2
  {
    (bytes[0] as int) * 256 + bytes[1]
  }

  lemma NumberRead(id: U16)
    ensures |U16Bytes(id)| == 2 && Number(U16Bytes(id)) == id
  {
  }

  /** A packet that only servers send, at the front of a byte stream. */
  function ReadFromServer(bs: seq<Byte>): Option<Parsed<Packet>> {
    if |bs| >= 4 && bs[0] == 0x20 && bs[1] == 2 && bs[2] <= 1 then   // CONNACK: flags, return code
      Some(Parsed(ConnAck(bs[2] == 1, bs[3]), bs[4..]))
    else if |bs| >= 4 && bs[0] == 0xB0 && bs[1] == 2 then            // UNSUBACK: identifier
      Some(Parsed(UnsubAck(Number(bs[2..4])), bs[4..]))
    else if |bs| >= 2 && bs[0] == 0xD0 && bs[1] == 0 then            // PINGRESP
      Some(Parsed(PingResp, bs[2..]))
    else if |bs| >= 1 && bs[0] == 0x90 then ReadSubAck(bs[1..])
    else None
  }

  /** SUBACK: identifier and return codes, up to the remaining length. */
  function ReadSubAck(bs: seq<Byte>): Option<Parsed<Packet>> {
    match ReadLength(bs, 0, 0)
    case Err(_) => None
    case Ok(n) =>
      if n.value < 2 || |n.rest| < n.value then None
      else Some(Parsed(SubAck(Number(n.rest[..2]), n.rest[2..n.value]), n.rest[n.value..]))
  }

  lemma SubAckBody(id: U16, codes: seq<Byte>, rest: seq<Byte>)
    ensures var body := U16Bytes(id) + codes + rest;
            |body| >= 2 + |codes| && Number(body[..2]) == id && body[2..2 + |codes|] == codes && body[2 + |codes|..] == rest
  {
    var body := U16Bytes(id) + codes + rest;
    NumberRead(id);
    assert body[..2] == U16Bytes(id);
    assert body[2..2 + |codes|] == codes;
    assert body[2 + |codes|..] == rest;
  }

  lemma SubAckReadBack(id: U16, codes: seq<Byte>, rest: seq<Byte>)
    requires 2 + |codes| <= MAX_REMAINING_LENGTH
    ensures ReadSubAck(LengthBytes(2 + |codes|) + (U16Bytes(id) + codes + rest)) == Some(Parsed(SubAck(id, codes), rest))
  {
    LengthRoundTrip(2 + |codes|, U16Bytes(id) + codes + rest);
    SubAckBody(id, codes, rest);
  }

  lemma SubAckStarts(id: U16, codes: seq<Byte>, rest: seq<Byte>)
    requires 2 + |codes| <= MAX_REMAINING_LENGTH
    ensures var bs := SubAckBytes(id, codes) + rest;
            |bs| > 0 && bs[0] == 0x90 && bs[1..] == LengthBytes(2 + |codes|) + (U16Bytes(id) + codes + rest)
  {
    assert SubAckLength(codes) == 2 + |codes|;
    var bs := SubAckBytes(id, codes) + rest;
    assert bs == [0x90] + (LengthBytes(2 + |codes|) + (U16Bytes(id) + codes + rest));
  }

  lemma UnsubAckReadBack(id: U16, rest: seq<Byte>)
    ensures ReadFromServer(PacketBytes(UnsubAck(id)) + rest) == Some(Parsed(UnsubAck(id), rest))
  {
    var bs := [0xB0, 2] + U16Bytes(id) + rest;
    NumberRead(id);
    assert bs[2..4] == U16Bytes(id);
    assert bs[4..] == rest;
  }

  lemma ConnAckReadBack(present: bool, code: Byte, rest: seq<Byte>)
    ensures ReadFromServer(PacketBytes(ConnAck(present, code)) + rest) == Some(Parsed(ConnAck(present, code), rest))
  {
    assert ([0x20, 2, Bit(present, 1), code] + rest)[4..] == rest;
  }

  lemma PingRespReadBack(rest: seq<Byte>)
    ensures ReadFromServer(PacketBytes(PingResp) + rest) == Some(Parsed(PingResp, rest))
  {
    assert ([0xD0, 0] + rest)[2..] == rest;
  }

  lemma SubAckPacketReadBack(id: U16, codes: seq<Byte>, rest: seq<Byte>)
    requires 2 + |codes| <= MAX_REMAINING_LENGTH
    ensures ReadFromServer(PacketBytes(SubAck(id, codes)) + rest) == Some(Parsed(SubAck(id, codes), rest))
  {
    SubAckStarts(id, codes, rest);
    SubAckReadBack(id, codes, rest);
  }

  /** What only servers send is read back by a client, whatever follows; a SUBACK if
      its length can be expressed. */
  lemma ServerPacketReadBack(p: Packet, rest: seq<Byte>)
    requires p.ConnAck? || p.SubAck? || p.UnsubAck? || p.PingResp?
    requires p.SubAck? ==> 2 + |p.returnCodes| <= MAX_REMAINING_LENGTH
    ensures ReadFromServer(PacketBytes(p) + rest) == Some(Parsed(p, rest))
  {
    match p {
      case SubAck(id, codes) => SubAckPacketReadBack(id, codes, rest);
      case UnsubAck(id) => UnsubAckReadBack(id, rest);
      case PingResp => PingRespReadBack(rest);
      case ConnAck(present, code) => ConnAckReadBack(present, code, rest);
    }
  }

  /** What clients send too is not taken for a packet that only servers send. */
  lemma NotFromServer(p: Packet, rest: seq<Byte>)
    requires p.Publish? || p.PubAck? || p.PubRec? || p.PubRel? || p.PubComp? || p.Disconnect?
    ensures ReadFromServer(PacketBytes(p) + rest) == None && PacketBytes(p) != []
  {
    var first := (PacketBytes(p) + rest)[0];
    assert first == PacketBytes(p)[0];
    if p.Publish? {
      PublishFirstByte(p.publish);
    }
  }

  /** The first byte of a PUBLISH, in every combination of its flags. */
  lemma PublishFirstByte(p: PublishPacket)
    ensures PublishBytes(p)[0] ==
              match p.qos
              case AtMostOnce => (if p.dup then 0x38 else 0x30) + (if p.retain then 1 else 0)
              case AtLeastOnce => (if p.dup then 0x3A else 0x32) + (if p.retain then 1 else 0)
              case ExactlyOnce => (if p.dup then 0x3C else 0x34) + (if p.retain then 1 else 0)
  {
  }

  // ---------- what has been written to a client ----------

  lemma ConcatenatedMore(parts: seq<seq<Byte>>, part: seq<Byte>)
    ensures Concatenated(parts + [part]) == Concatenated(parts) + part
  {
    assert (parts + [part])[..|parts|] == parts;
  }

  lemma {:induction false} ConcatenatedFirst(parts: seq<seq<Byte>>)
    requires parts != []
    ensures Concatenated(parts) == parts[0] + Concatenated(parts[1..])
    decreases |parts|
  {
    if |parts| == 1 {
      assert parts[..0] == [] && parts[1..] == [];
    } else {
      var front, last := parts[..|parts| - 1], parts[|parts| - 1];
      var middle := Concatenated(front[1..]);
      ConcatenatedFirst(front);
      assert front[0] == parts[0] && parts[1..] == front[1..] + [last];
      ConcatenatedMore(front[1..], last);
      assert parts[0] + middle + last == parts[0] + (middle + last);
    }
  }

  lemma BytesOfMore(ps: seq<Packet>, p: Packet)
    ensures BytesOf(ps + [p]) == BytesOf(ps) + PacketBytes(p)
  {
    assert Parts(ps + [p]) == Parts(ps) + [PacketBytes(p)];
    ConcatenatedMore(Parts(ps), PacketBytes(p));
  }

  lemma BytesOfFirst(ps: seq<Packet>)
    requires ps != []
    ensures BytesOf(ps) == PacketBytes(ps[0]) + BytesOf(ps[1..])
  {
    ConcatenatedFirst(Parts(ps));
    assert Parts(ps)[1..] == Parts(ps[1..]);
  }

  /** A packet of the broker's, at the front of a byte stream, as a client reads it. */
  function Heard(utf8: seq<Byte> -> bool, bs: seq<Byte>): Option<Parsed<Packet>> {
    var p := ReadFromServer(bs);
    if p.Some? then p
    else
      var r := ReadPacket(utf8, bs);
      if r.Ok? then Some(r.value) else None
  }

  /** All of a stream. */
  function HeardAll(utf8: seq<Byte> -> bool, bs: seq<Byte>): Option<seq<Packet>>
    decreases |bs|
  {
    if bs == [] then Some([])
    else
      match Heard(utf8, bs)
      case None => None
      case Some(p) =>
        if |p.rest| >= |bs| then None
        else
          match HeardAll(utf8, p.rest)
          case None => None
          case Some(others) => Some([p.value] + others)
  }

  /** A packet that the broker writes and that fits the wire. */
  predicate Tellable(utf8: seq<Byte> -> bool, p: Packet) {
    match p
    case Publish(m) => PublishWellFormed(utf8, m)
    case SubAck(_, codes) => 2 + |codes| <= MAX_REMAINING_LENGTH
    case Connect(_) => false
    case Subscribe(_, _) => false
    case Unsubscribe(_, _) => false
    case PingReq => false
    case _ => true
  }

  lemma OneHeard(utf8: seq<Byte> -> bool, p: Packet, rest: seq<Byte>)
    requires Tellable(utf8, p)
    ensures Heard(utf8, PacketBytes(p) + rest) == Some(Parsed(p, rest))
    ensures PacketBytes(p) != []
  {
    if p.ConnAck? || p.SubAck? || p.UnsubAck? || p.PingResp? {
      ServerPacketReadBack(p, rest);
    } else {
      PacketRead(utf8, p, rest);
      NotFromServer(p, rest);
    }
  }

  /** A client reads from the connection exactly the packets that were written to
      it, in their order. */
  lemma {:induction false} WrittenIsHeard(utf8: seq<Byte> -> bool, ps: seq<Packet>)
    requires forall p <- ps :: Tellable(utf8, p)
    ensures HeardAll(utf8, BytesOf(ps)) == Some(ps)
    decreases |ps|
  {
    if ps != [] {
      BytesOfFirst(ps);
      assert ps[0] in ps;
      OneHeard(utf8, ps[0], BytesOf(ps[1..]));
      WrittenIsHeard(utf8, ps[1..]);
      assert [ps[0]] + ps[1..] == ps;
    }
  }

  // ---------- what the broker refuses ----------

  /** The outcome for a whole packet is the outcome for its body. */
  lemma FramedOutcome(utf8: seq<Byte> -> bool, first: Byte, body: seq<Byte>, rest: seq<Byte>)
    requires 1 <= first / 16 <= 14 && |body| <= MAX_REMAINING_LENGTH
    ensures ReadPacket(utf8, Framed(first, body) + rest)
         == match ReadBody(utf8, first / 16, first % 16, body)
            case Ok(p) => Ok(Parsed(p, rest))
            case Err(e) => Err(e)
  {
    FrameRead(first, body, rest);
    assert (body + rest)[..|body|] == body;
    assert (body + rest)[|body|..] == rest;
  }

  /** A packet of type 0 or 15 is refused by its first byte alone. */
  lemma UnknownTypeRefused(utf8: seq<Byte> -> bool, bs: seq<Byte>)
    requires |bs| > 0 && (bs[0] < 16 || bs[0] >= 240)
    ensures ReadPacket(utf8, bs) == Err(InvalidPacketType(bs[0] / 16))
  {
  }

  /** What only servers send is refused: CONNACK, SUBACK, UNSUBACK and PINGRESP. */
  lemma ServerPacketRefused(utf8: seq<Byte> -> bool, first: Byte, body: seq<Byte>, rest: seq<Byte>)
    requires first / 16 in {2, 9, 11, 13} && |body| <= MAX_REMAINING_LENGTH
    ensures ReadPacket(utf8, Framed(first, body) + rest) == Err(InvalidPacketType(first / 16))
  {
    FramedOutcome(utf8, first, body, rest);
  }

  /** An acknowledgement is accepted exactly if its body has two bytes, a PUBREL if
      besides its flags are 2. */
  lemma AcknowledgementAccepted(utf8: seq<Byte> -> bool, first: Byte, body: seq<Byte>, rest: seq<Byte>)
    requires 4 <= first / 16 <= 7 && |body| <= MAX_REMAINING_LENGTH
    ensures ReadPacket(utf8, Framed(first, body) + rest)
         == if first / 16 == 6 && first % 16 != 2 then Err(InvalidPacketFlags)
            else if |body| != 2 then Err(InvalidPacketType(first / 16))
            else
              var id := Number(body);
              Ok(Parsed(if first / 16 == 4 then PubAck(id) else if first / 16 == 5 then PubRec(id)
                        else if first / 16 == 6 then PubRel(id) else PubComp(id), rest))
  {
    FramedOutcome(utf8, first, body, rest);
  }

  /** PINGREQ and DISCONNECT are accepted whatever their flags and body are. */
  lemma EmptyPacketAccepted(utf8: seq<Byte> -> bool, first: Byte, body: seq<Byte>, rest: seq<Byte>)
    requires first / 16 in {12, 14} && |body| <= MAX_REMAINING_LENGTH
    ensures ReadPacket(utf8, Framed(first, body) + rest)
         == Ok(Parsed(if first / 16 == 12 then PingReq else Disconnect, rest))
  {
    FramedOutcome(utf8, first, body, rest);
  }

  /** A PUBLISH with both QoS bits set is refused. */
  lemma ThirdLevelRefused(utf8: seq<Byte> -> bool, first: Byte, topic: Text, tail: seq<Byte>, rest: seq<Byte>)
    requires first / 16 == 3 && first / 2 % 4 == 3 && Sendable(utf8, topic)
    requires |StringBytes(topic) + tail| <= MAX_REMAINING_LENGTH
    ensures ReadPacket(utf8, Framed(first, StringBytes(topic) + tail) + rest) == Err(InvalidPacketType(first % 16))
  {
    StringRead(utf8, topic, tail);
    assert first % 16 / 2 % 4 == 3;
    FramedOutcome(utf8, first, StringBytes(topic) + tail, rest);
  }

  /** A packet cut short is not read. */
  lemma CutShortRefused(utf8: seq<Byte> -> bool, first: Byte, body: seq<Byte>, n: nat)
    requires 1 <= first / 16 <= 14 && |body| <= MAX_REMAINING_LENGTH && n < |body|
    ensures ReadPacket(utf8, [first] + LengthBytes(|body|) + body[..n]) == Err(Io)
  {
    HeaderRead(first, |body|, body[..n]);
  }

  lemma HeaderRead(first: Byte, length: nat, tail: seq<Byte>)
    requires length <= MAX_REMAINING_LENGTH
    ensures var bs := [first] + LengthBytes(length) + tail;
            |bs| > 0 && bs[0] == first && ReadLength(bs[1..], 0, 0) == Ok(Parsed(length, tail))
  {
    var bs := [first] + LengthBytes(length) + tail;
    assert bs == [first] + (LengthBytes(length) + tail);
    assert bs[1..] == LengthBytes(length) + tail;
    LengthRoundTrip(length, tail);
  }

  /** A password without a user name, and a will with both QoS bits set, are refused
      whatever follows the client identifier. */
  lemma ConnectFlagsRefused(utf8: seq<Byte> -> bool, name: Text, level: Byte, flags: Byte, keepAlive: U16, clientId: Text,
                            payload: seq<Byte>)
    requires Sendable(utf8, name) && Sendable(utf8, clientId)
    requires (flags / 64 % 2 == 1 && flags / 128 == 0) || (flags / 4 % 2 == 1 && flags / 8 % 4 == 3)
    ensures ReadConnect(utf8, StringBytes(name) + ([level] + ([flags] + (U16Bytes(keepAlive)
                              + (StringBytes(clientId) + payload)))))
         == Err(InvalidPacketFlags)
  {
    var tail := StringBytes(clientId) + payload;
    StringRead(utf8, name, [level] + ([flags] + (U16Bytes(keepAlive) + tail)));
    ConnectHeaderRead(level, flags, keepAlive, tail);
    StringRead(utf8, clientId, payload);
  }
}
