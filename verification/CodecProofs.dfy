/** What the wire format is worth: reading undoes writing, on streams of any
    length, and nothing that is read fails to be writable. */
module CodecProofs {
  import opened Base
  import opened Packets
  import opened Wire

  // ---------- the remaining length ----------

  lemma Weights()
    ensures Weight(0) == 1 && Weight(1) == 128 && Weight(2) == 16_384 && Weight(3) == 2_097_152 && Weight(4) == 268_435_456
  {
    assert Weight(1) == 128;
    assert Weight(2) == 16_384;
    assert Weight(3) == 2_097_152;
  }

  /** One more base-128 digit: the low digit and the rest weigh what `n` does. */
  lemma DigitSplit(n: nat, w: nat)
    ensures (n % 128) * w + (n / 128) * (128 * w) == n * w
  {
    var q, r := n / 128, n % 128;
    assert n == r + 128 * q;
    assert q * (128 * w) == (128 * q) * w;
  }

  lemma {:induction false} LengthRead(n: nat, count: nat, value: nat, rest: seq<Byte>)
    requires count < 4
    requires n < Weight(4 - count)
    ensures ReadLength(LengthBytes(n) + rest, count, value) == Ok(Parsed(value + n * Weight(count), rest))
    ensures |LengthBytes(n)| <= 4 - count
    decreases n
  {
    var bs := LengthBytes(n) + rest;
    if n < 128 {
      assert bs[1..] == rest;
      assert bs[0] % 128 == n;
    } else {
      assert Weight(1) == 128;
      var v := value + (n % 128) * Weight(count);
      assert Weight(4 - count) == 128 * Weight(3 - count);
      assert n / 128 < Weight(3 - count);
      LengthRead(n / 128, count + 1, v, rest);
      assert bs[0] == n % 128 + 128 && bs[0] % 128 == n % 128;
      assert bs[1..] == LengthBytes(n / 128) + rest;
      DigitSplit(n, Weight(count));
      assert Weight(count + 1) == 128 * Weight(count);
    }
  }

  /** Reading back a length written by the encoder gives that length, in at
      most four bytes, and leaves what follows it alone. */
  lemma LengthRoundTrip(n: nat, rest: seq<Byte>)
    requires n <= MAX_REMAINING_LENGTH
    ensures ReadLength(LengthBytes(n) + rest, 0, 0) == Ok(Parsed(n, rest))
    ensures 1 <= |LengthBytes(n)| <= 4
  {
    Weights();
    LengthRead(n, 0, 0, rest);
    assert n * Weight(0) == n;
  }

  lemma {:induction false} LengthDecoded(bs: seq<Byte>, count: nat, value: nat) returns (w: nat)
    requires ReadLength(bs, count, value).Ok?
    ensures var p := ReadLength(bs, count, value).value;
            var k := |bs| - |p.rest|;
            && 1 <= k <= 4 - count
            && p.rest == bs[k..]
            && p.value == value + w * Weight(count)
            && w < Weight(k)
            && |LengthBytes(w)| <= k
    decreases |bs|
  {
    if bs[0] < 128 {
      w := bs[0];
      assert Weight(1) == 128;
    } else {
      var v := value + (bs[0] % 128) * Weight(count);
      var w' := LengthDecoded(bs[1..], count + 1, v);
      var k' := |bs| - 1 - |ReadLength(bs, count, value).value.rest|;
      w := bs[0] % 128 + 128 * w';
      assert w % 128 == bs[0] % 128 && w / 128 == w';
      assert Weight(k' + 1) == 128 * Weight(k');
      DigitSplit(w, Weight(count));
      assert Weight(count + 1) == 128 * Weight(count);
    }
  }

  /** Whatever is accepted as a length is at most the four-byte maximum, and
      the encoder's bytes for it are no more than the bytes that were read: the
      encoding is the shortest. */
  lemma LengthIsShortest(bs: seq<Byte>)
    requires ReadLength(bs, 0, 0).Ok?
    ensures var p := ReadLength(bs, 0, 0).value;
            && p.value <= MAX_REMAINING_LENGTH
            && |p.rest| < |bs|
            && p.rest == bs[|bs| - |p.rest|..]
            && |LengthBytes(p.value)| <= |bs| - |p.rest| <= 4
  {
    var w := LengthDecoded(bs, 0, 0);
    Weights();
  }

  lemma {:induction false} LengthRefused(n: nat, count: nat, value: nat, rest: seq<Byte>)
    requires count <= 4
    requires n >= Weight(4 - count)
    ensures ReadLength(LengthBytes(n) + rest, count, value) == Err(InvalidRemainingLength)
    decreases 4 - count
  {
    if count < 4 {
      assert Weight(4 - count) == 128 * Weight(3 - count);
      var bs := LengthBytes(n) + rest;
      assert bs[1..] == LengthBytes(n / 128) + rest;
      LengthRefused(n / 128, count + 1, value + (n % 128) * Weight(count), rest);
    }
  }

  /** The reader accepts exactly the lengths up to the four-byte maximum. */
  lemma LengthAccepted(n: nat, rest: seq<Byte>)
    ensures n <= MAX_REMAINING_LENGTH <==> ReadLength(LengthBytes(n) + rest, 0, 0).Ok?
    ensures n > MAX_REMAINING_LENGTH ==> ReadLength(LengthBytes(n) + rest, 0, 0) == Err(InvalidRemainingLength)
  {
    if n <= MAX_REMAINING_LENGTH {
      LengthRoundTrip(n, rest);
    } else {
      Weights();
      LengthRefused(n, 0, 0, rest);
    }
  }

  // ---------- fields ----------

  predicate Sendable(utf8: seq<Byte> -> bool, s: Text) {
    |s| < 65536 && utf8(s)
  }

  lemma WordBytes(high: Byte, low: Byte)
    ensures U16Bytes(Word(high, low)) == [high, low]
  {
  }

  lemma Prefix(s: seq<Byte>)
    requires |s| < 65536
    ensures StringBytes(s) == U16Bytes(|s|) + s
  {
  }

  /** Length-prefixed bytes at the front. */
  lemma PrefixRead(s: seq<Byte>, rest: seq<Byte>)
    requires |s| < 65536
    ensures var bs := StringBytes(s) + rest;
            |bs| == 2 + |s| + |rest| && Word(bs[0], bs[1]) == |s| && bs[2..2 + |s|] == s && bs[2 + |s|..] == rest
  {
    Prefix(s);
    var bs := U16Bytes(|s|) + s + rest;
    assert bs[2..2 + |s|] == s;
    assert bs[2 + |s|..] == rest;
  }

  lemma PrefixDecoded(bs: seq<Byte>, n: nat)
    requires |bs| >= 2 + n && n == Word(bs[0], bs[1])
    ensures bs == StringBytes(bs[2..2 + n]) + bs[2 + n..]
  {
    var s := bs[2..2 + n];
    Prefix(s);
    WordBytes(bs[0], bs[1]);
    assert bs == [bs[0], bs[1]] + s + bs[2 + n..];
  }

  lemma StringRead(utf8: seq<Byte> -> bool, s: Text, rest: seq<Byte>)
    requires Sendable(utf8, s)
    ensures ReadString(utf8, StringBytes(s) + rest) == Ok(Parsed(s, rest))
  {
    PrefixRead(s, rest);
  }

  lemma StringDecoded(utf8: seq<Byte> -> bool, bs: seq<Byte>)
    requires ReadString(utf8, bs).Ok?
    ensures var p := ReadString(utf8, bs).value;
            Sendable(utf8, p.value) && bs == StringBytes(p.value) + p.rest
  {
    PrefixDecoded(bs, Word(bs[0], bs[1]));
  }

  lemma BinaryRead(s: seq<Byte>, onShort: PacketError, rest: seq<Byte>)
    requires |s| < 65536
    ensures ReadBinary(StringBytes(s) + rest, onShort) == Ok(Parsed(s, rest))
  {
    PrefixRead(s, rest);
  }

  lemma BinaryDecoded(bs: seq<Byte>, onShort: PacketError)
    requires ReadBinary(bs, onShort).Ok?
    ensures var p := ReadBinary(bs, onShort).value;
            |p.value| < 65536 && bs == StringBytes(p.value) + p.rest
  {
    PrefixDecoded(bs, Word(bs[0], bs[1]));
  }

  lemma IdRead(n: U16, rest: seq<Byte>)
    ensures ReadU16(U16Bytes(n) + rest) == Ok(Parsed(n, rest))
  {
    assert (U16Bytes(n) + rest)[2..] == rest;
  }

  // ---------- which packets survive the wire ----------

  predicate PublishWellFormed(utf8: seq<Byte> -> bool, p: PublishPacket) {
    && Sendable(utf8, p.topic)
    && (p.packetId.Some? <==> p.qos != AtMostOnce)
    && |PublishBody(p)| <= MAX_REMAINING_LENGTH
  }

  predicate ConnectFieldsFit(utf8: seq<Byte> -> bool, c: ConnectPacket) {
    && Sendable(utf8, c.protocolName)
    && Sendable(utf8, c.clientId)
    && (c.willFlag <==> c.willTopic.Some?)
    && (c.willFlag <==> c.willPayload.Some?)
    && (!c.willFlag ==> c.willQos == AtMostOnce)
    && (c.willTopic.Some? ==> Sendable(utf8, c.willTopic.value))
    && (c.willPayload.Some? ==> |c.willPayload.value| < 65536)
    && (c.username.Some? ==> Sendable(utf8, c.username.value))
    && (c.password.Some? ==> c.username.Some? && |c.password.value| < 65536)
  }

  predicate ConnectWellFormed(utf8: seq<Byte> -> bool, c: ConnectPacket) {
    ConnectFieldsFit(utf8, c) && |ConnectBody(c)| <= MAX_REMAINING_LENGTH
  }

  predicate WellFormed(utf8: seq<Byte> -> bool, p: Packet) {
    match p
    case Connect(c) => ConnectWellFormed(utf8, c)
    case Publish(publish) => PublishWellFormed(utf8, publish)
    case Subscribe(_, filters) =>
      (forall f <- filters :: Sendable(utf8, f.0)) && 2 + |FilterBytes(filters)| <= MAX_REMAINING_LENGTH
    case Unsubscribe(_, topics) =>
      (forall t <- topics :: Sendable(utf8, t)) && 2 + |TopicBytes(topics)| <= MAX_REMAINING_LENGTH
    case PubAck(_) => true
    case PubRec(_) => true
    case PubRel(_) => true
    case PubComp(_) => true
    case PingReq => true
    case Disconnect => true
    case _ => false
  }

  // ---------- bodies: reading undoes writing ----------

  function PublishFlags(p: PublishPacket): (f: Byte)
    ensures f / 2 % 4 == QosValue(p.qos) && (f % 2 == 1 <==> p.retain) && (f / 8 % 2 == 1 <==> p.dup)
    ensures f < 16
  {
    Bit(p.dup, 8) + QosValue(p.qos) * 2 + Bit(p.retain, 1)
  }

  lemma PublishRead(utf8: seq<Byte> -> bool, p: PublishPacket, flags: Byte)
    requires PublishWellFormed(utf8, p)
    requires flags / 2 % 4 == QosValue(p.qos) && (flags % 2 == 1 <==> p.retain) && (flags / 8 % 2 == 1 <==> p.dup)
    ensures ReadPublish(utf8, PublishBody(p), flags) == Ok(p)
  {
    var tail := (if p.packetId.Some? then U16Bytes(p.packetId.value) else []) + p.payload;
    assert PublishBody(p) == StringBytes(p.topic) + tail;
    StringRead(utf8, p.topic, tail);
    if p.packetId.Some? {
      IdRead(p.packetId.value, p.payload);
    } else {
      assert tail == p.payload;
    }
  }

  lemma {:induction false} FiltersRead(utf8: seq<Byte> -> bool, filters: seq<(Text, QoS)>)
    requires forall f <- filters :: Sendable(utf8, f.0)
    ensures ReadFilters(utf8, FilterBytes(filters)) == Ok(filters)
    decreases |filters|
  {
    if filters != [] {
      FiltersRead(utf8, filters[1..]);
      var (topic, qos) := filters[0];
      assert [(topic, qos)] + filters[1..] == filters;
      FilterReadFirst(utf8, topic, qos, FilterBytes(filters[1..]));
    }
  }

  lemma FilterReadFirst(utf8: seq<Byte> -> bool, topic: Text, qos: QoS, others: seq<Byte>)
    requires Sendable(utf8, topic)
    requires ReadFilters(utf8, others).Ok?
    ensures ReadFilters(utf8, StringBytes(topic) + ([QosValue(qos)] + others))
         == Ok([(topic, qos)] + ReadFilters(utf8, others).value)
  {
    var tail := [QosValue(qos)] + others;
    StringRead(utf8, topic, tail);
    assert ReadU8(tail) == Ok(Parsed(QosValue(qos), others)) by {
      assert tail[1..] == others;
    }
    assert ReadQos(QosValue(qos)) == Some(qos);
  }

  lemma {:induction false} TopicsRead(utf8: seq<Byte> -> bool, topics: seq<Text>)
    requires forall t <- topics :: Sendable(utf8, t)
    ensures ReadTopics(utf8, TopicBytes(topics)) == Ok(topics)
    decreases |topics|
  {
    if topics != [] {
      StringRead(utf8, topics[0], TopicBytes(topics[1..]));
      TopicsRead(utf8, topics[1..]);
      assert [topics[0]] + topics[1..] == topics;
    }
  }

  predicate FlagsFit(f: Byte, c: ConnectPacket) {
    && CleanSessionBit(f) == c.cleanSession
    && WillBit(f) == c.willFlag
    && WillQosBits(f) == QosValue(c.willQos)
    && WillRetainBit(f) == c.willRetain
    && PasswordBit(f) == c.password.Some?
    && UsernameBit(f) == c.username.Some?
  }

  /** Six fields packed side by side can be taken apart again. */
  lemma PackedFields(a: nat, b: nat, q: nat, r: nat, p: nat, u: nat, f: Byte)
    requires a < 2 && b < 2 && q < 4 && r < 2 && p < 2 && u < 2
    requires f == a * 2 + b * 4 + q * 8 + r * 32 + p * 64 + u * 128
    ensures f / 2 % 2 == a && f / 4 % 2 == b && f / 8 % 4 == q
    ensures f / 32 % 2 == r && f / 64 % 2 == p && f / 128 % 2 == u
  {
    assert f / 2 == a + 2 * (b + 2 * q + 8 * r + 16 * p + 32 * u);
    assert f / 4 == b + 2 * (q + 4 * r + 8 * p + 16 * u);
    assert f / 8 == q + 4 * (r + 2 * p + 4 * u);
    assert f / 32 == r + 2 * (p + 2 * u);
    assert f / 64 == p + 2 * u;
    assert f / 128 == u;
  }

  /** The flag byte keeps all its fields apart. */
  lemma ConnectFlagsFit(c: ConnectPacket)
    ensures FlagsFit(ConnectFlags(c), c)
  {
    PackedFields(Bit(c.cleanSession, 1), Bit(c.willFlag, 1), QosValue(c.willQos), Bit(c.willRetain, 1),
                 Bit(c.password.Some?, 1), Bit(c.username.Some?, 1), ConnectFlags(c));
  }

  lemma WillRead(utf8: seq<Byte> -> bool, c: ConnectPacket, rest: seq<Byte>)
    requires ConnectFieldsFit(utf8, c)
    ensures ReadWill(utf8, OptionalString(c.willTopic) + (OptionalString(c.willPayload) + rest), c.willFlag)
         == Ok(Parsed((c.willTopic, c.willPayload), rest))
  {
    var bs := OptionalString(c.willTopic) + (OptionalString(c.willPayload) + rest);
    if c.willFlag {
      StringRead(utf8, c.willTopic.value, OptionalString(c.willPayload) + rest);
      BinaryRead(c.willPayload.value, ShortRead, rest);
    } else {
      assert bs == rest;
    }
  }

  lemma CredentialsRead(utf8: seq<Byte> -> bool, c: ConnectPacket)
    requires ConnectFieldsFit(utf8, c)
    ensures ReadUsername(utf8, OptionalString(c.username) + OptionalString(c.password), c.username.Some?)
         == Ok(Parsed(c.username, OptionalString(c.password)))
    ensures ReadPassword(OptionalString(c.password), c.password.Some?) == Ok(Parsed(c.password, []))
  {
    if c.username.Some? {
      StringRead(utf8, c.username.value, OptionalString(c.password));
    } else {
      assert OptionalString(c.username) + OptionalString(c.password) == OptionalString(c.password);
    }
    if c.password.Some? {
      BinaryRead(c.password.value, IncompletePacket, []);
      assert StringBytes(c.password.value) + [] == OptionalString(c.password);
    }
  }

  lemma ConnectHeaderRead(level: Byte, flags: Byte, keepAlive: U16, rest: seq<Byte>)
    ensures var r2 := [flags] + (U16Bytes(keepAlive) + rest);
            && ReadU8([level] + r2) == Ok(Parsed(level, r2))
            && ReadU8(r2) == Ok(Parsed(flags, U16Bytes(keepAlive) + rest))
            && ReadU16(U16Bytes(keepAlive) + rest) == Ok(Parsed(keepAlive, rest))
  {
    IdRead(keepAlive, rest);
    var r3 := U16Bytes(keepAlive) + rest;
    var r2 := [flags] + r3;
    assert r2[1..] == r3;
    assert ([level] + r2)[1..] == r2;
  }

  lemma FlagsPass(utf8: seq<Byte> -> bool, c: ConnectPacket, flags: Byte)
    requires ConnectFieldsFit(utf8, c) && FlagsFit(flags, c)
    ensures !(WillBit(flags) && WillQosBits(flags) == 3) && !(PasswordBit(flags) && !UsernameBit(flags))
    ensures (if WillBit(flags) then ReadQos(WillQosBits(flags)) else Some(AtMostOnce)) == Some(c.willQos)
  {
  }

  lemma ConnectPayloadRead(utf8: seq<Byte> -> bool, c: ConnectPacket, flags: Byte)
    requires ConnectFieldsFit(utf8, c)
    requires FlagsFit(flags, c)
    ensures ReadConnectPayload(utf8, c.protocolName, c.protocolLevel, flags, c.keepAlive, c.clientId,
              OptionalString(c.willTopic) + (OptionalString(c.willPayload)
              + (OptionalString(c.username) + OptionalString(c.password))))
         == Ok(c)
  {
    WillRead(utf8, c, OptionalString(c.username) + OptionalString(c.password));
    CredentialsRead(utf8, c);
    FlagsPass(utf8, c, flags);
  }

  lemma ConnectRead(utf8: seq<Byte> -> bool, c: ConnectPacket)
    requires ConnectWellFormed(utf8, c)
    ensures ReadConnect(utf8, ConnectBody(c)) == Ok(c)
  {
    var payload := OptionalString(c.willTopic) + (OptionalString(c.willPayload)
      + (OptionalString(c.username) + OptionalString(c.password)));
    var flags := ConnectFlags(c);
    ConnectFlagsFit(c);
    ConnectPayloadRead(utf8, c, flags);
    var tail := StringBytes(c.clientId) + payload;
    StringRead(utf8, c.protocolName, [c.protocolLevel] + ([flags] + (U16Bytes(c.keepAlive) + tail)));
    ConnectHeaderRead(c.protocolLevel, flags, c.keepAlive, tail);
    StringRead(utf8, c.clientId, payload);
  }

  // ---------- bodies: what is read is well formed ----------

  lemma PublishTailDecoded(utf8: seq<Byte> -> bool, data: seq<Byte>, flags: Byte)
    requires ReadPublish(utf8, data, flags).Ok?
    ensures var p := ReadPublish(utf8, data, flags).value;
            && ReadString(utf8, data).Ok? && p.topic == ReadString(utf8, data).value.value
            && (p.packetId.Some? <==> p.qos != AtMostOnce)
            && ReadString(utf8, data).value.rest
               == (if p.packetId.Some? then U16Bytes(p.packetId.value) else []) + p.payload
  {
    var p := ReadPublish(utf8, data, flags).value;
    var tail := ReadString(utf8, data).value.rest;
    if p.packetId.None? {
      assert [] + p.payload == tail;
    }
  }

  lemma PublishDecoded(utf8: seq<Byte> -> bool, data: seq<Byte>, flags: Byte)
    requires ReadPublish(utf8, data, flags).Ok?
    ensures var p := ReadPublish(utf8, data, flags).value;
            && Sendable(utf8, p.topic)
            && (p.packetId.Some? <==> p.qos != AtMostOnce)
            && PublishBody(p) == data
  {
    PublishTailDecoded(utf8, data, flags);
    StringDecoded(utf8, data);
    var p := ReadPublish(utf8, data, flags).value;
    var id := if p.packetId.Some? then U16Bytes(p.packetId.value) else [];
    assert StringBytes(p.topic) + (id + p.payload) == StringBytes(p.topic) + id + p.payload;
  }

  /** The first filter of a list and what follows it. */
  lemma FilterDecoded(utf8: seq<Byte> -> bool, bs: seq<Byte>) returns (first: (Text, QoS), rest: seq<Byte>)
    requires |bs| > 0 && ReadFilters(utf8, bs).Ok?
    ensures Sendable(utf8, first.0) && |rest| < |bs| && bs == StringBytes(first.0) + ([QosValue(first.1)] + rest)
    ensures ReadFilters(utf8, rest).Ok? && ReadFilters(utf8, bs).value == [first] + ReadFilters(utf8, rest).value
  {
    StringDecoded(utf8, bs);
    var topic := ReadString(utf8, bs).value;
    var q := ReadU8(topic.rest).value;
    first, rest := (topic.value, ReadQos(q.value).value), q.rest;
    assert [q.value] + rest == topic.rest;
  }

  lemma {:induction false} FiltersDecoded(utf8: seq<Byte> -> bool, bs: seq<Byte>)
    requires ReadFilters(utf8, bs).Ok?
    ensures var fs := ReadFilters(utf8, bs).value;
            (forall f <- fs :: Sendable(utf8, f.0)) && FilterBytes(fs) == bs
    decreases |bs|
  {
    if |bs| > 0 {
      var first, rest := FilterDecoded(utf8, bs);
      FiltersDecoded(utf8, rest);
      assert ReadFilters(utf8, bs).value[1..] == ReadFilters(utf8, rest).value;
    }
  }

  lemma {:induction false} TopicsDecoded(utf8: seq<Byte> -> bool, bs: seq<Byte>)
    requires ReadTopics(utf8, bs).Ok?
    ensures var ts := ReadTopics(utf8, bs).value;
            (forall t <- ts :: Sendable(utf8, t)) && TopicBytes(ts) == bs
    decreases |bs|
  {
    if |bs| > 0 {
      StringDecoded(utf8, bs);
      var rest := ReadString(utf8, bs).value.rest;
      TopicsDecoded(utf8, rest);
      var ts := ReadTopics(utf8, bs).value;
      assert ts[1..] == ReadTopics(utf8, rest).value;
    }
  }

  lemma WillDecoded(utf8: seq<Byte> -> bool, bs: seq<Byte>, present: bool)
    requires ReadWill(utf8, bs, present).Ok?
    ensures var p := ReadWill(utf8, bs, present).value;
            && (present <==> p.value.0.Some?) && (present <==> p.value.1.Some?)
            && (present ==> Sendable(utf8, p.value.0.value) && |p.value.1.value| < 65536)
            && |bs| == |OptionalString(p.value.0)| + |OptionalString(p.value.1)| + |p.rest|
  {
    if present {
      StringDecoded(utf8, bs);
      BinaryDecoded(ReadString(utf8, bs).value.rest, ShortRead);
    }
  }

  lemma CredentialsDecoded(utf8: seq<Byte> -> bool, bs: seq<Byte>, user: bool, pass: bool)
    requires ReadUsername(utf8, bs, user).Ok?
    requires ReadPassword(ReadUsername(utf8, bs, user).value.rest, pass).Ok?
    ensures var u := ReadUsername(utf8, bs, user).value;
            var p := ReadPassword(u.rest, pass).value;
            && (user <==> u.value.Some?) && (pass <==> p.value.Some?)
            && (user ==> Sendable(utf8, u.value.value)) && (pass ==> |p.value.value| < 65536)
            && |bs| == |OptionalString(u.value)| + |OptionalString(p.value)| + |p.rest|
  {
    if user {
      StringDecoded(utf8, bs);
    }
    if pass {
      BinaryDecoded(ReadUsername(utf8, bs, user).value.rest, IncompletePacket);
    }
  }

  lemma ConnectDecoded(utf8: seq<Byte> -> bool, data: seq<Byte>)
    requires |data| <= MAX_REMAINING_LENGTH
    requires ReadConnect(utf8, data).Ok?
    ensures ConnectWellFormed(utf8, ReadConnect(utf8, data).value)
  {
    StringDecoded(utf8, data);
    var level := ReadU8(ReadString(utf8, data).value.rest).value;
    var flags := ReadU8(level.rest).value;
    var keepAlive := ReadU16(flags.rest).value;
    StringDecoded(utf8, keepAlive.rest);
    var clientId := ReadString(utf8, keepAlive.rest).value;
    WillDecoded(utf8, clientId.rest, WillBit(flags.value));
    var will := ReadWill(utf8, clientId.rest, WillBit(flags.value)).value;
    CredentialsDecoded(utf8, will.rest, UsernameBit(flags.value), PasswordBit(flags.value));
  }

  lemma BodyDecoded(utf8: seq<Byte> -> bool, kind: Byte, flags: Byte, data: seq<Byte>)
    requires |data| <= MAX_REMAINING_LENGTH
    requires ReadBody(utf8, kind, flags, data).Ok?
    ensures WellFormed(utf8, ReadBody(utf8, kind, flags, data).value)
  {
    if kind == 1 {
      ConnectDecoded(utf8, data);
    } else if kind == 3 {
      PublishDecoded(utf8, data, flags);
    } else if kind == 8 {
      FiltersDecoded(utf8, data[2..]);
    } else if kind == 10 {
      TopicsDecoded(utf8, data[2..]);
    }
  }

  // ---------- whole packets ----------

  lemma FrameRead(first: Byte, body: seq<Byte>, rest: seq<Byte>)
    requires |body| <= MAX_REMAINING_LENGTH
    ensures var bs := Framed(first, body) + rest;
            |bs| > 0 && bs[0] == first && ReadLength(bs[1..], 0, 0) == Ok(Parsed(|body|, body + rest))
  {
    var bs := Framed(first, body) + rest;
    assert bs[1..] == LengthBytes(|body|) + (body + rest);
    LengthRoundTrip(|body|, body + rest);
  }

  lemma FramedRead(utf8: seq<Byte> -> bool, first: Byte, body: seq<Byte>, p: Packet, rest: seq<Byte>)
    requires 1 <= first / 16 <= 14
    requires |body| <= MAX_REMAINING_LENGTH
    requires ReadBody(utf8, first / 16, first % 16, body) == Ok(p)
    ensures ReadPacket(utf8, Framed(first, body) + rest) == Ok(Parsed(p, rest))
  {
    FrameRead(first, body, rest);
    assert (body + rest)[..|body|] == body;
    assert (body + rest)[|body|..] == rest;
  }

  lemma IdBodyRead(utf8: seq<Byte> -> bool, first: Byte, p: Packet)
    requires p.PubAck? || p.PubRec? || p.PubRel? || p.PubComp?
    requires first == (match p case PubAck(_) => 0x40 case PubRec(_) => 0x50 case PubRel(_) => 0x62 case _ => 0x70)
    ensures ReadBody(utf8, first / 16, first % 16, U16Bytes(p.id)) == Ok(p)
  {
  }

  lemma IdPacketRead(utf8: seq<Byte> -> bool, first: Byte, p: Packet, rest: seq<Byte>)
    requires p.PubAck? || p.PubRec? || p.PubRel? || p.PubComp?
    requires first == (match p case PubAck(_) => 0x40 case PubRec(_) => 0x50 case PubRel(_) => 0x62 case _ => 0x70)
    ensures ReadPacket(utf8, ClientBytes(p) + rest) == Ok(Parsed(p, rest))
  {
    assert PacketBytes(p) == Framed(first, U16Bytes(p.id));
    IdBodyRead(utf8, first, p);
    FramedRead(utf8, first, U16Bytes(p.id), p, rest);
  }

  lemma EmptyPacketRead(utf8: seq<Byte> -> bool, p: Packet, rest: seq<Byte>)
    requires p.PingReq? || p.Disconnect?
    ensures ReadPacket(utf8, ClientBytes(p) + rest) == Ok(Parsed(p, rest))
  {
    var first := if p.PingReq? then 0xC0 else 0xE0;
    assert ClientBytes(p) == Framed(first, []);
    FramedRead(utf8, first, [], p, rest);
  }

  lemma ConnectPacketRead(utf8: seq<Byte> -> bool, c: ConnectPacket, rest: seq<Byte>)
    requires WellFormed(utf8, Connect(c))
    ensures ReadPacket(utf8, ClientBytes(Connect(c)) + rest) == Ok(Parsed(Connect(c), rest))
  {
    ConnectRead(utf8, c);
    FramedRead(utf8, 0x10, ConnectBody(c), Connect(c), rest);
  }

  lemma SubscribeBodyRead(utf8: seq<Byte> -> bool, id: U16, filters: seq<(Text, QoS)>)
    requires forall f <- filters :: Sendable(utf8, f.0)
    ensures ReadSubscribe(utf8, U16Bytes(id) + FilterBytes(filters)) == Ok(Subscribe(id, filters))
  {
    IdRead(id, FilterBytes(filters));
    FiltersRead(utf8, filters);
  }

  lemma SubscribePacketRead(utf8: seq<Byte> -> bool, id: U16, filters: seq<(Text, QoS)>, rest: seq<Byte>)
    requires WellFormed(utf8, Subscribe(id, filters))
    ensures ReadPacket(utf8, ClientBytes(Subscribe(id, filters)) + rest) == Ok(Parsed(Subscribe(id, filters), rest))
  {
    SubscribeBodyRead(utf8, id, filters);
    FramedRead(utf8, 0x82, U16Bytes(id) + FilterBytes(filters), Subscribe(id, filters), rest);
  }

  lemma UnsubscribeBodyRead(utf8: seq<Byte> -> bool, id: U16, topics: seq<Text>)
    requires forall t <- topics :: Sendable(utf8, t)
    ensures ReadUnsubscribe(utf8, U16Bytes(id) + TopicBytes(topics)) == Ok(Unsubscribe(id, topics))
  {
    IdRead(id, TopicBytes(topics));
    TopicsRead(utf8, topics);
  }

  lemma UnsubscribePacketRead(utf8: seq<Byte> -> bool, id: U16, topics: seq<Text>, rest: seq<Byte>)
    requires WellFormed(utf8, Unsubscribe(id, topics))
    ensures ReadPacket(utf8, ClientBytes(Unsubscribe(id, topics)) + rest) == Ok(Parsed(Unsubscribe(id, topics), rest))
  {
    UnsubscribeBodyRead(utf8, id, topics);
    FramedRead(utf8, 0xA2, U16Bytes(id) + TopicBytes(topics), Unsubscribe(id, topics), rest);
  }

  lemma PublishBodyRead(utf8: seq<Byte> -> bool, m: PublishPacket, first: Byte)
    requires PublishWellFormed(utf8, m) && first == 48 + PublishFlags(m)
    ensures first / 16 == 3 && ReadBody(utf8, first / 16, first % 16, PublishBody(m)) == Ok(Publish(m))
  {
    assert first % 16 == PublishFlags(m);
    PublishRead(utf8, m, PublishFlags(m));
  }

  lemma PublishFramed(utf8: seq<Byte> -> bool, m: PublishPacket)
    requires PublishWellFormed(utf8, m)
    ensures PublishBytes(m) == Framed(48 + PublishFlags(m), PublishBody(m))
  {
  }

  lemma PublishPacketRead(utf8: seq<Byte> -> bool, m: PublishPacket, rest: seq<Byte>)
    requires PublishWellFormed(utf8, m)
    ensures ReadPacket(utf8, PublishBytes(m) + rest) == Ok(Parsed(Publish(m), rest))
  {
    var first: Byte := 48 + PublishFlags(m);
    PublishBodyRead(utf8, m, first);
    PublishFramed(utf8, m);
    FramedRead(utf8, first, PublishBody(m), Publish(m), rest);
  }

  lemma PacketRead(utf8: seq<Byte> -> bool, p: Packet, rest: seq<Byte>)
    requires WellFormed(utf8, p)
    ensures ReadPacket(utf8, ClientBytes(p) + rest) == Ok(Parsed(p, rest))
  {
    match p {
      case Connect(c) => ConnectPacketRead(utf8, c, rest);
      case Publish(m) => PublishPacketRead(utf8, m, rest);
      case Subscribe(id, filters) => SubscribePacketRead(utf8, id, filters, rest);
      case Unsubscribe(id, topics) => UnsubscribePacketRead(utf8, id, topics, rest);
      case PubAck(_) => IdPacketRead(utf8, 0x40, p, rest);
      case PubRec(_) => IdPacketRead(utf8, 0x50, p, rest);
      case PubRel(_) => IdPacketRead(utf8, 0x62, p, rest);
      case PubComp(_) => IdPacketRead(utf8, 0x70, p, rest);
      case PingReq => EmptyPacketRead(utf8, p, rest);
      case Disconnect => EmptyPacketRead(utf8, p, rest);
      case _ => assert false;
    }
  }

  /** Every packet the decoder produces could have been written, and reading
      it took at least two bytes off the front of the stream. */
  lemma PacketDecoded(utf8: seq<Byte> -> bool, bs: seq<Byte>)
    requires ReadPacket(utf8, bs).Ok?
    ensures WellFormed(utf8, ReadPacket(utf8, bs).value.value)
    ensures var rest := ReadPacket(utf8, bs).value.rest;
            |rest| + 2 <= |bs| && rest == bs[|bs| - |rest|..]
  {
    LengthIsShortest(bs[1..]);
    var length := ReadLength(bs[1..], 0, 0).value;
    BodyDecoded(utf8, bs[0] / 16, bs[0] % 16, length.rest[..length.value]);
  }

  /** A packet survives the wire, leaving what follows it untouched, exactly
      when it is well formed: a topic of 65536 bytes, a QoS 0 packet with an
      identifier, a body over the length limit and the packets only a broker
      sends are among those that do not. */
  lemma PacketRoundTrip(utf8: seq<Byte> -> bool, p: Packet, rest: seq<Byte>)
    ensures ReadPacket(utf8, ClientBytes(p) + rest) == Ok(Parsed(p, rest)) <==> WellFormed(utf8, p)
  {
    if WellFormed(utf8, p) {
      PacketRead(utf8, p, rest);
    } else if ReadPacket(utf8, ClientBytes(p) + rest) == Ok(Parsed(p, rest)) {
      PacketDecoded(utf8, ClientBytes(p) + rest);
    }
  }

  // ---------- streams ----------

  /** All the packets of a byte stream, as the reading loop sees them. */
  function ReadStream(utf8: seq<Byte> -> bool, bs: seq<Byte>): Result<seq<Packet>, PacketError>
    decreases |bs|
  {
    if bs == [] then Ok([])
    else if ReadPacket(utf8, bs).Err? then Err(ReadPacket(utf8, bs).error)
    else
      var first := ReadPacket(utf8, bs).value;
      PacketDecoded(utf8, bs);
      var others :- ReadStream(utf8, first.rest);
      Ok([first.value] + others)
  }

  /** Any list of well-formed packets, written one after the other, is read
      back as that list: no packet eats into the next. */
  lemma {:induction false} StreamRoundTrip(utf8: seq<Byte> -> bool, ps: seq<Packet>)
    requires forall p <- ps :: WellFormed(utf8, p)
    ensures ReadStream(utf8, StreamBytes(ps)) == Ok(ps)
    decreases |ps|
  {
    if ps != [] {
      PacketRead(utf8, ps[0], StreamBytes(ps[1..]));
      PacketDecoded(utf8, StreamBytes(ps));
      StreamRoundTrip(utf8, ps[1..]);
      assert [ps[0]] + ps[1..] == ps;
    }
  }
}
