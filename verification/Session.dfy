/** One client session: the handlers that update its state in place. */
module Session {
  import opened Base
  import opened Packets
  import opened Storage
  import opened Routing
  import opened Engine
  import opened Persistence
  import Codec
  import PacketReading
  import Topics
  import Wire

  method Encoded(p: Packet) returns (bytes: seq<Byte>)
    ensures bytes == Wire.PacketBytes(p)
  {
    var buf := new Codec.Buffer();
    Codec.Encode(p, buf);
    bytes := buf.bytes;
  }

  /** The sending half of a connection. It accepts `credit` more packets before
      it breaks. */
  class Writer {
    var bytes: seq<Byte>
    var credit: nat
    ghost var written: seq<Packet>

    constructor (credit: nat)
      ensures Valid() && written == [] && this.credit == credit
    {
      bytes, written, this.credit := [], [], credit;
    }

    ghost predicate Valid()
      reads this
    {
      bytes == Wire.BytesOf(written)
    }

    method Send(p: Packet) returns (ok: bool)
      requires Valid()
      modifies this
      ensures Valid()
      ensures ok == (old(credit) > 0)
      ensures credit == if ok then old(credit) - 1 else 0
      ensures written == old(written) + (if ok then [p] else [])
    {
      var packetBytes := Encoded(p);
      ok := credit > 0;
      if ok {
        PacketReading.BytesOfMore(written, p);
        credit, bytes, written := credit - 1, bytes + packetBytes, written + [p];
      }
    }
  }

  lemma AsPubRelsMore(ids: seq<U16>, k: nat)
    requires k < |ids|
    ensures AsPubRels(ids[..k + 1]) == AsPubRels(ids[..k]) + [PubRel(ids[k])]
  {
  }

  lemma PubRecHere(q: seq<Entry>, i: nat, packetId: U16, now: nat)
    requires i < |q| && AwaitsRec(q[i], packetId)
    ensures q[..i] + Engine.OnPubRec(q[i..], packetId, now) == q[i := Received(q[i], now)]
  {
    assert q[i..][1..] == q[i + 1..];
  }

  lemma PubRecLater(q: seq<Entry>, i: nat, packetId: U16, now: nat)
    requires i < |q| && !AwaitsRec(q[i], packetId)
    ensures q[..i] + Engine.OnPubRec(q[i..], packetId, now) == q[..i + 1] + Engine.OnPubRec(q[i + 1..], packetId, now)
  {
    assert q[i..][1..] == q[i + 1..];
    var rest := Engine.OnPubRec(q[i + 1..], packetId, now);
    assert q[..i] + ([q[i]] + rest) == q[..i + 1] + rest;
  }

  // ---------- subscriptions under an access list ----------

  function Authorized(filters: seq<(Text, QoS)>, client: Text, may: (Text, Text) -> bool): seq<(Text, QoS)> {
    if filters == [] then []
    else
      var before := Authorized(filters[..|filters| - 1], client, may);
      var last := filters[|filters| - 1];
      if may(client, last.0) then before + [last] else before
  }

  /** An authorised filter comes, among the authorised ones, right after those
      authorised before it. */
  lemma {:induction false} AuthorizedAt(filters: seq<(Text, QoS)>, client: Text, may: (Text, Text) -> bool, i: nat)
    requires i < |filters|
    ensures |Authorized(filters[..i], client, may)| <= |Authorized(filters, client, may)|
    ensures may(client, filters[i].0) ==>
              && |Authorized(filters[..i], client, may)| < |Authorized(filters, client, may)|
              && Authorized(filters, client, may)[|Authorized(filters[..i], client, may)|] == filters[i]
    decreases |filters|
  {
    if i < |filters| - 1 {
      AuthorizedAt(filters[..|filters| - 1], client, may, i);
      assert filters[..|filters| - 1][..i] == filters[..i];
    }
  }

  /** What the authorised filters ask for is what was asked for, but for the filters
      that the client may not subscribe to. */
  lemma {:induction false} AuthorizedAsks(filters: seq<(Text, QoS)>, client: Text, may: (Text, Text) -> bool, f: Text)
    ensures LastAsked(Authorized(filters, client, may), f) == if may(client, f) then LastAsked(filters, f) else None
    ensures Requested(Authorized(filters, client, may), f) == if may(client, f) then Requested(filters, f) else None
    decreases |filters|
  {
    if filters != [] {
      var front, last := filters[..|filters| - 1], filters[|filters| - 1];
      AuthorizedAsks(front, client, may, f);
      if may(client, last.0) {
        var before := Authorized(front, client, may);
        assert (before + [last])[..|before|] == before;
      }
    }
  }

  lemma AuthorizedStep(filters: seq<(Text, QoS)>, client: Text, may: (Text, Text) -> bool, i: nat)
    requires i < |filters|
    ensures |Authorized(filters[..i + 1], client, may)|
         == |Authorized(filters[..i], client, may)| + if may(client, filters[i].0) then 1 else 0
  {
    assert filters[..i + 1][..i] == filters[..i];
  }

  /** The code a client gets for one filter of a SUBSCRIBE. */
  function SubscribeCode(filter: (Text, QoS), client: Text, may: (Text, Text) -> bool): Byte {
    if may(client, filter.0) then ReturnCode(filter.0, filter.1) else FAILURE
  }

  function SubscribeCodes(filters: seq<(Text, QoS)>, client: Text, may: (Text, Text) -> bool): seq<Byte> {
    seq(|filters|, i requires 0 <= i < |filters| => SubscribeCode(filters[i], client, may))
  }

  /** A client gets the level it asked for if it may and the filter is valid, and
      0x80 otherwise. */
  lemma CodesMean(filters: seq<(Text, QoS)>, client: Text, may: (Text, Text) -> bool, i: nat)
    requires i < |filters|
    ensures |SubscribeCodes(filters, client, may)| == |filters|
    ensures SubscribeCodes(filters, client, may)[i]
         == if !may(client, filters[i].0) || !Topics.ValidFilter(filters[i].0) then 0x80
            else match filters[i].1
                 case AtMostOnce => 0
                 case AtLeastOnce => 1
                 case ExactlyOnce => 2
  {
  }

  /** The router's code for an authorised filter is found after the codes for
      those authorised before it. */
  lemma CodeLinesUp(filters: seq<(Text, QoS)>, client: Text, may: (Text, Text) -> bool, i: nat, routerCodes: seq<Byte>)
    requires i < |filters|
    requires var authorized := Authorized(filters, client, may);
             && |routerCodes| == |authorized|
             && forall k | 0 <= k < |routerCodes| :: routerCodes[k] == ReturnCode(authorized[k].0, authorized[k].1)
    ensures var at, code := |Authorized(filters[..i], client, may)|, SubscribeCodes(filters, client, may)[i];
            if may(client, filters[i].0)
            then at < |routerCodes| && code == routerCodes[at] && |Authorized(filters[..i + 1], client, may)| == at + 1
            else code == FAILURE && |Authorized(filters[..i + 1], client, may)| == at
  {
    AuthorizedAt(filters, client, may, i);
    AuthorizedStep(filters, client, may, i);
  }

  class Runtime {
    const id: Text
    const router: Router
    const mailbox: Mailbox
    const config: Config
    const mayPublish: (Text, Text) -> bool
    const maySubscribe: (Text, Text) -> bool
    var clientId: Option<Text>
    var cleanSession: bool
    var keepAlive: U16
    var willMessage: Option<WillMessage>
    var nextPacketId: U16
    var inflightQueue: seq<Entry>
    var inboundQos2: map<U16, PublishPacket>

    constructor (id: Text, router: Router, config: Config, mayPublish: (Text, Text) -> bool,
                 maySubscribe: (Text, Text) -> bool)
      ensures this.id == id && this.router == router && this.config == config
      ensures this.mayPublish == mayPublish && this.maySubscribe == maySubscribe
      ensures clientId == None && willMessage == None && cleanSession && keepAlive == 0
      ensures State() == Core(1, [], map[])
      ensures fresh(mailbox) && mailbox.queue == []
    {
      this.id, this.router, this.config := id, router, config;
      this.mayPublish, this.maySubscribe := mayPublish, maySubscribe;
      mailbox := new Mailbox();
      clientId, willMessage, cleanSession, keepAlive := None, None, true, 0;
      nextPacketId, inflightQueue, inboundQos2 := 1, [], map[];
    }

    ghost predicate Valid()
      reads router`filters, router`sessions, router.storage
    {
      router.Valid() && router.storage.Valid()
    }

    ghost function State(): Core
      reads this
    {
      Core(nextPacketId, inflightQueue, inboundQos2)
    }

    /** The client identifier that the access list is asked about. */
    function Client(): (client: Text)
      reads this
      ensures clientId == Some(client) || (clientId == None && client == [])
    {
      if clientId.Some? then clientId.value else []
    }

    method NextPacketId() returns (packetId: U16)
      modifies this`nextPacketId
      ensures packetId == old(nextPacketId)
      ensures nextPacketId == NextId(old(nextPacketId))
      ensures forall start: U16, k: nat | 1 <= start && packetId == IdOf(start, k) :: nextPacketId == IdOf(start, k + 1)
    {
      forall start: U16, k: nat | 1 <= start
        ensures NextId(IdOf(start, k)) == IdOf(start, k + 1)
      {
        NextIdOf(start, k);
      }
      packetId := nextPacketId;
      nextPacketId := if nextPacketId == 65535 then 1 else nextPacketId + 1;
    }

    // ---------- outbound ----------

    method OnMessage(message: Packet, writer: Writer, now: nat) returns (ok: bool)
      requires writer.Valid()
      modifies this`nextPacketId, this`inflightQueue, writer
      ensures writer.Valid()
      ensures State() == Engine.OnMessage(old(State()), message, old(writer.credit) > 0, now)
      ensures var attempt := MessageWrites(old(State()), message);
              && ok == (attempt.None? || old(writer.credit) > 0)
              && writer.written == old(writer.written) + (if ok then OptionSeq(attempt) else [])
    {
      ok := true;
      if message.Publish? {
        var packet := message.publish;
        if packet.qos == AtMostOnce {
          ok := writer.Send(message);
        } else if packet.qos == AtLeastOnce {
          if !packet.dup {
            var packetId := NextPacketId();
            packet := packet.(packetId := Some(packetId));
            ok := writer.Send(Publish(packet));
            if !ok {
              return;
            }
            inflightQueue := inflightQueue + [Entry(packet.(dup := true), now, 0, None)];
          } else {
            ok := writer.Send(message);
          }
        } else {
          if !packet.dup {
            var packetId := NextPacketId();
            packet := packet.(packetId := Some(packetId));
            ok := writer.Send(Publish(packet));
            if !ok {
              return;
            }
            inflightQueue := inflightQueue + [Entry(packet.(dup := true), now, 0, Some(AwaitingPubRec))];
          } else {
            ok := writer.Send(message);
          }
        }
      }
    }

    /** Walks the queue once and keeps what has another identifier. */
    method Forget(packetId: U16)
      modifies this`inflightQueue
      ensures inflightQueue == RemoveId(old(inflightQueue), packetId)
      ensures WithoutId(inflightQueue, old(inflightQueue), packetId)
    {
      var q := inflightQueue;
      var kept := [];
      for i := 0 to |q|
        invariant kept == RemoveId(q[..i], packetId)
        invariant inflightQueue == q
      {
        assert q[..i + 1][..i] == q[..i];
        if q[i].packet.packetId != Some(packetId) {
          kept := kept + [q[i]];
        }
      }
      assert q[..|q|] == q;
      RemoveIdKeepsRest(q, packetId);
      inflightQueue := kept;
    }

    method OnPubAck(packetId: U16)
      modifies this`inflightQueue
      ensures inflightQueue == RemoveId(old(inflightQueue), packetId)
      ensures WithoutId(inflightQueue, old(inflightQueue), packetId)
    {
      Forget(packetId);
    }

    method OnPubComp(packetId: U16)
      modifies this`inflightQueue
      ensures inflightQueue == RemoveId(old(inflightQueue), packetId)
      ensures WithoutId(inflightQueue, old(inflightQueue), packetId)
    {
      Forget(packetId);
    }

    /** Moves on the first entry that waits for this PUBREC, if there is one. */
    method MarkReceived(packetId: U16, now: nat)
      modifies this`inflightQueue
      ensures inflightQueue == Engine.OnPubRec(old(inflightQueue), packetId, now)
    {
      var q := inflightQueue;
      var i := 0;
      while i < |q|
        invariant i <= |q|
        invariant inflightQueue == q
        invariant Engine.OnPubRec(q, packetId, now) == q[..i] + Engine.OnPubRec(q[i..], packetId, now)
      {
        if AwaitsRec(q[i], packetId) {
          PubRecHere(q, i, packetId, now);
          inflightQueue := q[i := Received(q[i], now)];
          return;
        }
        PubRecLater(q, i, packetId, now);
        i := i + 1;
      }
      assert q[i..] == [] && q[..i] == q;
    }

    /** The reply goes out whether or not an entry was waiting for the PUBREC. */
    method OnPubRec(packetId: U16, writer: Writer, now: nat) returns (ok: bool)
      requires writer.Valid()
      modifies this`inflightQueue, writer
      ensures writer.Valid()
      ensures inflightQueue == Engine.OnPubRec(old(inflightQueue), packetId, now)
      ensures MarksFirst(inflightQueue, old(inflightQueue), packetId, now)
      ensures ok == (old(writer.credit) > 0)
      ensures writer.written == old(writer.written) + (if ok then [PubRel(packetId)] else [])
    {
      MarkReceived(packetId, now);
      OnPubRecMarksFirst(old(inflightQueue), packetId, now);
      ok := writer.Send(PubRel(packetId));
    }

    /** Walks the queue once: due entries are counted, dropped over the limit,
        and otherwise collected for retransmission. */
    method CollectDue(interval: nat, now: nat) returns (publishes: seq<PublishPacket>, pubrels: seq<U16>)
      modifies this`inflightQueue
      ensures Tick(inflightQueue, publishes, pubrels)
           == OnTick(old(inflightQueue), interval, config.maxRetransmissionLimit, now)
    {
      var q := inflightQueue;
      var limit := config.maxRetransmissionLimit;
      var kept := [];
      publishes, pubrels := [], [];
      for i := 0 to |q|
        invariant Tick(kept, publishes, pubrels) == OnTick(q[..i], interval, limit, now)
        invariant inflightQueue == q
      {
        assert q[..i + 1][..i] == q[..i];
        var e := q[i];
        if Elapsed(e.timestamp, now) >= interval {
          e := e.(retryCount := Incremented(e.retryCount), timestamp := now);
          if !(e.retryCount > limit) {
            match e.qos2State {
              case Some(AwaitingPubComp) =>
                if e.packet.packetId.Some? {
                  pubrels := pubrels + [e.packet.packetId.value];
                }
              case _ =>
                publishes := publishes + [e.packet];
            }
            kept := kept + [e];
          }
        } else {
          kept := kept + [e];
        }
      }
      assert q[..|q|] == q;
      inflightQueue := kept;
    }

    method EnqueueAll(publishes: seq<PublishPacket>)
      modifies mailbox
      ensures mailbox.queue == old(mailbox.queue) + AsMessages(publishes)
    {
      for i := 0 to |publishes|
        invariant mailbox.queue == old(mailbox.queue) + AsMessages(publishes[..i])
      {
        mailbox.queue := mailbox.queue + [Publish(publishes[i])];
        assert AsMessages(publishes[..i + 1]) == AsMessages(publishes[..i]) + [Publish(publishes[i])];
      }
      assert publishes[..|publishes|] == publishes;
    }

    method SendPubRels(pubrels: seq<U16>, writer: Writer) returns (ok: bool)
      requires writer.Valid()
      modifies writer
      ensures writer.Valid()
      ensures ok == (|pubrels| <= old(writer.credit))
      ensures writer.written == old(writer.written) + AsPubRels(pubrels[..Min(|pubrels|, old(writer.credit))])
    {
      for k := 0 to |pubrels|
        invariant writer.Valid()
        invariant k <= old(writer.credit)
        invariant writer.credit == old(writer.credit) - k
        invariant writer.written == old(writer.written) + AsPubRels(pubrels[..k])
      {
        ok := writer.Send(PubRel(pubrels[k]));
        if !ok {
          return;
        }
        AsPubRelsMore(pubrels, k);
      }
      ok := true;
    }

    /** PUBLISH packets are retransmitted through the mailbox, PUBREL packets at
        once, as long as the connection takes them. */
    method OnRetransmit(writer: Writer, now: nat) returns (ok: bool)
      requires writer.Valid()
      modifies this`inflightQueue, writer, mailbox
      ensures writer.Valid()
      ensures config.Interval() == 0 ==>
                && ok && inflightQueue == old(inflightQueue) && mailbox.queue == old(mailbox.queue)
                && writer.written == old(writer.written)
      ensures config.Interval() > 0 ==>
                var t := OnTick(old(inflightQueue), config.Interval(), config.maxRetransmissionLimit, now);
                && inflightQueue == t.queue
                && mailbox.queue == old(mailbox.queue) + AsMessages(t.publishes)
                && ok == (|t.pubrels| <= old(writer.credit))
                && writer.written == old(writer.written)
                                     + AsPubRels(t.pubrels[..Min(|t.pubrels|, old(writer.credit))])
    {
      var interval := config.Interval();
      if interval == 0 {
        return true;
      }
      var publishes, pubrels := CollectDue(interval, now);
      EnqueueAll(publishes);
      ok := SendPubRels(pubrels, writer);
    }

    // ---------- inbound ----------

    /** The message that reaches the router: what is offered, if the access
        list allows it. */
    function Allowed(offered: Option<PublishPacket>): Option<PublishPacket>
      reads this
    {
      if offered.Some? && mayPublish(Client(), offered.value.topic) then offered else None
    }

    /** Hands a message to the router unless the access list forbids it. */
    method RouteIfAllowed(p: PublishPacket, now: nat) returns (ghost visits: seq<(Text, Text)>)
      requires Valid()
      modifies router`routed, router.storage`retained, router.Senders()
      ensures Valid()
      ensures router.Handed(Allowed(Some(p)), now, visits)
      ensures router.Handed(if mayPublish(Client(), p.topic) then Some(p) else None, now, visits)
    {
      visits := [];
      if mayPublish(Client(), p.topic) {
        visits := router.Route(p, now);
      }
    }

    /** QoS 1: every PUBLISH is acknowledged, and only the first transmission is
        to be routed. */
    method Acknowledge(p: PublishPacket, writer: Writer) returns (outcome: Outcome, route: bool)
      requires writer.Valid() && p.qos == AtLeastOnce
      modifies writer
      ensures writer.Valid()
      ensures var e := Engine.OnPublish(State(), p, old(writer.credit) > 0);
              && outcome == e.outcome && route == e.offered.Some?
              && writer.written == old(writer.written) + (if old(writer.credit) > 0 then OptionSeq(e.reply) else [])
    {
      if p.packetId.None? {
        return Disconnected, false;
      }
      var ok := writer.Send(PubAck(p.packetId.value));
      outcome := if ok then Continue else Failed;
      route := ok && !p.dup;
    }

    /** QoS 2: the message is held under its identifier unless one is already. */
    method Hold(p: PublishPacket, writer: Writer) returns (outcome: Outcome)
      requires writer.Valid() && p.qos == ExactlyOnce
      modifies this`inboundQos2, writer
      ensures writer.Valid()
      ensures var e := Engine.OnPublish(old(State()), p, old(writer.credit) > 0);
              && State() == e.core && outcome == e.outcome
              && writer.written == old(writer.written) + (if old(writer.credit) > 0 then OptionSeq(e.reply) else [])
    {
      if p.packetId.None? {
        return Disconnected;
      }
      var packetId := p.packetId.value;
      if packetId !in inboundQos2 {
        inboundQos2 := inboundQos2[packetId := p];
      }
      var ok := writer.Send(PubRec(packetId));
      outcome := if ok then Continue else Failed;
    }

    method OnPublish(p: PublishPacket, writer: Writer, now: nat)
      returns (outcome: Outcome, ghost visits: seq<(Text, Text)>)
      requires Valid() && writer.Valid()
      modifies this`inboundQos2, writer, router`routed, router.storage`retained, router.Senders()
      ensures Valid() && writer.Valid()
      ensures var e := Engine.OnPublish(old(State()), p, old(writer.credit) > 0);
              && State() == e.core && outcome == e.outcome
              && writer.written == old(writer.written) + (if old(writer.credit) > 0 then OptionSeq(e.reply) else [])
              && router.Handed(Allowed(e.offered), now, visits)
              && (e.offered.Some? && mayPublish(Client(), e.offered.value.topic) ==> router.Handed(e.offered, now, visits))
              && (e.offered.Some? && !mayPublish(Client(), e.offered.value.topic) ==> router.Handed(None, now, visits))
    {
      outcome, visits := Continue, [];
      if p.qos == AtLeastOnce {
        var route;
        outcome, route := Acknowledge(p, writer);
        if !route {
          return;
        }
      } else if p.qos == ExactlyOnce {
        outcome := Hold(p, writer);
        return;
      }
      visits := RouteIfAllowed(p, now);
    }

    /** PUBCOMP first; the message is released only once it has gone out. */
    method OnPubRel(packetId: U16, writer: Writer, now: nat)
      returns (outcome: Outcome, ghost visits: seq<(Text, Text)>)
      requires Valid() && writer.Valid()
      modifies this`inboundQos2, writer, router`routed, router.storage`retained, router.Senders()
      ensures Valid() && writer.Valid()
      ensures var e := Engine.OnPubRel(old(State()), packetId, old(writer.credit) > 0);
              && State() == e.core && outcome == e.outcome
              && writer.written == old(writer.written) + (if old(writer.credit) > 0 then OptionSeq(e.reply) else [])
              && router.Handed(Allowed(e.offered), now, visits)
              && (e.offered.Some? && mayPublish(Client(), e.offered.value.topic) ==> router.Handed(e.offered, now, visits))
              && (e.offered.Some? && !mayPublish(Client(), e.offered.value.topic) ==> router.Handed(None, now, visits))
    {
      visits := [];
      var ok := writer.Send(PubComp(packetId));
      if !ok {
        return Failed, [];
      }
      if packetId in inboundQos2 {
        var received := inboundQos2[packetId];
        inboundQos2 := inboundQos2 - {packetId};
        visits := RouteIfAllowed(received, now);
      }
      outcome := Continue;
    }

    // ---------- subscriptions ----------

    /** Splits the requested filters into the authorised ones and the positions
        of the others. */
    method Authorize(filters: seq<(Text, QoS)>) returns (authorized: seq<(Text, QoS)>, denied: seq<nat>)
      ensures authorized == Authorized(filters, Client(), maySubscribe)
      ensures forall i: nat :: i in denied <==> i < |filters| && !maySubscribe(Client(), filters[i].0)
    {
      authorized, denied := [], [];
      for i := 0 to |filters|
        invariant authorized == Authorized(filters[..i], Client(), maySubscribe)
        invariant forall j: nat :: j in denied <==> j < i && !maySubscribe(Client(), filters[j].0)
      {
        assert filters[..i + 1][..i] == filters[..i];
        if maySubscribe(Client(), filters[i].0) {
          authorized := authorized + [filters[i]];
        } else {
          denied := denied + [i];
        }
      }
      assert filters[..|filters|] == filters;
    }

    /** Lines the router's codes, which cover the authorised filters only, up
        with all the filters asked for. */
    method Reconstruct(filters: seq<(Text, QoS)>, denied: seq<nat>, routerCodes: seq<Byte>,
                       ghost authorized: seq<(Text, QoS)>) returns (codes: seq<Byte>)
      requires forall i: nat :: i in denied <==> i < |filters| && !maySubscribe(Client(), filters[i].0)
      requires authorized == Authorized(filters, Client(), maySubscribe)
      requires |routerCodes| == |authorized|
      requires forall i | 0 <= i < |routerCodes| :: routerCodes[i] == ReturnCode(authorized[i].0, authorized[i].1)
      ensures codes == SubscribeCodes(filters, Client(), maySubscribe)
    {
      codes := [];
      var routerIdx := 0;
      for i := 0 to |filters|
        invariant routerIdx == |Authorized(filters[..i], Client(), maySubscribe)|
        invariant codes == SubscribeCodes(filters, Client(), maySubscribe)[..i]
      {
        CodeLinesUp(filters, Client(), maySubscribe, i, routerCodes);
        if i in denied {
          codes := codes + [FAILURE];
        } else {
          codes := codes + [routerCodes[routerIdx]];
          routerIdx := routerIdx + 1;
        }
      }
    }

    /** The router is asked only if there is something to ask for. */
    method SubscribeAuthorized(authorized: seq<(Text, QoS)>)
      returns (codes: seq<Byte>, retained: seq<PublishPacket>, ghost found: seq<seq<PublishPacket>>)
      requires Valid()
      modifies router`filters, router`sessions
      ensures Valid()
      ensures forall s, f :: router.Lookup(s, f) ==
                if s == id && Requested(authorized, f).Some?
                then Some(Subscription(mailbox, Requested(authorized, f).value))
                else old(router.Lookup(s, f))
      ensures retained == Flatten(found)
      ensures Answered(codes, found, router.storage.retained, authorized)
    {
      codes, retained, found := [], [], [];
      if authorized != [] {
        codes, retained, found := router.Subscribe(id, mailbox, authorized);
      }
    }

    /** The authorised and valid filters are subscribed to; the client gets one
        code per filter, in order, and then the retained messages. */
    method OnSubscribe(packetId: U16, filters: seq<(Text, QoS)>, writer: Writer)
      returns (ok: bool, ghost found: seq<seq<PublishPacket>>)
      requires Valid() && writer.Valid()
      modifies router`filters, router`sessions, writer, mailbox
      ensures Valid() && writer.Valid()
      ensures var authorized := Authorized(filters, Client(), maySubscribe);
              && (forall s, f :: router.Lookup(s, f) ==
                    if s == id && Requested(authorized, f).Some?
                    then Some(Subscription(mailbox, Requested(authorized, f).value))
                    else old(router.Lookup(s, f)))
              && |found| == |authorized|
              && (forall i | 0 <= i < |found| ::
                    FoundFor(found[i], router.storage.retained, authorized[i].0, authorized[i].1))
      ensures ok == (old(writer.credit) > 0)
      ensures writer.written == old(writer.written)
                + (if ok then [SubAck(packetId, SubscribeCodes(filters, Client(), maySubscribe))] else [])
      ensures mailbox.queue == old(mailbox.queue) + (if ok then AsMessages(Flatten(found)) else [])
    {
      var authorized, denied := Authorize(filters);
      var routerCodes, retained;
      routerCodes, retained, found := SubscribeAuthorized(authorized);
      var codes := Reconstruct(filters, denied, routerCodes, authorized);
      ok := writer.Send(SubAck(packetId, codes));
      if ok {
        EnqueueAll(retained);
      }
    }

    method OnUnsubscribe(packetId: U16, filters: seq<Text>, writer: Writer) returns (ok: bool)
      requires Valid() && writer.Valid()
      modifies router`filters, router`sessions, writer
      ensures Valid() && writer.Valid()
      ensures forall s, f :: router.Lookup(s, f) == if s == id && f in filters then None else old(router.Lookup(s, f))
      ensures ok == (old(writer.credit) > 0)
      ensures writer.written == old(writer.written) + (if ok then [UnsubAck(packetId)] else [])
    {
      router.Unsubscribe(id, filters);
      ok := writer.Send(UnsubAck(packetId));
    }

    /** A clean disconnection takes the will back. */
    method OnDisconnect()
      modifies this`willMessage
      ensures willMessage == None
    {
      willMessage := None;
    }

    /** The will as it is published: at QoS 0 whatever level was asked for. */
    function Will(): Option<PublishPacket>
      reads this
    {
      match willMessage
      case None => None
      case Some(w) => Some(WillPublication(w))
    }

    /** The will goes out once. */
    method PublishWill(now: nat) returns (ghost visits: seq<(Text, Text)>)
      requires Valid()
      modifies this`willMessage, router`routed, router.storage`retained, router.Senders()
      ensures Valid() && willMessage == None
      ensures router.Handed(old(Will()), now, visits)
      ensures old(willMessage).Some? ==>
                var w := old(willMessage).value;
                router.Handed(Some(PublishPacket(w.topic, None, w.payload, AtMostOnce, w.retain, false)), now, visits)
    {
      visits := [];
      if willMessage.Some? {
        var will := willMessage.value;
        willMessage := None;
        visits := router.Route(PublishPacket(will.topic, None, will.payload, AtMostOnce, will.retain, false), now);
      }
    }

    // ---------- takeover, save and restore ----------

    method OnTakeover(stream: Writer, clean: bool, newKeepAlive: U16) returns (ok: bool)
      requires Valid() && stream.Valid()
      modifies this`cleanSession, this`keepAlive, this`inflightQueue, stream
      modifies router`filters, router`sessions, router.storage
      ensures Valid() && stream.Valid()
      ensures ok == (old(stream.credit) > 0)
      ensures stream.written == old(stream.written) + (if ok then [ConnAck(!clean, 0)] else [])
      ensures State() == Engine.OnTakeover(old(State()), clean, ok)
      ensures inflightQueue == if ok && clean then [] else old(inflightQueue)
      ensures cleanSession == (if ok then clean else old(cleanSession))
      ensures keepAlive == if ok then newKeepAlive else old(keepAlive)
      ensures forall s, f :: router.Lookup(s, f) == if ok && clean && s == id then None else old(router.Lookup(s, f))
      ensures router.storage.State() == if ok && clean && clientId.Some? then old(router.storage.State()).Delete(clientId.value)
                                        else old(router.storage.State())
    {
      ok := stream.Send(ConnAck(!clean, 0));
      if !ok {
        return;
      }
      cleanSession, keepAlive := clean, newKeepAlive;
      if clean {
        StartClean();
      }
    }

    method StartClean()
      requires Valid()
      modifies this`inflightQueue, router`filters, router`sessions, router.storage
      ensures Valid() && inflightQueue == []
      ensures forall s, f :: router.Lookup(s, f) == if s == id then None else old(router.Lookup(s, f))
      ensures router.storage.State() == if clientId.Some? then old(router.storage.State()).Delete(clientId.value)
                                        else old(router.storage.State())
    {
      router.UnsubscribeAll(id);
      DeleteSaved();
      inflightQueue := [];
    }

    method DeleteSaved()
      requires Valid()
      modifies router.storage
      ensures Valid()
      ensures router.storage.State() == if clientId.Some? then old(router.storage.State()).Delete(clientId.value)
                                        else old(router.storage.State())
    {
      if clientId.Some? {
        router.storage.DeleteSession(clientId.value);
      }
    }

    /** What this session would keep across a disconnection. */
    ghost function ToKeep(): Persistence.Kept
      reads this, router`filters
    {
      Persistence.Kept(State(), keepAlive, willMessage, router.Slice(id))
    }

    method CollectSubscriptions(client: Text) returns (rows: seq<SubscriptionRow>)
      requires Valid()
      ensures SubscriptionRows(rows, router.Slice(id), client)
    {
      var subs := router.GetSubscriptions(id);
      rows := seq(|subs|, i requires 0 <= i < |subs| => SubscriptionRow(client, subs[i].0, subs[i].1));
      forall f | f in router.Slice(id)
        ensures SubscriptionRow(client, f, router.Slice(id)[f]) in rows
      {
        var i :| 0 <= i < |subs| && subs[i] == (f, router.Slice(id)[f]);
        assert rows[i] == SubscriptionRow(client, f, router.Slice(id)[f]);
      }
    }

    method CollectInbound(client: Text, now: int) returns (rows: seq<InboundRow>)
      ensures InboundRows(rows, inboundQos2, client, now)
    {
      rows := [];
      var left := inboundQos2.Keys;
      while left != {}
        invariant left <= inboundQos2.Keys
        invariant forall i, j | 0 <= i < j < |rows| :: rows[i].packetId != rows[j].packetId
        invariant forall i | 0 <= i < |rows| ::
                    && rows[i].packetId in inboundQos2 && rows[i].packetId !in left
                    && rows[i] == SavedInbound(rows[i].packetId, inboundQos2[rows[i].packetId], client, now)
        invariant forall packetId <- inboundQos2 ::
                    packetId in left || SavedInbound(packetId, inboundQos2[packetId], client, now) in rows
        decreases left
      {
        var packetId :| packetId in left;
        rows := rows + [SavedInbound(packetId, inboundQos2[packetId], client, now)];
        left := left - {packetId};
      }
    }

    /** Saves the session under its client identifier, if it has one. */
    method SaveToStorage(now: int) returns (ghost saved: Option<SavedSession>)
      requires Valid()
      modifies router.storage
      ensures Valid()
      ensures router.storage.retained == old(router.storage.retained)
      ensures clientId.None? ==> saved.None? && router.storage.State() == old(router.storage.State())
      ensures clientId.Some? ==>
                && saved.Some? && Saves(saved.value, ToKeep(), clientId.value, now)
                && router.storage.State() == old(router.storage.State()).Save(saved.value)
    {
      saved := None;
      if clientId.None? {
        return;
      }
      var client := clientId.value;
      var session := SessionRow(client, nextPacketId, keepAlive, willMessage, now, now);
      var subs := CollectSubscriptions(client);
      var inflight := SavedInflight(inflightQueue, client, now);
      var inbound := CollectInbound(client, now);
      router.storage.SaveSession(session, subs, inflight, inbound);
      saved := Some(SavedSession(session, subs, inflight, inbound));
    }

    /** Takes the saved session of a client, if there is one, out of storage
        and into this session. */
    method RestoreFromStorage(client: Text, now: nat) returns (present: bool)
      requires Valid()
      modifies this`nextPacketId, this`keepAlive, this`willMessage, this`inflightQueue, this`inboundQos2
      modifies router`filters, router`sessions, router.storage
      ensures Valid()
      ensures present == old(router.storage.State()).Session(client).Some?
      ensures !present ==>
                && State() == old(State()) && keepAlive == old(keepAlive) && willMessage == old(willMessage)
                && router.storage.State() == old(router.storage.State())
                && (forall s, f :: router.Lookup(s, f) == old(router.Lookup(s, f)))
      ensures present ==>
                var m := old(router.storage.State());
                var row := m.Session(client).value;
                && nextPacketId == row.nextPacketId && keepAlive == row.keepAlive && willMessage == row.will
                && inflightQueue == old(inflightQueue) + RestoredInflight(m.Inflight(client), now)
                && inboundQos2 == old(inboundQos2) + RestoredInbound(m.Inbound(client))
                && (forall s, f :: router.Lookup(s, f) ==
                      if s == id && Requested(Requests(m.Subscriptions(client)), f).Some?
                      then Some(Subscription(mailbox, Requested(Requests(m.Subscriptions(client)), f).value))
                      else old(router.Lookup(s, f)))
                && router.storage.State() == m.Delete(client)
    {
      var row := router.storage.LoadSession(client);
      if row.None? {
        return false;
      }
      var subs := router.storage.LoadSubscriptions(client);
      var inflight := router.storage.LoadInflightMessages(client);
      var inbound := router.storage.LoadInboundQos2Messages(client);
      nextPacketId, keepAlive, willMessage := row.value.nextPacketId, row.value.keepAlive, row.value.will;
      Resubscribe(Requests(subs));
      PushInflight(inflight, now);
      InsertInbound(inbound);
      router.storage.DeleteSession(client);
      present := true;
    }

    method Resubscribe(filters: seq<(Text, QoS)>)
      requires Valid()
      modifies router`filters, router`sessions
      ensures Valid()
      ensures forall s, f :: router.Lookup(s, f) ==
                if s == id && Requested(filters, f).Some? then Some(Subscription(mailbox, Requested(filters, f).value))
                else old(router.Lookup(s, f))
    {
      if filters != [] {
        var _, _, _ := router.Subscribe(id, mailbox, filters);
      }
    }

    method PushInflight(rows: seq<InflightRow>, now: nat)
      modifies this`inflightQueue
      ensures inflightQueue == old(inflightQueue) + RestoredInflight(rows, now)
    {
      for i := 0 to |rows|
        invariant inflightQueue == old(inflightQueue) + RestoredInflight(rows[..i], now)
      {
        inflightQueue := inflightQueue + [RestoredEntry(rows[i], now)];
        assert RestoredInflight(rows[..i + 1], now) == RestoredInflight(rows[..i], now) + [RestoredEntry(rows[i], now)];
      }
      assert rows[..|rows|] == rows;
    }

    method InsertInbound(rows: seq<InboundRow>)
      modifies this`inboundQos2
      ensures inboundQos2 == old(inboundQos2) + RestoredInbound(rows)
    {
      for i := 0 to |rows|
        invariant inboundQos2 == old(inboundQos2) + RestoredInbound(rows[..i])
      {
        assert rows[..i + 1][..i] == rows[..i];
        inboundQos2 := inboundQos2[rows[i].packetId := RestoredPacket(rows[i])];
      }
      assert rows[..|rows|] == rows;
    }
  }
}
