/** The delivery engine of one session as functions on its state. The handlers
    of class Session.Runtime are proved to compute these functions; the modules
    on inbound and outbound delivery prove what whole runs of them guarantee. */
module Engine {
  import opened Base
  import opened Packets
  import opened Storage

  datatype Entry = Entry(packet: PublishPacket, timestamp: nat, retryCount: U32, qos2State: Option<Qos2State>)

  /** The part of a session that delivery depends on. */
  datatype Core = Core(nextPacketId: U16, inflight: seq<Entry>, inbound: map<U16, PublishPacket>)

  datatype Config = Config(retransmissionIntervalMs: nat, maxRetransmissionLimit: U32) {
    /** Zero switches retransmission off; anything else is at least 500 ms. */
    function Interval(): nat {
      if retransmissionIntervalMs == 0 then 0
      else if retransmissionIntervalMs < 500 then 500
      else retransmissionIntervalMs
    }
  }

  /** How a handler ends: the loop goes on, the client is disconnected, or a
      write failed. */
  datatype Outcome = Continue | Disconnected | Failed

  // ---------- identifiers ----------

  function NextId(n: U16): U16 {
    if n == 65535 then 1 else n + 1
  }

  /** The identifier of the message numbered `k`, counting from the start. */
  function IdOf(start: U16, k: nat): U16
    requires 1 <= start
  {
    (start - 1 + k) % 65535 + 1
  }

  lemma NextIdOf(start: U16, k: nat)
    requires 1 <= start
    ensures NextId(IdOf(start, k)) == IdOf(start, k + 1)
    ensures IdOf(start, 0) == start
    ensures 1 <= IdOf(start, k)
  {
    var a := start - 1 + k;
    assert a == a / 65535 * 65535 + a % 65535;
    if a % 65535 == 65534 {
      assert a + 1 == (a / 65535 + 1) * 65535;
    } else {
      assert a + 1 == a / 65535 * 65535 + (a % 65535 + 1);
    }
  }

  /** Two messages share an identifier exactly when a multiple of 65535
      allocations lies between them. */
  lemma SameId(start: U16, k: nat, l: nat)
    requires 1 <= start && k <= l
    ensures IdOf(start, k) == IdOf(start, l) <==> (l - k) % 65535 == 0
  {
    var a, b := start - 1 + k, start - 1 + l;
    assert b - a == l - k;
    assert a == a / 65535 * 65535 + a % 65535 && b == b / 65535 * 65535 + b % 65535;
    if a % 65535 == b % 65535 {
      assert b - a == (b / 65535 - a / 65535) * 65535;
    }
    if (b - a) % 65535 == 0 {
      var n := (b - a) / 65535;
      assert b == (a / 65535 + n) * 65535 + a % 65535;
    }
  }

  /** Fewer than 65535 allocations apart, two messages have different ones. */
  lemma NearIdsDiffer(start: U16, k: nat, l: nat)
    requires 1 <= start && k < l < k + 65535
    ensures IdOf(start, k) != IdOf(start, l)
  {
    SameId(start, k, l);
  }

  // ---------- outbound ----------

  /** A message from the mailbox that needs an identifier and tracking. */
  predicate Fresh(m: Packet) {
    m.Publish? && m.publish.qos != AtMostOnce && !m.publish.dup
  }

  function Tracked(p: PublishPacket, id: U16, now: nat): Entry {
    Entry(p.(packetId := Some(id), dup := true), now, 0,
          if p.qos == ExactlyOnce then Some(AwaitingPubRec) else None)
  }

  /** What handling a mailbox message tries to write. */
  function MessageWrites(c: Core, m: Packet): Option<Packet> {
    if !m.Publish? then None
    else if Fresh(m) then Some(Publish(m.publish.(packetId := Some(c.nextPacketId))))
    else Some(m)
  }

  /** The identifier is used up even when the write fails; the message is
      tracked only when it succeeds. */
  function OnMessage(c: Core, m: Packet, ok: bool, now: nat): Core {
    if !Fresh(m) then c
    else
      var c' := c.(nextPacketId := NextId(c.nextPacketId));
      if ok then c'.(inflight := c.inflight + [Tracked(m.publish, c.nextPacketId, now)]) else c'
  }

  /** PUBACK and PUBCOMP: forget every entry with the identifier. */
  function RemoveId(q: seq<Entry>, id: U16): seq<Entry> {
    if q == [] then []
    else
      var before := RemoveId(q[..|q| - 1], id);
      var last := q[|q| - 1];
      if last.packet.packetId != Some(id) then before + [last] else before
  }

  lemma {:induction false} RemoveIdMembers(q: seq<Entry>, id: U16)
    ensures forall e :: e in RemoveId(q, id) <==> e in q && e.packet.packetId != Some(id)
    decreases |q|
  {
    if q != [] {
      RemoveIdMembers(q[..|q| - 1], id);
      assert q == q[..|q| - 1] + [q[|q| - 1]];
    }
  }

  function OtherId(id: U16): Entry -> bool {
    (e: Entry) => e.packet.packetId != Some(id)
  }

  /** The positions of the entries with a property. */
  function Where(q: seq<Entry>, f: Entry -> bool): seq<nat> {
    if q == [] then []
    else
      var before := Where(q[..|q| - 1], f);
      if f(q[|q| - 1]) then before + [|q| - 1] else before
  }

  lemma {:induction false} WhereMember(q: seq<Entry>, f: Entry -> bool, k: nat)
    ensures k in Where(q, f) <==> k < |q| && f(q[k])
    decreases |q|
  {
    if q != [] {
      WhereMember(q[..|q| - 1], f, k);
    }
  }

  lemma {:induction false} WhereAt(q: seq<Entry>, f: Entry -> bool)
    ensures var at := Where(q, f);
            && (forall i, j | 0 <= i < j < |at| :: at[i] < at[j])
            && (forall k: nat :: k in at <==> k < |q| && f(q[k]))
    decreases |q|
  {
    forall k: nat
      ensures k in Where(q, f) <==> k < |q| && f(q[k])
    {
      WhereMember(q, f, k);
    }
    if q != [] {
      WhereAt(q[..|q| - 1], f);
      var at := Where(q[..|q| - 1], f);
      assert forall i | 0 <= i < |at| :: at[i] in at;
    }
  }

  /** `kept` are entries of `q`, at these positions and in their order. */
  predicate Picks(kept: seq<Entry>, q: seq<Entry>, at: seq<nat>) {
    && |at| == |kept|
    && (forall i | 0 <= i < |at| :: at[i] < |q| && kept[i] == q[at[i]])
    && (forall i, j | 0 <= i < j < |at| :: at[i] < at[j])
  }

  /** `kept` are the entries of `q` with another identifier, all of them, in
      their order. */
  ghost predicate WithoutId(kept: seq<Entry>, q: seq<Entry>, id: U16) {
    exists at :: Picks(kept, q, at) && forall k: nat | k < |q| :: k in at <==> q[k].packet.packetId != Some(id)
  }

  lemma {:induction false} RemoveIdPicks(q: seq<Entry>, id: U16)
    ensures Picks(RemoveId(q, id), q, Where(q, OtherId(id)))
    decreases |q|
  {
    if q != [] {
      RemoveIdPicks(q[..|q| - 1], id);
      WhereAt(q[..|q| - 1], OtherId(id));
      var at := Where(q[..|q| - 1], OtherId(id));
      assert forall i | 0 <= i < |at| :: at[i] in at;
    }
  }

  lemma RemoveIdKeepsRest(q: seq<Entry>, id: U16)
    ensures WithoutId(RemoveId(q, id), q, id)
  {
    RemoveIdPicks(q, id);
    WhereAt(q, OtherId(id));
  }

  predicate AwaitsRec(e: Entry, id: U16) {
    e.packet.packetId == Some(id) && e.qos2State == Some(AwaitingPubRec)
  }

  function Received(e: Entry, now: nat): Entry {
    e.(qos2State := Some(AwaitingPubComp), timestamp := now, retryCount := 0)
  }

  /** PUBREC: the first entry waiting for it moves on. */
  function OnPubRec(q: seq<Entry>, id: U16, now: nat): seq<Entry> {
    if q == [] then []
    else if AwaitsRec(q[0], id) then [Received(q[0], now)] + q[1..]
    else [q[0]] + OnPubRec(q[1..], id, now)
  }

  /** The queue after a PUBREC at time `now`: the first entry that waits for it
      waits for PUBCOMP, from now on and with no retry yet, and keeps its packet;
      nothing else changes, and nothing at all if none waits for it. */
  ghost predicate MarksFirst(q': seq<Entry>, q: seq<Entry>, id: U16, now: nat) {
    var waits := (e: Entry) => e.packet.packetId == Some(id) && e.qos2State == Some(AwaitingPubRec);
    if exists i | 0 <= i < |q| :: waits(q[i]) then
      exists i | 0 <= i < |q| ::
        && waits(q[i]) && (forall j | 0 <= j < i :: !waits(q[j]))
        && q' == q[i := Entry(q[i].packet, now, 0, Some(AwaitingPubComp))]
    else q' == q
  }

  /** The position of the first entry that waits for a PUBREC, if there is one. */
  function FirstWaiting(q: seq<Entry>, id: U16): (i: nat)
    ensures i <= |q|
    ensures i < |q| ==> AwaitsRec(q[i], id)
    ensures forall j | 0 <= j < i :: !AwaitsRec(q[j], id)
  {
    if q == [] || AwaitsRec(q[0], id) then 0 else 1 + FirstWaiting(q[1..], id)
  }

  lemma {:induction false} OnPubRecAt(q: seq<Entry>, id: U16, now: nat)
    ensures var i := FirstWaiting(q, id);
            OnPubRec(q, id, now) == if i < |q| then q[i := Received(q[i], now)] else q
    decreases |q|
  {
    if q != [] && !AwaitsRec(q[0], id) {
      OnPubRecAt(q[1..], id, now);
      assert [q[0]] + q[1..] == q;
    }
  }

  lemma OnPubRecMarksFirst(q: seq<Entry>, id: U16, now: nat)
    ensures MarksFirst(OnPubRec(q, id, now), q, id, now)
  {
    OnPubRecAt(q, id, now);
    var i := FirstWaiting(q, id);
    if i < |q| {
      assert Received(q[i], now) == Entry(q[i].packet, now, 0, Some(AwaitingPubComp));
    }
  }

  function Elapsed(since: nat, now: nat): nat {
    if now < since then 0 else now - since
  }

  predicate Due(e: Entry, interval: nat, now: nat) {
    Elapsed(e.timestamp, now) >= interval
  }

  function Retried(e: Entry, now: nat): Entry {
    e.(retryCount := Incremented(e.retryCount), timestamp := now)
  }

  /** A due entry over the limit is dropped. */
  predicate Expires(e: Entry, interval: nat, limit: U32, now: nat) {
    Due(e, interval, now) && Retried(e, now).retryCount > limit
  }

  datatype Tick = Tick(queue: seq<Entry>, publishes: seq<PublishPacket>, pubrels: seq<U16>)

  function TickLast(t: Tick, e: Entry, interval: nat, limit: U32, now: nat): Tick {
    if !Due(e, interval, now) then t.(queue := t.queue + [e])
    else if Expires(e, interval, limit, now) then t
    else
      var kept := t.(queue := t.queue + [Retried(e, now)]);
      if e.qos2State != Some(AwaitingPubComp) then kept.(publishes := t.publishes + [e.packet])
      else if e.packet.packetId.Some? then kept.(pubrels := t.pubrels + [e.packet.packetId.value])
      else kept
  }

  /** One tick of the retransmission timer over the whole queue. */
  function OnTick(q: seq<Entry>, interval: nat, limit: U32, now: nat): Tick {
    if q == [] then Tick([], [], [])
    else TickLast(OnTick(q[..|q| - 1], interval, limit, now), q[|q| - 1], interval, limit, now)
  }

  /** Packets for the mailbox. */
  function AsMessages(ps: seq<PublishPacket>): seq<Packet> {
    seq(|ps|, i requires 0 <= i < |ps| => Publish(ps[i]))
  }

  function AsPubRels(ids: seq<U16>): seq<Packet> {
    seq(|ids|, i requires 0 <= i < |ids| => PubRel(ids[i]))
  }

  // ---------- inbound ----------

  /** The state after a packet from the client, the reply it calls for, the
      message it hands on for routing, and how the handler ends. */
  datatype Effect = Effect(core: Core, reply: Option<Packet>, offered: Option<PublishPacket>, outcome: Outcome)

  function OnPublish(c: Core, p: PublishPacket, ok: bool): Effect {
    var ending := if ok then Continue else Failed;
    match p.qos
    case AtMostOnce => Effect(c, None, Some(p), Continue)
    case AtLeastOnce =>
      if p.packetId.None? then Effect(c, None, None, Disconnected)
      else Effect(c, Some(PubAck(p.packetId.value)), if ok && !p.dup then Some(p) else None, ending)
    case ExactlyOnce =>
      if p.packetId.None? then Effect(c, None, None, Disconnected)
      else
        var id := p.packetId.value;
        var c' := if id in c.inbound then c else c.(inbound := c.inbound[id := p]);
        Effect(c', Some(PubRec(id)), None, ending)
  }

  function OnPubRel(c: Core, id: U16, ok: bool): Effect {
    if !ok then Effect(c, Some(PubComp(id)), None, Failed)
    else if id in c.inbound then
      Effect(c.(inbound := c.inbound - {id}), Some(PubComp(id)), Some(c.inbound[id]), Continue)
    else Effect(c, Some(PubComp(id)), None, Continue)
  }

  // ---------- will and takeover ----------

  /** The will as it is published: at QoS 0 whatever level was asked for. */
  function WillPublication(w: WillMessage): PublishPacket {
    PublishPacket(w.topic, None, w.payload, AtMostOnce, w.retain, false)
  }

  /** A clean takeover clears the in-flight queue; it leaves the received
      QoS 2 messages alone. */
  function OnTakeover(c: Core, clean: bool, ok: bool): Core {
    if ok && clean then c.(inflight := []) else c
  }
}
