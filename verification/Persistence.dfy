/** What a save writes for a session, what a restore makes of it, and when the
    two together lose nothing. */
module Persistence {
  import opened Base
  import opened Packets
  import opened Storage
  import opened Engine

  // ---------- rows ----------

  function SavedEntry(e: Entry, clientId: Text, now: int): InflightRow {
    InflightRow(clientId, if e.packet.packetId.Some? then e.packet.packetId.value else 0, e.packet.topic,
                e.packet.payload, e.packet.qos, e.packet.retain, e.retryCount, e.qos2State, now)
  }

  function SavedInflight(q: seq<Entry>, clientId: Text, now: int): seq<InflightRow> {
    seq(|q|, i requires 0 <= i < |q| => SavedEntry(q[i], clientId, now))
  }

  function SavedInbound(id: U16, p: PublishPacket, clientId: Text, now: int): InboundRow {
    InboundRow(clientId, id, p.topic, p.payload, p.retain, now)
  }

  function RestoredEntry(row: InflightRow, now: nat): Entry {
    Entry(PublishPacket(row.topic, Some(row.packetId), row.payload, row.qos, row.retain, true), now, row.retryCount,
          row.qos2State)
  }

  function RestoredInflight(rows: seq<InflightRow>, now: nat): seq<Entry> {
    seq(|rows|, i requires 0 <= i < |rows| => RestoredEntry(rows[i], now))
  }

  function RestoredPacket(row: InboundRow): PublishPacket {
    PublishPacket(row.topic, Some(row.packetId), row.payload, ExactlyOnce, row.retain, false)
  }

  /** Inserting rows one by one: the last row with an identifier wins. */
  function RestoredInbound(rows: seq<InboundRow>): map<U16, PublishPacket> {
    if rows == [] then map[]
    else
      var last := rows[|rows| - 1];
      RestoredInbound(rows[..|rows| - 1])[last.packetId := RestoredPacket(last)]
  }

  /** The rows for the received messages, each once, in some order. */
  ghost predicate InboundRows(rows: seq<InboundRow>, inbound: map<U16, PublishPacket>, clientId: Text, now: int) {
    && (forall i, j | 0 <= i < j < |rows| :: rows[i].packetId != rows[j].packetId)
    && (forall i | 0 <= i < |rows| ::
          rows[i].packetId in inbound && rows[i] == SavedInbound(rows[i].packetId, inbound[rows[i].packetId], clientId, now))
    && (forall id <- inbound :: SavedInbound(id, inbound[id], clientId, now) in rows)
  }

  /** The rows for the subscriptions, each once, in some order. */
  ghost predicate SubscriptionRows(rows: seq<SubscriptionRow>, subs: map<Text, QoS>, clientId: Text) {
    && (forall i, j | 0 <= i < j < |rows| :: rows[i].filter != rows[j].filter)
    && (forall i | 0 <= i < |rows| ::
          rows[i].clientId == clientId && rows[i].filter in subs && rows[i].qos == subs[rows[i].filter])
    && (forall f <- subs :: SubscriptionRow(clientId, f, subs[f]) in rows)
  }

  function Requests(rows: seq<SubscriptionRow>): seq<(Text, QoS)> {
    seq(|rows|, i requires 0 <= i < |rows| => (rows[i].filter, rows[i].qos))
  }

  /** What a session keeps across a disconnection. */
  datatype Kept = Kept(core: Core, keepAlive: U16, will: Option<WillMessage>, subs: map<Text, QoS>)

  /** `saved` is a possible outcome of saving `k`. */
  ghost predicate Saves(saved: SavedSession, k: Kept, clientId: Text, now: int) {
    && saved.session == SessionRow(clientId, k.core.nextPacketId, k.keepAlive, k.will, now, now)
    && SubscriptionRows(saved.subscriptions, k.subs, clientId)
    && saved.inflight == SavedInflight(k.core.inflight, clientId, now)
    && InboundRows(saved.inbound, k.core.inbound, clientId, now)
  }

  function Restored(saved: SavedSession, now: nat): Core {
    Core(saved.session.nextPacketId, RestoredInflight(saved.inflight, now), RestoredInbound(saved.inbound))
  }

  // ---------- the identity ----------

  function Stamped(q: seq<Entry>, now: nat): seq<Entry> {
    seq(|q|, i requires 0 <= i < |q| => q[i].(timestamp := now))
  }

  function Undup(m: map<U16, PublishPacket>): map<U16, PublishPacket> {
    map id <- m :: m[id].(dup := false)
  }

  /** The delivery state with the clock readings of the in-flight queue set and
      the dup bits of the received messages cleared. */
  function Resumed(c: Core, now: nat): Core {
    Core(c.nextPacketId, Stamped(c.inflight, now), Undup(c.inbound))
  }

  predicate WellKeptEntry(e: Entry) {
    e.packet.packetId.Some? && e.packet.dup
  }

  predicate WellKeptMessage(id: U16, p: PublishPacket) {
    p.packetId == Some(id) && p.qos == ExactlyOnce
  }

  /** Tracked packets carry an identifier and the dup flag; received messages
      are QoS 2 messages under their own identifier. */
  predicate WellKept(c: Core) {
    && (forall e <- c.inflight :: WellKeptEntry(e))
    && (forall id <- c.inbound :: WellKeptMessage(id, c.inbound[id]))
  }

  lemma {:induction false} RestoredInboundAt(rows: seq<InboundRow>)
    requires forall i, j | 0 <= i < j < |rows| :: rows[i].packetId != rows[j].packetId
    ensures forall i | 0 <= i < |rows| ::
              rows[i].packetId in RestoredInbound(rows) && RestoredInbound(rows)[rows[i].packetId] == RestoredPacket(rows[i])
    ensures forall id <- RestoredInbound(rows) :: exists i | 0 <= i < |rows| :: rows[i].packetId == id
    decreases |rows|
  {
    if rows != [] {
      var front := rows[..|rows| - 1];
      RestoredInboundAt(front);
      forall id | id in RestoredInbound(rows)
        ensures exists i | 0 <= i < |rows| :: rows[i].packetId == id
      {
        if id in RestoredInbound(front) {
          var i :| 0 <= i < |front| && front[i].packetId == id;
          assert rows[i].packetId == id;
        } else {
          assert rows[|rows| - 1].packetId == id;
        }
      }
    }
  }

  lemma InboundRestored(rows: seq<InboundRow>, inbound: map<U16, PublishPacket>, clientId: Text, now: int)
    requires InboundRows(rows, inbound, clientId, now)
    ensures RestoredInbound(rows).Keys == inbound.Keys
    ensures forall id <- inbound :: RestoredInbound(rows)[id] == RestoredPacket(SavedInbound(id, inbound[id], clientId, now))
  {
    RestoredInboundAt(rows);
    forall id | id in inbound
      ensures id in RestoredInbound(rows)
      ensures RestoredInbound(rows)[id] == RestoredPacket(SavedInbound(id, inbound[id], clientId, now))
    {
      var i :| 0 <= i < |rows| && rows[i] == SavedInbound(id, inbound[id], clientId, now);
      assert rows[i].packetId == id;
    }
  }

  /** The received messages come back, dup bits aside, exactly when they are
      QoS 2 messages under their own identifiers. */
  lemma InboundIdentity(rows: seq<InboundRow>, inbound: map<U16, PublishPacket>, clientId: Text, now: int)
    requires InboundRows(rows, inbound, clientId, now)
    ensures RestoredInbound(rows) == Undup(inbound) <==> forall id <- inbound :: WellKeptMessage(id, inbound[id])
  {
    InboundRestored(rows, inbound, clientId, now);
    forall id | id in inbound
      ensures RestoredInbound(rows)[id] == Undup(inbound)[id] <==> WellKeptMessage(id, inbound[id])
    {
    }
  }

  /** So do the messages in flight, clock readings aside, exactly when they
      carry an identifier and the dup flag. */
  lemma InflightIdentity(q: seq<Entry>, clientId: Text, now: int, later: nat)
    ensures RestoredInflight(SavedInflight(q, clientId, now), later) == Stamped(q, later)
       <==> forall e <- q :: WellKeptEntry(e)
  {
    var restored, stamped := RestoredInflight(SavedInflight(q, clientId, now), later), Stamped(q, later);
    forall i | 0 <= i < |q|
      ensures restored[i] == stamped[i] <==> WellKeptEntry(q[i])
    {
    }
    if restored == stamped {
      forall e | e in q
        ensures WellKeptEntry(e)
      {
        var i :| 0 <= i < |q| && q[i] == e;
        assert restored[i] == stamped[i];
      }
    }
  }

  /** Restoring what was saved gives the delivery state back, clock readings
      and inbound dup bits aside, exactly when the state is well kept. */
  lemma SaveRestoreIdentity(saved: SavedSession, k: Kept, clientId: Text, now: int, later: nat)
    requires Saves(saved, k, clientId, now)
    ensures Restored(saved, later) == Resumed(k.core, later) <==> WellKept(k.core)
  {
    InflightIdentity(k.core.inflight, clientId, now, later);
    InboundIdentity(saved.inbound, k.core.inbound, clientId, now);
  }
}
