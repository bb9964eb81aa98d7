/** The database backend as keyed tables. A save is one transaction: an upsert
    of the session row, and for each of the three lists a deletion of the
    client's rows followed by insertions that fail on a key already there. */
module Sqlite {
  import opened Base
  import opened Packets
  import opened Storage

  const I32_LIMIT: int := 0x8000_0000

  // ---------- columns ----------

  datatype SessionColumns = SessionColumns(
    nextPacketId: U16,
    keepAlive: U16,
    willTopic: Option<Text>,
    willPayload: Option<seq<Byte>>,
    willQos: Option<Byte>,
    willRetain: Option<int>,
    createdAt: int,
    updatedAt: int)

  datatype InflightColumns = InflightColumns(
    topic: Text,
    payload: seq<Byte>,
    qos: Byte,
    retain: int,
    retryCount: U32,
    qos2State: Option<Byte>,
    createdAt: int)

  datatype InboundColumns = InboundColumns(topic: Text, payload: seq<Byte>, retain: int, receivedAt: int)

  type Table<!K(==), +V> = map<(Text, K), V>

  datatype Database = Database(
    sessions: map<Text, SessionColumns>,
    subscriptions: Table<Text, Byte>,
    inflight: Table<U16, InflightColumns>,
    inbound: Table<U16, InboundColumns>)

  function QosFromU8(n: Byte, otherwise: QoS): QoS {
    if n == 0 then AtMostOnce else if n == 1 then AtLeastOnce else if n == 2 then ExactlyOnce else otherwise
  }

  function StateFromU8(n: Byte): Option<Qos2State> {
    if n == 0 then Some(AwaitingPubRec) else if n == 1 then Some(AwaitingPubComp) else None
  }

  function StateToU8(s: Qos2State): Byte {
    if s == AwaitingPubRec then 0 else 1
  }

  function SessionToColumns(s: SessionRow): SessionColumns {
    match s.will
    case None => SessionColumns(s.nextPacketId, s.keepAlive, None, None, None, None, s.createdAt, s.updatedAt)
    case Some(w) => SessionColumns(s.nextPacketId, s.keepAlive, Some(w.topic), Some(w.payload), Some(QosValue(w.qos)),
                                   Some(if w.retain then 1 else 0), s.createdAt, s.updatedAt)
  }

  function SessionFromColumns(clientId: Text, c: SessionColumns): SessionRow {
    var will := if c.willTopic.Some? && c.willPayload.Some? && c.willQos.Some? && c.willRetain.Some?
                then Some(WillMessage(c.willTopic.value, c.willPayload.value, QosFromU8(c.willQos.value, AtMostOnce),
                                      c.willRetain.value != 0))
                else None;
    SessionRow(clientId, c.nextPacketId, c.keepAlive, will, c.createdAt, c.updatedAt)
  }

  function SubscriptionEntry(r: SubscriptionRow): ((Text, Text), Byte) {
    ((r.clientId, r.filter), QosValue(r.qos))
  }

  function SubscriptionFrom(key: (Text, Text), qos: Byte): SubscriptionRow {
    SubscriptionRow(key.0, key.1, QosFromU8(qos, AtMostOnce))
  }

  function InflightEntry(r: InflightRow): ((Text, U16), InflightColumns) {
    ((r.clientId, r.packetId),
     InflightColumns(r.topic, r.payload, QosValue(r.qos), if r.retain then 1 else 0, r.retryCount,
                     if r.qos2State.Some? then Some(StateToU8(r.qos2State.value)) else None, r.createdAt))
  }

  /** The retry counter is read as a signed 32-bit number. */
  predicate Readable(c: InflightColumns) {
    c.retryCount < I32_LIMIT
  }

  function InflightFrom(key: (Text, U16), c: InflightColumns): InflightRow {
    InflightRow(key.0, key.1, c.topic, c.payload, QosFromU8(c.qos, AtLeastOnce), c.retain != 0, c.retryCount,
                if c.qos2State.Some? then StateFromU8(c.qos2State.value) else None, c.createdAt)
  }

  function InboundEntry(r: InboundRow): ((Text, U16), InboundColumns) {
    ((r.clientId, r.packetId), InboundColumns(r.topic, r.payload, if r.retain then 1 else 0, r.receivedAt))
  }

  function InboundFrom(key: (Text, U16), c: InboundColumns): InboundRow {
    InboundRow(key.0, key.1, c.topic, c.payload, c.retain != 0, c.receivedAt)
  }

  // ---------- statements ----------

  function DeleteClient<K(==), V>(t: Table<K, V>, c: Text): Table<K, V> {
    map k <- t | k.0 != c :: t[k]
  }

  /** A list of insertions; `None` when one meets a key that is there. */
  function InsertAll<K(==), V>(t: Table<K, V>, rows: seq<((Text, K), V)>): Option<Table<K, V>> {
    if rows == [] then Some(t)
    else
      var last := rows[|rows| - 1];
      match InsertAll(t, rows[..|rows| - 1])
      case None => None
      case Some(t') => if last.0 in t' then None else Some(t'[last.0 := last.1])
  }

  function Upsert(t: map<Text, SessionColumns>, s: SessionRow): map<Text, SessionColumns> {
    var columns := SessionToColumns(s);
    t[s.clientId := if s.clientId in t then columns.(createdAt := t[s.clientId].createdAt) else columns]
  }

  function Entries<R, K(==), V>(rows: seq<R>, entry: R -> ((Text, K), V)): seq<((Text, K), V)> {
    seq(|rows|, i requires 0 <= i < |rows| => entry(rows[i]))
  }

  /** The state after a save, or `None` if the transaction is rolled back. */
  function SaveResult(db: Database, s: SavedSession): Option<Database> {
    var c := s.session.clientId;
    match (InsertAll(DeleteClient(db.subscriptions, c), Entries(s.subscriptions, SubscriptionEntry)),
           InsertAll(DeleteClient(db.inflight, c), Entries(s.inflight, InflightEntry)),
           InsertAll(DeleteClient(db.inbound, c), Entries(s.inbound, InboundEntry)))
    case (Some(subs), Some(inflight), Some(inbound)) =>
      Some(Database(Upsert(db.sessions, s.session), subs, inflight, inbound))
    case _ => None
  }

  function DeleteResult(db: Database, c: Text): Database {
    Database(db.sessions - {c}, DeleteClient(db.subscriptions, c), DeleteClient(db.inflight, c),
             DeleteClient(db.inbound, c))
  }

  /** `rows` are the client's rows of a table, each once, in ascending order. */
  ghost predicate Selects<K, V>(rows: seq<((Text, K), V)>, t: Table<K, V>, c: Text, orderBy: V -> int) {
    && (forall i | 0 <= i < |rows| :: rows[i].0.0 == c && rows[i].0 in t && rows[i].1 == t[rows[i].0])
    && (forall i, j | 0 <= i < j < |rows| :: rows[i].0 != rows[j].0 && orderBy(rows[i].1) <= orderBy(rows[j].1))
    && (forall k <- t :: k.0 == c ==> (k, t[k]) in rows)
  }

  lemma LeastKey<K, V>(keys: set<(Text, K)>, t: Table<K, V>, orderBy: V -> int) returns (least: (Text, K))
    requires keys != {} && keys <= t.Keys
    ensures least in keys && forall k <- keys :: orderBy(t[least]) <= orderBy(t[k])
    decreases |keys|
  {
    var k :| k in keys;
    least := k;
    if keys != {k} {
      var other := LeastKey(keys - {k}, t, orderBy);
      least := if orderBy(t[k]) <= orderBy(t[other]) then k else other;
    }
  }

  method Insert<K(==), V>(t: Table<K, V>, rows: seq<((Text, K), V)>) returns (r: Option<Table<K, V>>)
    ensures r == InsertAll(t, rows)
  {
    var table := t;
    for i := 0 to |rows|
      invariant InsertAll(t, rows[..i]) == Some(table)
    {
      assert rows[..i + 1][..i] == rows[..i];
      if rows[i].0 in table {
        StillFails(t, rows, i + 1);
        return None;
      }
      table := table[rows[i].0 := rows[i].1];
    }
    assert rows[..|rows|] == rows;
    r := Some(table);
  }

  lemma {:induction false} StillFails<K, V>(t: Table<K, V>, rows: seq<((Text, K), V)>, i: nat)
    requires i <= |rows| && InsertAll(t, rows[..i]) == None
    ensures InsertAll(t, rows) == None
    decreases |rows| - i
  {
    if i == |rows| {
      assert rows[..i] == rows;
    } else {
      assert rows[..i + 1][..i] == rows[..i];
      StillFails(t, rows, i + 1);
    }
  }

  method Select<K(==), V>(t: Table<K, V>, c: Text, orderBy: V -> int) returns (rows: seq<((Text, K), V)>)
    ensures Selects(rows, t, c, orderBy)
  {
    rows := [];
    var left := set k <- t | k.0 == c;
    while left != {}
      invariant left <= t.Keys
      invariant forall k <- left :: k.0 == c
      invariant forall i | 0 <= i < |rows| :: rows[i].0.0 == c && rows[i].0 in t && rows[i].1 == t[rows[i].0]
      invariant forall i | 0 <= i < |rows| :: rows[i].0 !in left && forall k <- left :: orderBy(rows[i].1) <= orderBy(t[k])
      invariant forall i, j | 0 <= i < j < |rows| :: rows[i].0 != rows[j].0 && orderBy(rows[i].1) <= orderBy(rows[j].1)
      invariant forall k <- t :: k.0 == c && k !in left ==> (k, t[k]) in rows
      decreases left
    {
      ghost var least := LeastKey(left, t, orderBy);
      var k :| k in left && forall k' <- left :: orderBy(t[k]) <= orderBy(t[k']);
      rows := rows + [(k, t[k])];
      left := left - {k};
    }
  }

  /** The rows of every client but one are the same. */
  ghost predicate SameOthers<K, V>(t: Table<K, V>, t': Table<K, V>, c: Text) {
    && (forall k <- t :: k.0 != c ==> k in t' && t'[k] == t[k])
    && (forall k <- t' :: k.0 != c ==> k in t)
  }

  /** The client has no row. */
  ghost predicate Unknown(db: Database, c: Text) {
    && c !in db.sessions
    && (forall k <- db.subscriptions :: k.0 != c)
    && (forall k <- db.inflight :: k.0 != c)
    && (forall k <- db.inbound :: k.0 != c)
  }

  ghost predicate OthersKept(db: Database, db': Database, c: Text) {
    && db.sessions - {c} == db'.sessions - {c}
    && SameOthers(db.subscriptions, db'.subscriptions, c)
    && SameOthers(db.inflight, db'.inflight, c)
    && SameOthers(db.inbound, db'.inbound, c)
  }

  // ---------- what a query returns ----------

  function SubscriptionRowsOf(rows: seq<((Text, Text), Byte)>): seq<SubscriptionRow> {
    seq(|rows|, i requires 0 <= i < |rows| => SubscriptionFrom(rows[i].0, rows[i].1))
  }

  function InflightRowsOf(rows: seq<((Text, U16), InflightColumns)>): seq<InflightRow> {
    seq(|rows|, i requires 0 <= i < |rows| => InflightFrom(rows[i].0, rows[i].1))
  }

  function InboundRowsOf(rows: seq<((Text, U16), InboundColumns)>): seq<InboundRow> {
    seq(|rows|, i requires 0 <= i < |rows| => InboundFrom(rows[i].0, rows[i].1))
  }

  predicate AllReadable(rows: seq<((Text, U16), InflightColumns)>) {
    forall i | 0 <= i < |rows| :: Readable(rows[i].1)
  }

  ghost predicate SubscriptionsLoaded(r: seq<SubscriptionRow>, t: Table<Text, Byte>, c: Text) {
    exists rows :: Selects(rows, t, c, _ => 0) && r == SubscriptionRowsOf(rows)
  }

  ghost predicate InflightLoaded(r: Option<seq<InflightRow>>, t: Table<U16, InflightColumns>, c: Text) {
    exists rows :: Selects(rows, t, c, (columns: InflightColumns) => columns.createdAt)
                   && r == if AllReadable(rows) then Some(InflightRowsOf(rows)) else None
  }

  ghost predicate InboundLoaded(r: seq<InboundRow>, t: Table<U16, InboundColumns>, c: Text) {
    exists rows :: Selects(rows, t, c, (columns: InboundColumns) => columns.receivedAt) && r == InboundRowsOf(rows)
  }

  // ---------- the storage ----------

  class SqliteStorage {
    var sessions: map<Text, SessionColumns>
    var subscriptions: Table<Text, Byte>
    var inflight: Table<U16, InflightColumns>
    var inboundQos2: Table<U16, InboundColumns>

    constructor ()
      ensures State() == Database(map[], map[], map[], map[])
    {
      sessions, subscriptions, inflight, inboundQos2 := map[], map[], map[], map[];
    }

    ghost function State(): Database
      reads this
    {
      Database(sessions, subscriptions, inflight, inboundQos2)
    }

    /** All or nothing. */
    method SaveSession(session: SessionRow, subs: seq<SubscriptionRow>, messages: seq<InflightRow>,
                       received: seq<InboundRow>) returns (ok: bool)
      modifies this
      ensures var result := SaveResult(old(State()), SavedSession(session, subs, messages, received));
              && ok == result.Some?
              && State() == if ok then result.value else old(State())
    {
      var clientId := session.clientId;
      var subsTable := Insert(DeleteClient(subscriptions, clientId), Entries(subs, SubscriptionEntry));
      if subsTable.None? {
        return false;
      }
      var inflightTable := Insert(DeleteClient(inflight, clientId), Entries(messages, InflightEntry));
      if inflightTable.None? {
        return false;
      }
      var inboundTable := Insert(DeleteClient(inboundQos2, clientId), Entries(received, InboundEntry));
      if inboundTable.None? {
        return false;
      }
      sessions := Upsert(sessions, session);
      subscriptions, inflight, inboundQos2 := subsTable.value, inflightTable.value, inboundTable.value;
      ok := true;
    }

    method DeleteSession(clientId: Text)
      modifies this
      ensures State() == DeleteResult(old(State()), clientId)
      ensures Unknown(State(), clientId) && OthersKept(old(State()), State(), clientId)
    {
      inflight := DeleteClient(inflight, clientId);
      inboundQos2 := DeleteClient(inboundQos2, clientId);
      subscriptions := DeleteClient(subscriptions, clientId);
      sessions := sessions - {clientId};
    }

    method LoadSession(clientId: Text) returns (r: Option<SessionRow>)
      ensures r == if clientId in sessions then Some(SessionFromColumns(clientId, sessions[clientId])) else None
    {
      r := if clientId in sessions then Some(SessionFromColumns(clientId, sessions[clientId])) else None;
    }

    method LoadSubscriptions(clientId: Text) returns (r: seq<SubscriptionRow>)
      ensures SubscriptionsLoaded(r, subscriptions, clientId)
    {
      var selected := Select(subscriptions, clientId, _ => 0);
      r := SubscriptionRowsOf(selected);
    }

    /** In the order of creation; fails if a retry counter cannot be read. */
    method LoadInflightMessages(clientId: Text) returns (r: Option<seq<InflightRow>>)
      ensures InflightLoaded(r, inflight, clientId)
    {
      var selected := Select(inflight, clientId, (c: InflightColumns) => c.createdAt);
      var messages := [];
      for i := 0 to |selected|
        invariant AllReadable(selected[..i])
        invariant messages == InflightRowsOf(selected[..i])
      {
        if !Readable(selected[i].1) {
          assert !AllReadable(selected);
          return None;
        }
        messages := messages + [InflightFrom(selected[i].0, selected[i].1)];
        assert InflightRowsOf(selected[..i + 1]) == messages;
      }
      assert selected[..|selected|] == selected;
      r := Some(messages);
    }

    /** In the order of arrival. */
    method LoadInboundQos2Messages(clientId: Text) returns (r: seq<InboundRow>)
      ensures InboundLoaded(r, inboundQos2, clientId)
    {
      var selected := Select(inboundQos2, clientId, (c: InboundColumns) => c.receivedAt);
      r := InboundRowsOf(selected);
    }
  }
}
