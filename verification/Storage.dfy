/** The rows the broker persists, and the storage that keeps them in memory. */
module Storage {
  import opened Base
  import opened Packets

  datatype Qos2State = AwaitingPubRec | AwaitingPubComp

  datatype WillMessage = WillMessage(topic: Text, payload: seq<Byte>, qos: QoS, retain: bool)

  datatype SessionRow = SessionRow(
    clientId: Text,
    nextPacketId: U16,
    keepAlive: U16,
    will: Option<WillMessage>,
    createdAt: int,
    updatedAt: int)

  datatype SubscriptionRow = SubscriptionRow(clientId: Text, filter: Text, qos: QoS)

  datatype InflightRow = InflightRow(
    clientId: Text,
    packetId: U16,
    topic: Text,
    payload: seq<Byte>,
    qos: QoS,
    retain: bool,
    retryCount: U32,
    qos2State: Option<Qos2State>,
    createdAt: int)

  datatype InboundRow = InboundRow(
    clientId: Text,
    packetId: U16,
    topic: Text,
    payload: seq<Byte>,
    retain: bool,
    receivedAt: int)

  datatype Retained = Retained(topic: Text, payload: seq<Byte>, qos: QoS, updatedAt: int)

  /** Everything one save writes. */
  datatype SavedSession = SavedSession(
    session: SessionRow,
    subscriptions: seq<SubscriptionRow>,
    inflight: seq<InflightRow>,
    inbound: seq<InboundRow>)

  /** What the four per-client maps of the memory storage hold. */
  datatype MemoryState = MemoryState(
    sessions: map<Text, SessionRow>,
    subscriptions: map<Text, seq<SubscriptionRow>>,
    inflight: map<Text, seq<InflightRow>>,
    inbound: map<Text, seq<InboundRow>>)
  {
    function Save(s: SavedSession): MemoryState {
      var c := s.session.clientId;
      MemoryState(sessions[c := s.session], subscriptions[c := s.subscriptions], inflight[c := s.inflight],
                  inbound[c := s.inbound])
    }

    function Delete(c: Text): MemoryState {
      MemoryState(sessions - {c}, subscriptions - {c}, inflight - {c}, inbound - {c})
    }

    function Session(c: Text): Option<SessionRow> {
      if c in sessions then Some(sessions[c]) else None
    }

    function Subscriptions(c: Text): seq<SubscriptionRow> {
      if c in subscriptions then subscriptions[c] else []
    }

    function Inflight(c: Text): seq<InflightRow> {
      if c in inflight then inflight[c] else []
    }

    function Inbound(c: Text): seq<InboundRow> {
      if c in inbound then inbound[c] else []
    }

    /** All that can be loaded for a client. */
    predicate Answers(c: Text, session: Option<SessionRow>, subs: seq<SubscriptionRow>, messages: seq<InflightRow>,
                      received: seq<InboundRow>)
    {
      Session(c) == session && Subscriptions(c) == subs && Inflight(c) == messages && Inbound(c) == received
    }

    /** Nothing else is loaded for a client than from `other`. */
    predicate SameFor(other: MemoryState, c: Text) {
      Answers(c, other.Session(c), other.Subscriptions(c), other.Inflight(c), other.Inbound(c))
    }
  }

  /** A retained message is stored under its own topic. */
  ghost predicate Keyed(m: map<Text, Retained>) {
    forall t <- m :: m[t].topic == t
  }

  /** `msgs` lists the retained messages, each once, in some order. */
  ghost predicate Lists(msgs: seq<Retained>, m: map<Text, Retained>) {
    && (forall i | 0 <= i < |msgs| :: msgs[i].topic in m && m[msgs[i].topic] == msgs[i])
    && (forall i, j | 0 <= i < j < |msgs| :: msgs[i].topic != msgs[j].topic)
    && (forall t <- m :: m[t] in msgs)
  }

  class MemoryStorage {
    var sessions: map<Text, SessionRow>
    var subscriptions: map<Text, seq<SubscriptionRow>>
    var inflight: map<Text, seq<InflightRow>>
    var inboundQos2: map<Text, seq<InboundRow>>
    var retained: map<Text, Retained>

    constructor ()
      ensures State() == MemoryState(map[], map[], map[], map[]) && retained == map[]
    {
      sessions, subscriptions, inflight, inboundQos2, retained := map[], map[], map[], map[], map[];
    }

    ghost predicate Valid()
      reads this
    {
      Keyed(retained)
    }

    ghost function State(): MemoryState
      reads this
    {
      MemoryState(sessions, subscriptions, inflight, inboundQos2)
    }

    method SaveSession(session: SessionRow, subs: seq<SubscriptionRow>, messages: seq<InflightRow>,
                       received: seq<InboundRow>)
      modifies this
      ensures State() == old(State()).Save(SavedSession(session, subs, messages, received))
      ensures State().Answers(session.clientId, Some(session), subs, messages, received)
      ensures forall c | c != session.clientId :: State().SameFor(old(State()), c)
      ensures retained == old(retained)
    {
      var clientId := session.clientId;
      sessions := sessions[clientId := session];
      subscriptions := subscriptions[clientId := subs];
      inflight := inflight[clientId := messages];
      inboundQos2 := inboundQos2[clientId := received];
    }

    method LoadSession(clientId: Text) returns (r: Option<SessionRow>)
      ensures r == State().Session(clientId)
    {
      r := if clientId in sessions then Some(sessions[clientId]) else None;
    }

    method LoadSubscriptions(clientId: Text) returns (r: seq<SubscriptionRow>)
      ensures r == State().Subscriptions(clientId)
    {
      r := if clientId in subscriptions then subscriptions[clientId] else [];
    }

    method LoadInflightMessages(clientId: Text) returns (r: seq<InflightRow>)
      ensures r == State().Inflight(clientId)
    {
      r := if clientId in inflight then inflight[clientId] else [];
    }

    method LoadInboundQos2Messages(clientId: Text) returns (r: seq<InboundRow>)
      ensures r == State().Inbound(clientId)
    {
      r := if clientId in inboundQos2 then inboundQos2[clientId] else [];
    }

    method DeleteSession(clientId: Text)
      modifies this
      ensures State() == old(State()).Delete(clientId)
      ensures State().Answers(clientId, None, [], [], [])
      ensures forall c | c != clientId :: State().SameFor(old(State()), c)
      ensures retained == old(retained)
    {
      sessions := sessions - {clientId};
      subscriptions := subscriptions - {clientId};
      inflight := inflight - {clientId};
      inboundQos2 := inboundQos2 - {clientId};
    }

    method SaveRetainedMessage(msg: Retained)
      requires Valid()
      modifies this`retained
      ensures Valid()
      ensures retained == old(retained)[msg.topic := msg]
    {
      retained := retained[msg.topic := msg];
    }

    method LoadRetainedMessage(topic: Text) returns (r: Option<Retained>)
      ensures r == if topic in retained then Some(retained[topic]) else None
    {
      r := if topic in retained then Some(retained[topic]) else None;
    }

    /** The map's values, in whatever order the map yields them. */
    method LoadAllRetainedMessages() returns (msgs: seq<Retained>)
      requires Valid()
      ensures Lists(msgs, retained)
    {
      msgs := [];
      var left := retained.Keys;
      while left != {}
        invariant left <= retained.Keys
        invariant forall i | 0 <= i < |msgs| ::
                    msgs[i].topic in retained && retained[msgs[i].topic] == msgs[i] && msgs[i].topic !in left
        invariant forall i, j | 0 <= i < j < |msgs| :: msgs[i].topic != msgs[j].topic
        invariant forall t <- retained :: t in left || retained[t] in msgs
        decreases left
      {
        var t :| t in left;
        msgs := msgs + [retained[t]];
        left := left - {t};
      }
    }

    method DeleteRetainedMessage(topic: Text)
      requires Valid()
      modifies this`retained
      ensures Valid()
      ensures retained == old(retained) - {topic}
    {
      retained := retained - {topic};
    }

    method CountRetainedMessages() returns (n: nat)
      ensures n == |retained|
    {
      n := |retained|;
    }
  }
}
