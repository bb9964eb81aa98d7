/** What routing means for one mailbox. */
module RouterProofs {
  import opened Base
  import opened Packets
  import opened Topics
  import opened Routing

  /** Everything routed into a mailbox is a fresh copy: no identifier, no dup or
      retain flag, the topic and payload of the message, and a level no higher
      than the publisher's. */
  lemma {:induction false} RoutedIsFresh(visits: seq<(Text, Text)>, index: map<Text, map<Text, Subscription>>, m: Mailbox,
                                         p: PublishPacket)
    requires forall v <- visits :: v.0 in index && v.1 in index[v.0]
    ensures forall q <- Sent(visits, index, m, p) ::
              && q.Publish? && q.publish.packetId == None && !q.publish.dup && !q.publish.retain
              && q.publish.topic == p.topic && q.publish.payload == p.payload
              && QosValue(q.publish.qos) <= QosValue(p.qos)
    decreases |visits|
  {
    if visits != [] {
      RoutedIsFresh(visits[..|visits| - 1], index, m, p);
    }
  }

  /** The subscriptions of a list of visits that lead to a mailbox. */
  function LeadingTo(visits: seq<(Text, Text)>, index: map<Text, map<Text, Subscription>>, m: Mailbox): set<(Text, Text)>
    requires forall v <- visits :: v.0 in index && v.1 in index[v.0]
  {
    set v <- visits | index[v.0][v.1].sender == m
  }

  /** Those of them for which the forwarded copy is `q`. */
  function Receiving(visits: seq<(Text, Text)>, index: map<Text, map<Text, Subscription>>, m: Mailbox, p: PublishPacket,
                     q: Packet): set<(Text, Text)>
    requires forall v <- visits :: v.0 in index && v.1 in index[v.0]
  {
    set v <- visits | index[v.0][v.1].sender == m && Publish(Forward(p, index[v.0][v.1].qos)) == q
  }

  /** A mailbox gets one message for each subscription that leads to it, and the
      message for a subscription has the lower of the two levels. */
  lemma {:induction false} OnePerSubscription(visits: seq<(Text, Text)>, index: map<Text, map<Text, Subscription>>,
                                              m: Mailbox, p: PublishPacket)
    requires forall v <- visits :: v.0 in index && v.1 in index[v.0]
    requires forall i, j | 0 <= i < j < |visits| :: visits[i] != visits[j]
    ensures |Sent(visits, index, m, p)| == |LeadingTo(visits, index, m)|
    ensures forall v <- LeadingTo(visits, index, m) ::
              Publish(Forward(p, index[v.0][v.1].qos)) in Sent(visits, index, m, p)
    decreases |visits|
  {
    if visits != [] {
      var front, last := visits[..|visits| - 1], visits[|visits| - 1];
      OnePerSubscription(front, index, m, p);
      assert visits == front + [last];
      assert last !in front;
      var before := LeadingTo(front, index, m);
      if index[last.0][last.1].sender == m {
        assert LeadingTo(visits, index, m) == before + {last};
      } else {
        assert LeadingTo(visits, index, m) == before;
      }
    }
  }

  lemma ReceivingStep(visits: seq<(Text, Text)>, last: (Text, Text), index: map<Text, map<Text, Subscription>>,
                      m: Mailbox, p: PublishPacket, q: Packet)
    requires forall v <- visits + [last] :: v.0 in index && v.1 in index[v.0]
    requires last !in visits
    ensures |Receiving(visits + [last], index, m, p, q)|
         == |Receiving(visits, index, m, p, q)|
            + if index[last.0][last.1].sender == m && Publish(Forward(p, index[last.0][last.1].qos)) == q then 1 else 0
  {
    var before, after := Receiving(visits, index, m, p, q), Receiving(visits + [last], index, m, p, q);
    if index[last.0][last.1].sender == m && Publish(Forward(p, index[last.0][last.1].qos)) == q {
      assert after == before + {last};
    } else {
      assert after == before;
    }
  }

  /** Any packet arrives in a mailbox exactly as often as there are
      subscriptions that lead to it and of which it is the copy. */
  lemma {:induction false} CopiesCounted(visits: seq<(Text, Text)>, index: map<Text, map<Text, Subscription>>, m: Mailbox,
                                         p: PublishPacket, q: Packet)
    requires forall v <- visits :: v.0 in index && v.1 in index[v.0]
    requires forall i, j | 0 <= i < j < |visits| :: visits[i] != visits[j]
    ensures multiset(Sent(visits, index, m, p))[q] == |Receiving(visits, index, m, p, q)|
    decreases |visits|
  {
    if visits != [] {
      var front, last := visits[..|visits| - 1], visits[|visits| - 1];
      CopiesCounted(front, index, m, p, q);
      assert visits == front + [last];
      ReceivingStep(front, last, index, m, p, q);
      SentMore(front, last.0, last.1, index, m, p);
    }
  }

  /** The level of a forwarded message is the lower of the two levels. */
  lemma LowerLevel(a: QoS, b: QoS)
    ensures QosValue(MinQos(a, b)) <= QosValue(a) && QosValue(MinQos(a, b)) <= QosValue(b)
    ensures MinQos(a, b) == a || MinQos(a, b) == b
  {
    assert QosValue(MinQos(a, b)) == Min(Min(QosValue(a), QosValue(b)), 2);
  }

  // ---------- what a copy is, field by field ----------

  /** The lower of two levels. */
  function Lower(a: QoS, b: QoS): QoS {
    if a == AtMostOnce || b == AtMostOnce then AtMostOnce
    else if a == AtLeastOnce || b == AtLeastOnce then AtLeastOnce
    else ExactlyOnce
  }

  lemma MinIsLower(a: QoS, b: QoS)
    ensures MinQos(a, b) == Lower(a, b)
  {
    LowerLevel(a, b);
  }

  /** A copy of a message for a subscription at a level. */
  predicate IsCopy(m: Packet, p: PublishPacket, level: QoS) {
    && m.Publish?
    && m.publish.topic == p.topic && m.publish.payload == p.payload
    && m.publish.qos == Lower(p.qos, level)
    && m.publish.packetId == None && !m.publish.retain && !m.publish.dup
  }

  /** The visits that lead to a mailbox, in their order. */
  function Leading(visits: seq<(Text, Text)>, index: map<Text, map<Text, Subscription>>, m: Mailbox): seq<(Text, Text)>
    requires forall v <- visits :: v.0 in index && v.1 in index[v.0]
  {
    if visits == [] then []
    else
      var before, last := Leading(visits[..|visits| - 1], index, m), visits[|visits| - 1];
      if index[last.0][last.1].sender == m then before + [last] else before
  }

  /** What is sent to a mailbox is, visit by visit, a copy of the message at the
      lower of its level and the subscription's. */
  lemma {:induction false} SentAreCopies(visits: seq<(Text, Text)>, index: map<Text, map<Text, Subscription>>, m: Mailbox,
                                         p: PublishPacket)
    requires forall v <- visits :: v.0 in index && v.1 in index[v.0]
    ensures var to, sent := Leading(visits, index, m), Sent(visits, index, m, p);
            && |sent| == |to|
            && (forall v :: v in to <==> v in visits && index[v.0][v.1].sender == m)
            && forall i | 0 <= i < |to| :: IsCopy(sent[i], p, index[to[i].0][to[i].1].qos)
    decreases |visits|
  {
    if visits != [] {
      var front, last := visits[..|visits| - 1], visits[|visits| - 1];
      SentAreCopies(front, index, m, p);
      assert visits == front + [last];
      MinIsLower(p.qos, index[last.0][last.1].qos);
    }
  }

  // ---------- what a subscriber is granted ----------

  /** A valid filter asked for at a level is answered with the number of that level,
      and the level last asked for is the one recorded; a filter that is not valid
      is answered with 0x80, and nothing is recorded. */
  lemma GrantedIsRecorded(filters: seq<(Text, QoS)>, i: nat)
    requires i < |filters| && forall j | i < j < |filters| :: filters[j].0 != filters[i].0
    ensures var f := filters[i].0;
            if ValidFilter(f) then
              && Requested(filters, f) == Some(filters[i].1)
              && ReturnCode(f, filters[i].1) == match filters[i].1
                                                case AtMostOnce => 0
                                                case AtLeastOnce => 1
                                                case ExactlyOnce => 2
            else Requested(filters, f) == None && ReturnCode(f, filters[i].1) == 0x80
  {
    LastAskedAt(filters, i);
  }

  lemma {:induction false} LastAskedAt(filters: seq<(Text, QoS)>, i: nat)
    requires i < |filters| && forall j | i < j < |filters| :: filters[j].0 != filters[i].0
    ensures LastAsked(filters, filters[i].0) == Some(filters[i].1)
    decreases |filters|
  {
    if i < |filters| - 1 {
      LastAskedAt(filters[..|filters| - 1], i);
    }
  }

  // ---------- who is served ----------

  /** The subscriptions served are exactly those whose filter means the topic, each
      once. */
  lemma VisitsMean(router: Router, visits: seq<(Text, Text)>, topic: Text)
    requires router.Valid() && router.Visited(visits, topic, {})
    ensures forall f, s :: (f, s) in visits <==> router.Lookup(s, f).Some? && Meaning(Split(topic), Split(f))
    ensures forall i, j | 0 <= i < j < |visits| :: visits[i] != visits[j]
  {
    forall f, s
      ensures (f, s) in visits <==> router.Lookup(s, f).Some? && Meaning(Split(topic), Split(f))
    {
      if router.Indexed(f, s) {
        ValidFilterMeaning(topic, f);
      }
    }
  }
}
