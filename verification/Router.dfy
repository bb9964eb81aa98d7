/** The subscription index and the routing of published messages. */
module Routing {
  import opened Base
  import opened Packets
  import opened Topics
  import opened Storage

  const FAILURE: Byte := 0x80

  // ---------- pure parts ----------

  function QosOf(n: nat): (q: QoS)
    requires n <= 2
    ensures QosValue(q) == n
  {
    if n == 0 then AtMostOnce else if n == 1 then AtLeastOnce else ExactlyOnce
  }

  function Min(a: nat, b: nat): nat {
    if a <= b then a else b
  }

  /** The lower of two levels; the server supports them all. */
  function MinQos(a: QoS, b: QoS): QoS {
    QosOf(Min(Min(QosValue(a), QosValue(b)), 2))
  }

  /** What a subscriber gets of a published message. */
  function Forward(p: PublishPacket, subscription: QoS): PublishPacket {
    PublishPacket(p.topic, None, p.payload, MinQos(p.qos, subscription), false, false)
  }

  /** What a new subscriber gets of a retained message. */
  function RetainedPacket(m: Retained, subscription: QoS): PublishPacket {
    PublishPacket(m.topic, None, m.payload, MinQos(m.qos, subscription), true, false)
  }

  /** Effect of a publish with the retain flag on the retained messages. */
  function RetainStep(m: map<Text, Retained>, limit: nat, p: PublishPacket, now: int): map<Text, Retained> {
    if p.payload == [] then m - {p.topic}
    else if p.topic !in m && |m| >= limit then m
    else m[p.topic := Retained(p.topic, p.payload, p.qos, now)]
  }

  /** Effect of any publication on the retained messages. */
  function RetainPublished(m: map<Text, Retained>, limit: nat, p: PublishPacket, now: int): map<Text, Retained> {
    if ValidTopic(p.topic) && p.retain then RetainStep(m, limit, p, now) else m
  }

  ghost predicate DistinctTopics(ps: seq<PublishPacket>) {
    forall i, j | 0 <= i < j < |ps| :: ps[i].topic != ps[j].topic
  }

  /** `ps` is, in some order and without repetition, the retained messages the
      filter matches. */
  ghost predicate ExactlyRetained(ps: seq<PublishPacket>, m: map<Text, Retained>, filter: Text, qos: QoS) {
    && DistinctTopics(ps)
    && (forall p :: p in ps <==> p.topic in m && TopicMatches(p.topic, filter) && p == RetainedPacket(m[p.topic], qos))
  }

  /** What a SUBSCRIBE finds for one of its filters; an invalid one finds nothing. */
  ghost predicate FoundFor(ps: seq<PublishPacket>, m: map<Text, Retained>, filter: Text, qos: QoS) {
    if ValidFilter(filter) then ExactlyRetained(ps, m, filter, qos) else ps == []
  }

  /** The scan of all retained messages for one filter. */
  function Scan(msgs: seq<Retained>, filter: Text, qos: QoS): seq<PublishPacket> {
    if msgs == [] then []
    else
      var before := Scan(msgs[..|msgs| - 1], filter, qos);
      var last := msgs[|msgs| - 1];
      if TopicMatches(last.topic, filter) then before + [RetainedPacket(last, qos)] else before
  }

  lemma {:induction false} ScanMembers(msgs: seq<Retained>, filter: Text, qos: QoS)
    ensures forall p :: p in Scan(msgs, filter, qos) ==>
              exists r :: r in msgs && TopicMatches(r.topic, filter) && p == RetainedPacket(r, qos)
    ensures forall r :: r in msgs && TopicMatches(r.topic, filter) ==> RetainedPacket(r, qos) in Scan(msgs, filter, qos)
    decreases |msgs|
  {
    if msgs != [] {
      var last, front := msgs[|msgs| - 1], msgs[..|msgs| - 1];
      ScanMembers(front, filter, qos);
      assert msgs == front + [last];
      forall p | p in Scan(msgs, filter, qos)
        ensures exists r :: r in msgs && TopicMatches(r.topic, filter) && p == RetainedPacket(r, qos)
      {
        if p in Scan(front, filter, qos) {
          var r :| r in front && TopicMatches(r.topic, filter) && p == RetainedPacket(r, qos);
          assert r in msgs;
        } else {
          assert last in msgs && p == RetainedPacket(last, qos);
        }
      }
    }
  }

  lemma {:induction false} ScanDistinct(msgs: seq<Retained>, filter: Text, qos: QoS)
    requires forall i, j | 0 <= i < j < |msgs| :: msgs[i].topic != msgs[j].topic
    ensures DistinctTopics(Scan(msgs, filter, qos))
    decreases |msgs|
  {
    if msgs != [] {
      var last, front := msgs[|msgs| - 1], msgs[..|msgs| - 1];
      ScanDistinct(front, filter, qos);
      ScanMembers(front, filter, qos);
      var before := Scan(front, filter, qos);
      forall i | 0 <= i < |before|
        ensures before[i].topic != last.topic
      {
        assert before[i] in before;
        var r :| r in front && before[i] == RetainedPacket(r, qos);
        var k :| 0 <= k < |front| && front[k] == r;
        assert msgs[k].topic != last.topic;
      }
    }
  }

  /** Scanning a listing of the retained messages finds exactly the matching ones. */
  lemma ScanExact(msgs: seq<Retained>, m: map<Text, Retained>, filter: Text, qos: QoS)
    requires Keyed(m)
    requires Lists(msgs, m)
    ensures ExactlyRetained(Scan(msgs, filter, qos), m, filter, qos)
  {
    ScanMembers(msgs, filter, qos);
    ScanDistinct(msgs, filter, qos);
    forall p | p in Scan(msgs, filter, qos)
      ensures p.topic in m && TopicMatches(p.topic, filter) && p == RetainedPacket(m[p.topic], qos)
    {
      var r :| r in msgs && TopicMatches(r.topic, filter) && p == RetainedPacket(r, qos);
    }
    forall p: PublishPacket | p.topic in m && TopicMatches(p.topic, filter) && p == RetainedPacket(m[p.topic], qos)
      ensures p in Scan(msgs, filter, qos)
    {
      assert m[p.topic] in msgs;
    }
  }

  /** Looking a wildcard-free filter up by key finds what a scan would. */
  lemma ExactLookup(m: map<Text, Retained>, filter: Text, qos: QoS)
    requires Keyed(m)
    requires !HasWildcards(filter)
    ensures ExactlyRetained(if filter in m then [RetainedPacket(m[filter], qos)] else [], m, filter, qos)
  {
    forall topic
      ensures TopicMatches(topic, filter) <==> topic == filter
    {
      LiteralFilter(topic, filter);
    }
  }

  function Flatten(parts: seq<seq<PublishPacket>>): seq<PublishPacket> {
    if parts == [] then [] else Flatten(parts[..|parts| - 1]) + parts[|parts| - 1]
  }

  /** The level last asked for under a filter. */
  function LastAsked(filters: seq<(Text, QoS)>, f: Text): Option<QoS> {
    if filters == [] then None
    else
      var last := filters[|filters| - 1];
      if last.0 == f then Some(last.1) else LastAsked(filters[..|filters| - 1], f)
  }

  /** The level last asked for under a filter, if the filter is valid. */
  function Requested(filters: seq<(Text, QoS)>, f: Text): Option<QoS> {
    if ValidFilter(f) then LastAsked(filters, f) else None
  }

  lemma RequestedStep(filters: seq<(Text, QoS)>, i: nat)
    requires i < |filters|
    ensures forall f :: Requested(filters[..i + 1], f)
                     == if f == filters[i].0 && ValidFilter(f) then Some(filters[i].1) else Requested(filters[..i], f)
  {
    assert filters[..i + 1][..i] == filters[..i];
  }

  function ReturnCode(filter: Text, qos: QoS): Byte {
    if ValidFilter(filter) then QosValue(qos) else FAILURE
  }

  /** Filter by filter, the return code and the retained messages found. */
  ghost predicate Answered(codes: seq<Byte>, found: seq<seq<PublishPacket>>, m: map<Text, Retained>,
                           filters: seq<(Text, QoS)>)
  {
    && |codes| == |found| == |filters|
    && (forall i | 0 <= i < |filters| :: codes[i] == ReturnCode(filters[i].0, filters[i].1))
    && (forall i | 0 <= i < |filters| :: FoundFor(found[i], m, filters[i].0, filters[i].1))
  }

  lemma AnsweredMore(codes: seq<Byte>, found: seq<seq<PublishPacket>>, m: map<Text, Retained>,
                     filters: seq<(Text, QoS)>, i: nat, code: Byte, matched: seq<PublishPacket>)
    requires i < |filters|
    requires Answered(codes, found, m, filters[..i])
    requires code == ReturnCode(filters[i].0, filters[i].1)
    requires FoundFor(matched, m, filters[i].0, filters[i].1)
    ensures Answered(codes + [code], found + [matched], m, filters[..i + 1])
    ensures Flatten(found + [matched]) == Flatten(found) + matched
  {
    assert (found + [matched])[..i] == found;
    forall j | 0 <= j < i + 1
      ensures (codes + [code])[j] == ReturnCode(filters[j].0, filters[j].1)
      ensures FoundFor((found + [matched])[j], m, filters[j].0, filters[j].1)
    {
      if j < i {
        assert filters[..i][j] == filters[j];
      }
    }
  }

  // ---------- the router ----------

  /** The sending half of a session's message channel. */
  class Mailbox {
    var queue: seq<Packet>

    constructor ()
      ensures queue == []
    {
      queue := [];
    }
  }

  datatype Subscription = Subscription(sender: Mailbox, qos: QoS)

  /** What a run of `route` puts into mailbox `m`, when it visits the
      subscriptions `visits` in this order. */
  ghost function Sent(visits: seq<(Text, Text)>, index: map<Text, map<Text, Subscription>>, m: Mailbox,
                      p: PublishPacket): seq<Packet>
    requires forall v <- visits :: v.0 in index && v.1 in index[v.0]
  {
    if visits == [] then []
    else
      var before := Sent(visits[..|visits| - 1], index, m, p);
      var last := visits[|visits| - 1];
      var sub := index[last.0][last.1];
      if sub.sender == m then before + [Publish(Forward(p, sub.qos))] else before
  }

  lemma SentMore(visits: seq<(Text, Text)>, f: Text, s: Text, index: map<Text, map<Text, Subscription>>, m: Mailbox,
                 p: PublishPacket)
    requires forall v <- visits :: v.0 in index && v.1 in index[v.0]
    requires f in index && s in index[f]
    ensures Sent(visits + [(f, s)], index, m, p)
         == Sent(visits, index, m, p)
            + if index[f][s].sender == m then [Publish(Forward(p, index[f][s].qos))] else []
  {
    assert (visits + [(f, s)])[..|visits|] == visits;
  }

  /** Visiting the sessions under a filter, all but the remaining ones, after
      some earlier visits under other filters. */
  ghost predicate UnderWay(visits: seq<(Text, Text)>, visits': seq<(Text, Text)>, filter: Text, members: set<Text>,
                           remaining: set<Text>)
  {
    && (forall v <- visits :: v.0 != filter && v in visits')
    && (forall i, j | 0 <= i < j < |visits'| :: visits'[i] != visits'[j])
    && (forall v <- visits' :: v in visits || (v.0 == filter && v.1 in members && v.1 !in remaining))
    && (forall s <- members :: s in remaining || (filter, s) in visits')
  }

  lemma UnderWayStep(visits: seq<(Text, Text)>, visits': seq<(Text, Text)>, filter: Text, members: set<Text>,
                     remaining: set<Text>, s: Text)
    requires UnderWay(visits, visits', filter, members, remaining) && s in remaining && s in members
    ensures UnderWay(visits, visits' + [(filter, s)], filter, members, remaining - {s})
  {
    assert (filter, s) !in visits';
  }

  class Router {
    var filters: map<Text, map<Text, Subscription>>   // filter -> session -> subscription
    var sessions: map<Text, set<Text>>                // session -> filters
    const storage: MemoryStorage
    const retainedMessageLimit: nat
    ghost var routed: seq<PublishPacket>              // every packet handed to Route so far

    constructor (limit: nat, storage: MemoryStorage)
      ensures Valid() && this.storage == storage && retainedMessageLimit == limit
      ensures forall s, f :: Lookup(s, f) == None
      ensures routed == []
    {
      this.storage := storage;
      retainedMessageLimit := limit;
      filters, sessions := map[], map[];
      routed := [];
    }

    /** The two maps say the same, and only valid filters are in them. */
    ghost predicate Valid()
      reads this`filters, this`sessions
    {
      && (forall f <- filters :: ValidFilter(f))
      && (forall s, f :: Indexed(f, s) <==> Listed(s, f))
    }

    ghost predicate Indexed(f: Text, s: Text)
      reads this`filters
    {
      f in filters && s in filters[f]
    }

    ghost predicate Listed(s: Text, f: Text)
      reads this`sessions
    {
      s in sessions && f in sessions[s]
    }

    /** The relation the two maps stand for: what session `s` subscribed to
        under filter `f`. */
    ghost function Lookup(s: Text, f: Text): Option<Subscription>
      reads this`filters
    {
      if Indexed(f, s) then Some(filters[f][s]) else None
    }

    /** One session's part of the relation, as a map from filters to levels. */
    ghost function Slice(s: Text): map<Text, QoS>
      reads this`filters
    {
      map f | f in filters && s in filters[f] :: filters[f][s].qos
    }

    ghost function Senders(): set<Mailbox>
      reads this`filters
    {
      set f, s | f in filters && s in filters[f] :: filters[f][s].sender
    }

    /** Records one subscription in both maps. */
    method Index(sessionId: Text, sender: Mailbox, filter: Text, qos: QoS)
      requires Valid() && ValidFilter(filter)
      modifies this`filters, this`sessions
      ensures Valid()
      ensures forall s, f :: Lookup(s, f) == if s == sessionId && f == filter then Some(Subscription(sender, qos))
                                             else old(Lookup(s, f))
      ensures Senders() <= old(Senders()) + {sender}
    {
      var record := if filter in filters then filters[filter] else map[];
      filters := filters[filter := record[sessionId := Subscription(sender, qos)]];
      var listed := if sessionId in sessions then sessions[sessionId] else {};
      sessions := sessions[sessionId := listed + {filter}];
      forall s, f
        ensures Indexed(f, s) <==> Listed(s, f)
      {
        assert old(Indexed(f, s)) <==> old(Listed(s, f));
      }
      forall m | m in Senders()
        ensures m in old(Senders()) + {sender}
      {
        var f, s :| f in filters && s in filters[f] && filters[f][s].sender == m;
        if !(f == filter && s == sessionId) {
          assert f in old(filters) && s in old(filters)[f];
        }
      }
    }

    method ScanRetained(msgs: seq<Retained>, filter: Text, qos: QoS, toSend: seq<PublishPacket>)
      returns (toSend': seq<PublishPacket>)
      ensures toSend' == toSend + Scan(msgs, filter, qos)
    {
      toSend' := toSend;
      for i := 0 to |msgs|
        invariant toSend' == toSend + Scan(msgs[..i], filter, qos)
      {
        assert msgs[..i + 1][..i] == msgs[..i];
        if TopicMatches(msgs[i].topic, filter) {
          toSend' := toSend' + [RetainedPacket(msgs[i], qos)];
        }
      }
      assert msgs[..|msgs|] == msgs;
    }

    method FindRetainedForFilter(filter: Text, qos: QoS, toSend: seq<PublishPacket>, all: Option<seq<Retained>>)
      returns (toSend': seq<PublishPacket>, all': Option<seq<Retained>>, ghost found: seq<PublishPacket>)
      requires storage.Valid()
      requires all.Some? ==> Lists(all.value, storage.retained)
      ensures all'.Some? ==> Lists(all'.value, storage.retained)
      ensures toSend' == toSend + found
      ensures ExactlyRetained(found, storage.retained, filter, qos)
    {
      toSend', all' := toSend, all;
      if HasWildcards(filter) {
        if all'.None? {
          var msgs := storage.LoadAllRetainedMessages();
          all' := Some(msgs);
        }
        toSend' := ScanRetained(all'.value, filter, qos, toSend);
        found := Scan(all'.value, filter, qos);
        ScanExact(all'.value, storage.retained, filter, qos);
      } else {
        var retained := storage.LoadRetainedMessage(filter);
        if retained.Some? {
          toSend' := toSend' + [RetainedPacket(retained.value, qos)];
        }
        found := if filter in storage.retained then [RetainedPacket(storage.retained[filter], qos)] else [];
        ExactLookup(storage.retained, filter, qos);
      }
    }

    method SubscribeOne(sessionId: Text, sender: Mailbox, filter: Text, qos: QoS, toSend: seq<PublishPacket>,
                        all: Option<seq<Retained>>)
      returns (code: Byte, toSend': seq<PublishPacket>, all': Option<seq<Retained>>, ghost found: seq<PublishPacket>)
      requires Valid() && storage.Valid()
      requires all.Some? ==> Lists(all.value, storage.retained)
      modifies this`filters, this`sessions
      ensures Valid()
      ensures forall s, f :: Lookup(s, f) == if s == sessionId && f == filter && ValidFilter(f)
                                             then Some(Subscription(sender, qos)) else old(Lookup(s, f))
      ensures Senders() <= old(Senders()) + {sender}
      ensures all'.Some? ==> Lists(all'.value, storage.retained)
      ensures code == ReturnCode(filter, qos)
      ensures toSend' == toSend + found
      ensures FoundFor(found, storage.retained, filter, qos)
    {
      toSend', all', found := toSend, all, [];
      if !ValidFilter(filter) {
        code := FAILURE;
      } else {
        Index(sessionId, sender, filter, qos);
        code := Min(QosValue(qos), 2);
        toSend', all', found := FindRetainedForFilter(filter, qos, toSend, all);
      }
    }

    /** Subscribes to the valid filters, in order; a code for every filter, and
        for every valid one the retained messages it matches. */
    method Subscribe(sessionId: Text, sender: Mailbox, topicFilters: seq<(Text, QoS)>)
      returns (codes: seq<Byte>, toSend: seq<PublishPacket>, ghost found: seq<seq<PublishPacket>>)
      requires Valid() && storage.Valid()
      modifies this`filters, this`sessions
      ensures Valid()
      ensures forall s, f :: Lookup(s, f) ==
                if s == sessionId && Requested(topicFilters, f).Some?
                then Some(Subscription(sender, Requested(topicFilters, f).value))
                else old(Lookup(s, f))
      ensures Senders() <= old(Senders()) + {sender}
      ensures toSend == Flatten(found)
      ensures Answered(codes, found, storage.retained, topicFilters)
    {
      codes, toSend, found := [], [], [];
      var all: Option<seq<Retained>> := None;
      for i := 0 to |topicFilters|
        invariant Valid() && storage.Valid()
        invariant all.Some? ==> Lists(all.value, storage.retained)
        invariant forall s, f :: Lookup(s, f) ==
                    if s == sessionId && Requested(topicFilters[..i], f).Some?
                    then Some(Subscription(sender, Requested(topicFilters[..i], f).value))
                    else old(Lookup(s, f))
        invariant Senders() <= old(Senders()) + {sender}
        invariant toSend == Flatten(found)
        invariant Answered(codes, found, storage.retained, topicFilters[..i])
      {
        RequestedStep(topicFilters, i);
        var code;
        ghost var matched;
        code, toSend, all, matched := SubscribeOne(sessionId, sender, topicFilters[i].0, topicFilters[i].1, toSend, all);
        AnsweredMore(codes, found, storage.retained, topicFilters, i, code, matched);
        codes, found := codes + [code], found + [matched];
      }
      assert topicFilters[..|topicFilters|] == topicFilters;
    }

    /** Removes one subscription from both maps. */
    method Remove(sessionId: Text, filter: Text)
      requires Valid()
      modifies this`filters, this`sessions
      ensures Valid()
      ensures forall s, f :: Lookup(s, f) == if s == sessionId && f == filter then None else old(Lookup(s, f))
    {
      if filter in filters {
        filters := filters[filter := filters[filter] - {sessionId}];
      }
      if sessionId in sessions {
        sessions := sessions[sessionId := sessions[sessionId] - {filter}];
      }
      forall s, f
        ensures Indexed(f, s) <==> Listed(s, f)
      {
        assert old(Indexed(f, s)) <==> old(Listed(s, f));
      }
    }

    method Unsubscribe(sessionId: Text, topicFilters: seq<Text>)
      requires Valid()
      modifies this`filters, this`sessions
      ensures Valid()
      ensures forall s, f :: Lookup(s, f) == if s == sessionId && f in topicFilters then None else old(Lookup(s, f))
    {
      for i := 0 to |topicFilters|
        invariant Valid()
        invariant forall s, f :: Lookup(s, f) == if s == sessionId && f in topicFilters[..i] then None
                                                 else old(Lookup(s, f))
      {
        Remove(sessionId, topicFilters[i]);
        assert topicFilters[..i + 1] == topicFilters[..i] + [topicFilters[i]];
      }
    }

    /** Forgets one session and nothing else. */
    method UnsubscribeAll(sessionId: Text)
      requires Valid()
      modifies this`filters, this`sessions
      ensures Valid()
      ensures forall s, f :: Lookup(s, f) == if s == sessionId then None else old(Lookup(s, f))
    {
      if sessionId in sessions {
        var left := sessions[sessionId];
        forall f
          ensures (f in filters && sessionId in filters[f]) <==> f in left
        {
          assert Indexed(f, sessionId) <==> Listed(sessionId, f);
        }
        sessions := sessions - {sessionId};
        while left != {}
          invariant forall f <- filters :: ValidFilter(f)
          invariant forall f :: (f in filters && sessionId in filters[f]) <==> f in left
          invariant sessions == old(sessions) - {sessionId}
          invariant forall s, f | s != sessionId :: Indexed(f, s) <==> old(Indexed(f, s))
          invariant forall s, f | s != sessionId && Indexed(f, s) :: filters[f][s] == old(filters)[f][s]
          decreases left
        {
          var filter :| filter in left;
          if filter in filters {
            filters := filters[filter := filters[filter] - {sessionId}];
          }
          left := left - {filter};
        }
      }
      forall s, f
        ensures Indexed(f, s) <==> Listed(s, f)
      {
        assert old(Indexed(f, s)) <==> old(Listed(s, f));
      }
    }

    /** One session's slice of the relation, as a list without repetitions. */
    method GetSubscriptions(sessionId: Text) returns (result: seq<(Text, QoS)>)
      requires Valid()
      ensures forall i, j | 0 <= i < j < |result| :: result[i].0 != result[j].0
      ensures forall i | 0 <= i < |result| :: result[i].0 in Slice(sessionId) && Slice(sessionId)[result[i].0] == result[i].1
      ensures forall f <- Slice(sessionId) :: (f, Slice(sessionId)[f]) in result
    {
      result := [];
      assert forall f <- Slice(sessionId) :: Indexed(f, sessionId) && Listed(sessionId, f);
      if sessionId in sessions {
        var left := sessions[sessionId];
        while left != {}
          invariant left <= sessions[sessionId]
          invariant forall i, j | 0 <= i < j < |result| :: result[i].0 != result[j].0
          invariant forall i | 0 <= i < |result| :: result[i].0 !in left
          invariant forall i | 0 <= i < |result| ::
                      result[i].0 in Slice(sessionId) && Slice(sessionId)[result[i].0] == result[i].1
          invariant forall f <- Slice(sessionId) :: f in left || (f, Slice(sessionId)[f]) in result
          decreases left
        {
          var filter :| filter in left;
          assert Listed(sessionId, filter) && Indexed(filter, sessionId);
          if filter in filters {
            if sessionId in filters[filter] {
              result := result + [(filter, filters[filter][sessionId].qos)];
            }
          }
          left := left - {filter};
        }
      }
    }

    method HandleRetainedMessage(p: PublishPacket, now: int)
      requires storage.Valid()
      modifies storage`retained
      ensures storage.Valid()
      ensures storage.retained == RetainStep(old(storage.retained), retainedMessageLimit, p, now)
    {
      if p.payload == [] {
        storage.DeleteRetainedMessage(p.topic);
      } else {
        var existing := storage.LoadRetainedMessage(p.topic);
        var count := storage.CountRetainedMessages();
        var isNew := existing.None?;
        if !(isNew && count >= retainedMessageLimit) {
          storage.SaveRetainedMessage(Retained(p.topic, p.payload, p.qos, now));
        }
      }
    }

    /** `visits` are subscriptions under filters outside `left` that match the
        topic: each exactly once, and no other. */
    ghost predicate Visited(visits: seq<(Text, Text)>, topic: Text, left: set<Text>)
      reads this`filters
    {
      && (forall i, j | 0 <= i < j < |visits| :: visits[i] != visits[j])
      && (forall v <- visits :: Indexed(v.0, v.1) && TopicMatches(topic, v.0) && v.0 !in left)
      && (forall f, s | Indexed(f, s) && TopicMatches(topic, f) && f !in left :: (f, s) in visits)
    }

    /** Every mailbox holds what it held before and what the visits sent it. */
    ghost predicate Delivered(before: map<Mailbox, seq<Packet>>, visits: seq<(Text, Text)>, p: PublishPacket)
      requires forall v <- visits :: v.0 in filters && v.1 in filters[v.0]
      requires Senders() <= before.Keys
      reads this`filters, Senders()
    {
      forall m <- Senders() :: m.queue == before[m] + Sent(visits, filters, m, p)
    }

    method SendTo(p: PublishPacket, filter: Text, sessionId: Text, ghost visits: seq<(Text, Text)>,
                  ghost before: map<Mailbox, seq<Packet>>)
      requires filter in filters && sessionId in filters[filter]
      requires forall v <- visits :: v.0 in filters && v.1 in filters[v.0]
      requires Senders() <= before.Keys && Delivered(before, visits, p)
      modifies Senders()
      ensures Delivered(before, visits + [(filter, sessionId)], p)
    {
      var sub := filters[filter][sessionId];
      assert sub.sender in Senders();
      sub.sender.queue := sub.sender.queue + [Publish(Forward(p, sub.qos))];
      forall m | m in Senders()
        ensures m.queue == before[m] + Sent(visits + [(filter, sessionId)], filters, m, p)
      {
        SentMore(visits, filter, sessionId, filters, m, p);
      }
    }

    /** Forwards to the subscribers under one matching filter. */
    method RouteUnder(p: PublishPacket, filter: Text, ghost left: set<Text>, ghost visits: seq<(Text, Text)>,
                      ghost before: map<Mailbox, seq<Packet>>)
      returns (ghost visits': seq<(Text, Text)>)
      requires filter in filters && TopicMatches(p.topic, filter) && filter in left
      requires Visited(visits, p.topic, left)
      requires Senders() <= before.Keys && Delivered(before, visits, p)
      modifies Senders()
      ensures Visited(visits', p.topic, left - {filter})
      ensures Delivered(before, visits', p)
    {
      visits' := visits;
      var remaining := filters[filter].Keys;
      while remaining != {}
        invariant remaining <= filters[filter].Keys
        invariant UnderWay(visits, visits', filter, filters[filter].Keys, remaining)
        invariant forall v <- visits' :: v.0 in filters && v.1 in filters[v.0]
        invariant Delivered(before, visits', p)
        decreases remaining
      {
        var sessionId :| sessionId in remaining;
        SendTo(p, filter, sessionId, visits', before);
        UnderWayStep(visits, visits', filter, filters[filter].Keys, remaining, sessionId);
        visits' := visits' + [(filter, sessionId)];
        remaining := remaining - {sessionId};
      }
    }

    /** Forwards to the subscribers under every matching filter. */
    method RouteToSubscribers(p: PublishPacket) returns (ghost visits: seq<(Text, Text)>)
      modifies Senders()
      ensures Visited(visits, p.topic, {})
      ensures forall m <- Senders() :: m.queue == old(m.queue) + Sent(visits, filters, m, p)
    {
      visits := [];
      ghost var before := map m <- Senders() :: m.queue;
      var left := filters.Keys;
      while left != {}
        invariant left <= filters.Keys
        invariant Visited(visits, p.topic, left)
        invariant Delivered(before, visits, p)
        decreases left
      {
        var filter :| filter in left;
        if TopicMatches(p.topic, filter) {
          visits := RouteUnder(p, filter, left, visits, before);
        }
        left := left - {filter};
      }
    }

    /** What handing a message to the router, or handing it none, does to the
        retained messages and to every mailbox; `visits` are the subscriptions
        served. */
    twostate predicate Handed(p: Option<PublishPacket>, now: int, new visits: seq<(Text, Text)>)
      reads this, storage, Senders()
    {
      && filters == old(filters)
      && (forall v <- visits :: v.0 in filters && v.1 in filters[v.0])
      && match p
         case None =>
           visits == [] && routed == old(routed) && storage.retained == old(storage.retained)
           && forall m <- old(Senders()) :: m.queue == old(m.queue)
         case Some(p) =>
           && routed == old(routed) + [p]
           && storage.retained == RetainPublished(old(storage.retained), retainedMessageLimit, p, now)
           && (if ValidTopic(p.topic) then Visited(visits, p.topic, {}) else visits == [])
           && forall m <- old(Senders()) :: m.queue == old(m.queue) + Sent(visits, filters, m, p)
    }

    /** Every matching subscription gets the message once, at the lower of the
        two QoS levels; no other mailbox is touched. A message with an invalid
        topic goes nowhere. */
    method Route(p: PublishPacket, now: int) returns (ghost visits: seq<(Text, Text)>)
      requires storage.Valid()
      modifies storage`retained, Senders(), this`routed
      ensures storage.Valid()
      ensures Handed(Some(p), now, visits)
    {
      routed := routed + [p];
      visits := [];
      if ValidTopic(p.topic) {
        if p.retain {
          HandleRetainedMessage(p, now);
        }
        visits := RouteToSubscribers(p);
      }
    }
  }
}
