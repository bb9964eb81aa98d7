/** The retained messages as a function of what has been published. */
module RetainedProofs {
  import opened Base
  import opened Packets
  import opened Topics
  import opened Storage
  import opened Routing
  import opened RouterProofs

  /** A packet handed to the router and the time. */
  datatype Publication = Publication(p: PublishPacket, now: int)

  /** A publication that touches the retained message of a topic. */
  predicate Touches(e: Publication, topic: Text) {
    e.p.retain && e.p.topic == topic && topic != [] && NUL !in topic
  }

  function RetainedAfter(m: map<Text, Retained>, limit: nat, h: seq<Publication>): map<Text, Retained> {
    if h == [] then m
    else
      var last := h[|h| - 1];
      RetainPublished(RetainedAfter(m, limit, h[..|h| - 1]), limit, last.p, last.now)
  }

  /** The position of the last publication that touches a topic. */
  function LastTouch(h: seq<Publication>, topic: Text): (r: Option<nat>)
    ensures r.Some? ==> r.value < |h| && Touches(h[r.value], topic)
    ensures forall i | 0 <= i < |h| && Touches(h[i], topic) :: r.Some? && i <= r.value
  {
    if h == [] then None
    else if Touches(h[|h| - 1], topic) then Some(|h| - 1)
    else LastTouch(h[..|h| - 1], topic)
  }

  /** A topic no publication touched keeps what it had. For a touched one the
      last touch decides: an empty payload deletes; anything else is stored if
      the topic was there already or the limit had not been reached. */
  lemma {:induction false} LastTouchDecides(m: map<Text, Retained>, limit: nat, h: seq<Publication>, topic: Text)
    ensures var after := RetainedAfter(m, limit, h);
            match LastTouch(h, topic)
            case None => topic in after <==> topic in m
            case Some(i) =>
              topic in after <==>
                h[i].p.payload != [] && var at := RetainedAfter(m, limit, h[..i]); topic in at || |at| < limit
    ensures topic in RetainedAfter(m, limit, h) ==>
              RetainedAfter(m, limit, h)[topic] ==
                match LastTouch(h, topic)
                case None => m[topic]
                case Some(i) => Retained(topic, h[i].p.payload, h[i].p.qos, h[i].now)
    decreases |h|
  {
    if h != [] {
      var n := |h| - 1;
      LastTouchDecides(m, limit, h[..n], topic);
      var i := LastTouch(h, topic);
      if i.Some? && i.value < n {
        assert h[..n][..i.value] == h[..i.value];
      }
    }
  }

  /** What is retained for a topic is the most recent publication that touched
      it, and never an empty payload. */
  lemma RetainedIsLatest(m: map<Text, Retained>, limit: nat, h: seq<Publication>, topic: Text)
    requires topic in RetainedAfter(m, limit, h)
    requires exists i | 0 <= i < |h| :: Touches(h[i], topic)
    ensures exists i | 0 <= i < |h| ::
              && Touches(h[i], topic)
              && (forall j | i < j < |h| :: !Touches(h[j], topic))
              && h[i].p.payload != []
              && RetainedAfter(m, limit, h)[topic] == Retained(topic, h[i].p.payload, h[i].p.qos, h[i].now)
  {
    LastTouchDecides(m, limit, h, topic);
    var i := LastTouch(h, topic).value;
    assert Touches(h[i], topic);
  }

  lemma StepSize(m: map<Text, Retained>, limit: nat, p: PublishPacket, now: int)
    ensures |RetainStep(m, limit, p, now)| <= if |m| > limit then |m| else limit
    ensures RetainStep(m, limit, p, now).Keys <= m.Keys + {p.topic}
  {
    var m' := RetainStep(m, limit, p, now);
    if p.payload == [] {
      assert m'.Keys <= m.Keys;
      SubsetSize(m'.Keys, m.Keys);
    } else if p.topic in m {
      assert m'.Keys == m.Keys;
    } else if |m| < limit {
      assert m'.Keys == m.Keys + {p.topic};
    }
  }

  lemma {:induction false} SubsetSize<T>(a: set<T>, b: set<T>)
    requires a <= b
    ensures |a| <= |b|
    decreases |a|
  {
    if a != {} {
      var x :| x in a;
      SubsetSize(a - {x}, b - {x});
    }
  }

  /** The store never grows past the limit, or past what it started with. */
  lemma {:induction false} SizeBounded(m: map<Text, Retained>, limit: nat, h: seq<Publication>)
    ensures |RetainedAfter(m, limit, h)| <= if |m| > limit then |m| else limit
    decreases |h|
  {
    if h != [] {
      SizeBounded(m, limit, h[..|h| - 1]);
      var last := h[|h| - 1];
      StepSize(RetainedAfter(m, limit, h[..|h| - 1]), limit, last.p, last.now);
    }
  }

  /** At the limit an update of a retained topic is accepted, a new topic is
      not, and a deletion makes room for one. */
  lemma DeletionFreesSlot(m: map<Text, Retained>, limit: nat, gone: PublishPacket, p: PublishPacket, now: int)
    requires |m| == limit && gone.topic in m && gone.payload == [] && p.payload != []
    ensures p.topic in m ==> RetainStep(m, limit, p, now)[p.topic].payload == p.payload
    ensures p.topic !in m ==> RetainStep(m, limit, p, now) == m
    ensures p.topic in RetainStep(RetainStep(m, limit, gone, now), limit, p, now)
  {
    var m' := RetainStep(m, limit, gone, now);
    assert m.Keys == m'.Keys + {gone.topic};
  }

  function TopicsOf(h: seq<Publication>): set<Text> {
    set e <- h :: e.p.topic
  }

  lemma {:induction false} KeysBounded(m: map<Text, Retained>, limit: nat, h: seq<Publication>)
    ensures RetainedAfter(m, limit, h).Keys <= m.Keys + TopicsOf(h)
    decreases |h|
  {
    if h != [] {
      var front, last := h[..|h| - 1], h[|h| - 1];
      KeysBounded(m, limit, front);
      StepSize(RetainedAfter(m, limit, front), limit, last.p, last.now);
      assert TopicsOf(front) <= TopicsOf(h);
      assert last.p.topic in TopicsOf(h);
    }
  }

  lemma SameStep(m: map<Text, Retained>, limit: nat, more: nat, p: PublishPacket, now: int, topics: set<Text>)
    requires m.Keys <= topics && p.topic in topics && |topics| <= limit <= more
    ensures RetainStep(m, limit, p, now) == RetainStep(m, more, p, now)
  {
    if p.topic !in m {
      SubsetSize(m.Keys, topics - {p.topic});
      assert |m| == |m.Keys|;
    }
  }

  /** As long as the topics ever seen fit within the limit, it makes no
      difference: the store is the one without a limit. */
  lemma {:induction false} LimitUnnoticed(m: map<Text, Retained>, limit: nat, more: nat, h: seq<Publication>,
                                          topics: set<Text>)
    requires m.Keys + TopicsOf(h) <= topics && |topics| <= limit <= more
    ensures RetainedAfter(m, limit, h) == RetainedAfter(m, more, h)
    decreases |h|
  {
    if h != [] {
      var front, last := h[..|h| - 1], h[|h| - 1];
      assert TopicsOf(front) <= TopicsOf(h) && last.p.topic in TopicsOf(h);
      LimitUnnoticed(m, limit, more, front, topics);
      KeysBounded(m, limit, front);
      SameStep(RetainedAfter(m, limit, front), limit, more, last.p, last.now, topics);
    }
  }

  // ---------- what a new subscriber gets ----------

  /** A packet that tells a new subscriber of a retained message. */
  predicate Announces(p: PublishPacket, topic: Text, payload: seq<Byte>, stored: QoS, asked: QoS) {
    && p.topic == topic && p.payload == payload
    && p.qos == Lower(stored, asked)
    && p.packetId == None && p.retain && !p.dup
  }

  /** What is found for a filter is one packet for each matching retained topic,
      with what is stored for it. */
  lemma FoundAnnounces(ps: seq<PublishPacket>, m: map<Text, Retained>, filter: Text, asked: QoS)
    requires Keyed(m) && ExactlyRetained(ps, m, filter, asked)
    ensures forall p <- ps :: p.topic in m && TopicMatches(p.topic, filter)
                              && Announces(p, p.topic, m[p.topic].payload, m[p.topic].qos, asked)
    ensures forall topic <- m | TopicMatches(topic, filter) :: exists p :: p in ps && p.topic == topic
    ensures forall i, j | 0 <= i < j < |ps| :: ps[i].topic != ps[j].topic
  {
    forall p | p in ps
      ensures Announces(p, p.topic, m[p.topic].payload, m[p.topic].qos, asked)
    {
      MinIsLower(m[p.topic].qos, asked);
    }
    forall topic | topic in m && TopicMatches(topic, filter)
      ensures exists p :: p in ps && p.topic == topic
    {
      var p := RetainedPacket(m[topic], asked);
      assert p.topic == topic by {
        assert m[topic].topic == topic;
      }
      assert p in ps;
    }
  }

  lemma {:induction false} StaysKeyed(limit: nat, h: seq<Publication>)
    ensures Keyed(RetainedAfter(map[], limit, h))
    decreases |h|
  {
    if h != [] {
      StaysKeyed(limit, h[..|h| - 1]);
    }
  }

  /** The publication that touched a topic last. */
  ghost predicate IsLatest(h: seq<Publication>, topic: Text, i: nat) {
    i < |h| && Touches(h[i], topic) && forall j | i < j < |h| :: !Touches(h[j], topic)
  }

  /** After any history a new subscriber to a valid filter gets, for each topic that
      the filter means and that has a retained message, the payload of the most
      recent retain publication to it, which is not empty, with the retain flag, at
      the lower of the two levels; and nothing else. */
  lemma SubscriberGetsLatest(limit: nat, h: seq<Publication>, ps: seq<PublishPacket>, filter: Text, asked: QoS)
    requires ValidFilter(filter) && ExactlyRetained(ps, RetainedAfter(map[], limit, h), filter, asked)
    ensures forall p <- ps ::
              && Meaning(Split(p.topic), Split(filter))
              && exists i: nat :: IsLatest(h, p.topic, i) && h[i].p.payload != []
                                  && Announces(p, p.topic, h[i].p.payload, h[i].p.qos, asked)
    ensures forall topic <- RetainedAfter(map[], limit, h) | Meaning(Split(topic), Split(filter)) ::
              exists p :: p in ps && p.topic == topic
  {
    var m := RetainedAfter(map[], limit, h);
    StaysKeyed(limit, h);
    FoundAnnounces(ps, m, filter, asked);
    forall p | p in ps
      ensures Meaning(Split(p.topic), Split(filter))
      ensures exists i: nat :: IsLatest(h, p.topic, i) && h[i].p.payload != []
                               && Announces(p, p.topic, h[i].p.payload, h[i].p.qos, asked)
    {
      ValidFilterMeaning(p.topic, filter);
      LastTouchDecides(map[], limit, h, p.topic);
      var i := LastTouch(h, p.topic).value;
      assert IsLatest(h, p.topic, i);
    }
    forall topic | topic in m && Meaning(Split(topic), Split(filter))
      ensures exists p :: p in ps && p.topic == topic
    {
      ValidFilterMeaning(topic, filter);
    }
  }
}
