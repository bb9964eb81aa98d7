/** What a session writes to its client over whole runs: which message every
    PUBLISH carries, first transmission or not, and which PUBLISH and PUBREL
    packets the timer repeats. */
module OutboundContent {
  import opened Base
  import opened Packets
  import opened Storage
  import opened Engine
  import opened Outbound
  import opened OutboundProofs
  import opened OutboundTheorems

  /** Two packets carry one message: they may differ in identifier and dup flag
      and in nothing else. */
  predicate SameMessage(p: PublishPacket, q: PublishPacket) {
    p.topic == q.topic && p.payload == q.payload && p.qos == q.qos && p.retain == q.retain
  }

  /** The packet repeats the message numbered k. */
  predicate IsMessage(p: PublishPacket, t: Traced, start: U16, k: nat)
    requires 1 <= start
  {
    k < |t.taken| && p.packetId == Some(IdOf(start, k)) && SameMessage(p, t.taken[k])
  }

  ghost predicate RepeatsMessage(m: Packet, t: Traced, start: U16)
    requires 1 <= start
  {
    m.Publish? && (m.publish.dup ==> exists k: nat :: IsMessage(m.publish, t, start, k))
  }

  /** When the PUBREL of an entry was due: from its PUBREC on, at least the
      interval apart, once more than its counter says. */
  predicate RelsOk(x: Tagged, cfg: Config) {
    if x.e.qos2State == Some(AwaitingPubComp) then
      && x.rels != [] && x.rels[|x.rels| - 1] <= x.e.timestamp
      && Spaced(x.rels, cfg.Interval())
      && (cfg.maxRetransmissionLimit < U32_LIMIT - 1 ==> |x.rels| == 1 + x.e.retryCount)
    else x.rels == []
  }

  ghost predicate ContentOk(t: Traced, cfg: Config, start: U16)
    requires 1 <= start
  {
    && |t.taken| == t.issued
    && (forall k | 0 <= k < |t.taken| :: t.taken[k].qos != AtMostOnce && !t.taken[k].dup)
    && (forall x <- t.queue :: IsMessage(x.e.packet, t, start, x.tag) && RelsOk(x, cfg))
    && (forall m <- t.mailbox :: RepeatsMessage(m, t, start))
  }

  // ---------- every event keeps it ----------

  lemma EntryStays(x: Tagged, y: Tagged, cfg: Config, ev: Event, clock: nat)
    requires Becomes(x, y, cfg, ev, clock) && RelsOk(x, cfg) && x.e.timestamp <= clock
    requires x.e.retryCount <= cfg.maxRetransmissionLimit
    ensures y.e.packet == x.e.packet && y.tag == x.tag && RelsOk(y, cfg)
  {
    if ev.Ticks? && cfg.Interval() > 0 && x != y && x.e.qos2State == Some(AwaitingPubComp)
       && Due(x.e, cfg.Interval(), clock) {
      assert y.rels == x.rels + [clock];
    }
  }

  /** What is carried stays so as more messages are numbered. */
  lemma StaysMessage(p: PublishPacket, t: Traced, t': Traced, start: U16, k: nat)
    requires 1 <= start && IsMessage(p, t, start, k) && t.taken <= t'.taken
    ensures IsMessage(p, t', start, k)
  {
  }

  lemma StaysRepeat(m: Packet, t: Traced, t': Traced, start: U16)
    requires 1 <= start && RepeatsMessage(m, t, start) && t.taken <= t'.taken
    ensures RepeatsMessage(m, t', start)
  {
    if m.publish.dup {
      var k: nat :| IsMessage(m.publish, t, start, k);
      StaysMessage(m.publish, t, t', start, k);
    }
  }

  lemma QueueStaysOk(t: Traced, cfg: Config, start: U16, ev: Event, y: Tagged)
    requires 1 <= start && Inv(t, cfg, start) && ContentOk(t, cfg, start)
    requires y in TraceStep(t, cfg, ev).queue && y.tag in Tags(t.queue)
    ensures IsMessage(y.e.packet, TraceStep(t, cfg, ev), start, y.tag) && RelsOk(y, cfg)
  {
    var x := Predecessor(t, cfg, ev, y);
    assert EntryOk(x, cfg, start, t.clock);
    EntryStays(x, y, cfg, ev, t.clock);
    StaysMessage(x.e.packet, t, TraceStep(t, cfg, ev), start, x.tag);
  }

  lemma DeliverKeepsContent(t: Traced, cfg: Config, start: U16, ok: bool)
    requires 1 <= start && Inv(t, cfg, start) && ContentOk(t, cfg, start)
    ensures ContentOk(TraceDeliver(t, ok), cfg, start)
  {
    if t.mailbox != [] {
      var t' := TraceDeliver(t, ok);
      forall m | m in t'.mailbox
        ensures RepeatsMessage(m, t', start)
      {
        assert m in t.mailbox;
        StaysRepeat(m, t, t', start);
      }
      forall x | x in t'.queue
        ensures IsMessage(x.e.packet, t', start, x.tag) && RelsOk(x, cfg)
      {
        if x in t.queue {
          StaysMessage(x.e.packet, t, t', start, x.tag);
        }
      }
    }
  }

  lemma TickMailbox(t: Traced, cfg: Config, start: U16, m: Packet)
    requires 1 <= start && Inv(t, cfg, start) && ContentOk(t, cfg, start)
    requires m in TraceStep(t, cfg, Ticks).mailbox
    ensures RepeatsMessage(m, TraceStep(t, cfg, Ticks), start)
  {
    var t' := TraceStep(t, cfg, Ticks);
    if m in t.mailbox {
      StaysRepeat(m, t, t', start);
    } else {
      var q := Entries(t.queue);
      var ps := TickOf(q, cfg, t.clock).publishes;
      var i :| 0 <= i < |ps| && m == Publish(ps[i]);
      BatchInOrder(q, cfg.Interval(), cfg.maxRetransmissionLimit, t.clock);
      var at := Republished(q, cfg.Interval(), cfg.maxRetransmissionLimit, t.clock);
      var x := t.queue[at[i]];
      assert ps[i] == q[at[i]].packet == x.e.packet && x in t.queue;
      StaysMessage(x.e.packet, t, t', start, x.tag);
    }
  }

  lemma StepKeepsContent(t: Traced, cfg: Config, start: U16, ev: Event)
    requires 1 <= start && Inv(t, cfg, start) && ContentOk(t, cfg, start)
    ensures ContentOk(TraceStep(t, cfg, ev), cfg, start)
  {
    if ev.Delivers? {
      DeliverKeepsContent(t, cfg, start, ev.ok);
    } else {
      var t' := TraceStep(t, cfg, ev);
      StepKeeps(t, cfg, start, ev);
      forall y | y in t'.queue
        ensures IsMessage(y.e.packet, t', start, y.tag) && RelsOk(y, cfg)
      {
        StillQueued(t, cfg, start, ev, y);
        QueueStaysOk(t, cfg, start, ev, y);
      }
      forall m | m in t'.mailbox
        ensures RepeatsMessage(m, t', start)
      {
        if ev.Ticks? {
          TickMailbox(t, cfg, start, m);
        } else if m in t.mailbox {
          StaysRepeat(m, t, t', start);
        }
      }
    }
  }

  lemma StillQueued(t: Traced, cfg: Config, start: U16, ev: Event, y: Tagged)
    requires 1 <= start && Inv(t, cfg, start) && !ev.Delivers?
    requires y in TraceStep(t, cfg, ev).queue
    ensures y.tag in Tags(t.queue)
  {
    StepKeeps(t, cfg, start, ev);
    var t' := TraceStep(t, cfg, ev);
    assert y.tag in Tags(t'.queue) && y.tag < t'.issued == t.issued;
    if y.tag in t.gone {
      StepGone(t, cfg, start, ev, y.tag);
    }
  }

  lemma {:induction false} RunFromKeepsContent(t: Traced, cfg: Config, start: U16, evs: seq<Event>)
    requires 1 <= start && Inv(t, cfg, start) && ContentOk(t, cfg, start)
    ensures ContentOk(RunFrom(t, cfg, evs), cfg, start)
    decreases |evs|
  {
    if evs != [] {
      StepKeeps(t, cfg, start, evs[0]);
      StepKeepsContent(t, cfg, start, evs[0]);
      RunFromKeepsContent(TraceStep(t, cfg, evs[0]), cfg, start, evs[1..]);
    }
  }

  lemma RunKeepsContent(cfg: Config, start: U16, evs: seq<Event>)
    requires 1 <= start
    ensures ContentOk(Run(cfg, start, evs), cfg, start)
  {
    NextIdOf(start, 0);
    RunFromKeepsContent(Start(start), cfg, start, evs);
  }

  // ---------- what is written ----------

  /** Every PUBLISH kept for retransmission or waiting to be repeated carries the
      message of its number, with the dup flag and its identifier. */
  lemma KeptIsMessage(cfg: Config, start: U16, evs: seq<Event>)
    requires 1 <= start
    ensures var t := Run(cfg, start, evs);
            && (forall x <- t.queue :: IsMessage(x.e.packet, t, start, x.tag) && x.e.packet.dup)
            && (forall m <- t.mailbox :: m.Publish?
                  && (m.publish.dup ==> exists k: nat :: IsMessage(m.publish, t, start, k)))
  {
    var t := Run(cfg, start, evs);
    RunKeeps(cfg, start, evs);
    RunKeepsContent(cfg, start, evs);
    assert forall x <- t.queue :: EntryOk(x, cfg, start, t.clock);
    assert forall m <- t.mailbox :: RepeatsMessage(m, t, start);
  }

  /** After any run, only handling the mailbox writes a PUBLISH, and what it writes
      is the head of the mailbox: at QoS 0 as it stands, at QoS 1 and 2 either for
      the first time, with the next identifier and a new number, or again, as the
      message of an old one. */
  lemma WrittenIsMessage(cfg: Config, start: U16, evs: seq<Event>, ev: Event, p: PublishPacket)
    requires 1 <= start && Publish(p) in Written(Erase(Run(cfg, start, evs)), cfg, ev)
    ensures var t := Run(cfg, start, evs);
            var t' := TraceStep(t, cfg, ev);
            && ev == Delivers(true) && t.mailbox != [] && t.mailbox[0].Publish?
            && Written(Erase(t), cfg, ev) == [Publish(p)]
            && SameMessage(p, t.mailbox[0].publish)
            && (p.qos == AtMostOnce && !p.dup ==> p == t.mailbox[0].publish && t'.taken == t.taken)
            && (p.qos != AtMostOnce && !p.dup ==>
                  t'.taken == t.taken + [t.mailbox[0].publish] && IsMessage(p, t', start, t.issued))
            && (p.dup ==> p == t.mailbox[0].publish && t'.taken == t.taken && exists k: nat :: IsMessage(p, t, start, k))
  {
    var t := Run(cfg, start, evs);
    RunKeeps(cfg, start, evs);
    RunKeepsContent(cfg, start, evs);
    assert t.mailbox != [] ==> RepeatsMessage(t.mailbox[0], t, start);
  }

  /** The head of the mailbox is always written if it can be. */
  lemma HeadIsWritten(cfg: Config, start: U16, evs: seq<Event>)
    requires 1 <= start && Run(cfg, start, evs).mailbox != []
    ensures exists p :: Written(Erase(Run(cfg, start, evs)), cfg, Delivers(true)) == [Publish(p)]
  {
    var t := Run(cfg, start, evs);
    RunKeeps(cfg, start, evs);
    var m := t.mailbox[0];
    assert MessageOk(m, start, t.issued);
    var w := MessageWrites(Erase(t).core, m).value;
    assert Written(Erase(t), cfg, Delivers(true)) == [Publish(w.publish)];
  }

  // ---------- the timer ----------

  /** The timer is on and the entry has waited at least 500 ms and the configured
      interval. */
  predicate HasWaited(e: Entry, cfg: Config, clock: nat) {
    cfg.retransmissionIntervalMs > 0 && clock >= e.timestamp + 500 && clock >= e.timestamp + cfg.retransmissionIntervalMs
  }

  /** Another retry stays within the limit, or the counter wraps. */
  predicate HasRetryLeft(e: Entry, cfg: Config) {
    cfg.maxRetransmissionLimit == U32_LIMIT - 1 || e.retryCount < cfg.maxRetransmissionLimit
  }

  /** The entries whose PUBLISH, or whose PUBREL, a tick repeats. */
  predicate PublishIsRepeated(e: Entry, cfg: Config, clock: nat) {
    HasWaited(e, cfg, clock) && HasRetryLeft(e, cfg) && e.qos2State != Some(AwaitingPubComp)
  }

  predicate PubRelIsRepeated(e: Entry, cfg: Config, clock: nat) {
    HasWaited(e, cfg, clock) && HasRetryLeft(e, cfg) && e.qos2State == Some(AwaitingPubComp)
  }

  /** Increasing positions in the queue of exactly the entries with a property. */
  predicate Exactly(at: seq<nat>, q: seq<Tagged>, f: Entry -> bool) {
    && (forall i, j | 0 <= i < j < |at| :: at[i] < at[j])
    && (forall i | 0 <= i < |at| :: at[i] < |q| && f(q[at[i]].e))
    && (forall k | 0 <= k < |q| && f(q[k].e) :: k in at)
  }

  function RepeatsRel(interval: nat, limit: U32, now: nat): Entry -> bool {
    (e: Entry) => Due(e, interval, now) && !Expires(e, interval, limit, now)
                  && e.qos2State == Some(AwaitingPubComp) && e.packet.packetId.Some?
  }

  /** A batch of repeated PUBRELs has, in the order in which the messages were
      first sent, the identifiers of exactly the due entries that do not expire,
      wait for PUBCOMP and have one. */
  lemma {:induction false} RelsInOrder(q: seq<Entry>, interval: nat, limit: U32, now: nat)
    ensures var ids, at := OnTick(q, interval, limit, now).pubrels, Where(q, RepeatsRel(interval, limit, now));
            |at| == |ids| && forall i | 0 <= i < |at| :: at[i] < |q| && q[at[i]].packet.packetId == Some(ids[i])
    decreases |q|
  {
    if q != [] {
      RelsInOrder(q[..|q| - 1], interval, limit, now);
    }
  }

  lemma TimerMeans(e: Entry, cfg: Config, clock: nat)
    requires e.retryCount <= cfg.maxRetransmissionLimit && e.timestamp <= clock && cfg.Interval() > 0
    ensures Due(e, cfg.Interval(), clock) <==> HasWaited(e, cfg, clock)
    ensures Due(e, cfg.Interval(), clock) ==>
              (!Expires(e, cfg.Interval(), cfg.maxRetransmissionLimit, clock) <==> HasRetryLeft(e, cfg))
  {
  }

  lemma QueueTimer(t: Traced, cfg: Config, start: U16)
    requires 1 <= start && Inv(t, cfg, start) && cfg.Interval() > 0
    ensures forall k | 0 <= k < |t.queue| ::
              var e, limit := t.queue[k].e, cfg.maxRetransmissionLimit;
              && (Republishes(cfg.Interval(), limit, t.clock)(e) <==> PublishIsRepeated(e, cfg, t.clock))
              && (RepeatsRel(cfg.Interval(), limit, t.clock)(e) <==> PubRelIsRepeated(e, cfg, t.clock))
  {
    forall k | 0 <= k < |t.queue|
      ensures var e, limit := t.queue[k].e, cfg.maxRetransmissionLimit;
              && (Republishes(cfg.Interval(), limit, t.clock)(e) <==> PublishIsRepeated(e, cfg, t.clock))
              && (RepeatsRel(cfg.Interval(), limit, t.clock)(e) <==> PubRelIsRepeated(e, cfg, t.clock))
    {
      assert EntryOk(t.queue[k], cfg, start, t.clock);
      TimerMeans(t.queue[k].e, cfg, t.clock);
    }
  }

  /** The positions that a tick picks from the queue, read in the source's terms. */
  lemma PicksExactly(t: Traced, f: Entry -> bool, g: Entry -> bool)
    requires forall k | 0 <= k < |t.queue| :: f(t.queue[k].e) <==> g(t.queue[k].e)
    ensures Exactly(Where(Entries(t.queue), f), t.queue, g)
  {
    var at := Where(Entries(t.queue), f);
    WhereAt(Entries(t.queue), f);
    assert forall i | 0 <= i < |at| :: at[i] in at;
    assert forall k | 0 <= k < |t.queue| :: Entries(t.queue)[k] == t.queue[k].e;
  }

  lemma PubRelsFrom(t: Traced, cfg: Config, start: U16) returns (at: seq<nat>)
    requires 1 <= start && Inv(t, cfg, start) && cfg.Interval() > 0
    ensures var ids := OnTick(Entries(t.queue), cfg.Interval(), cfg.maxRetransmissionLimit, t.clock).pubrels;
            && Exactly(at, t.queue, (e: Entry) => PubRelIsRepeated(e, cfg, t.clock))
            && |ids| == |at| && forall i | 0 <= i < |at| :: ids[i] == IdOf(start, t.queue[at[i]].tag)
  {
    var q, f := Entries(t.queue), RepeatsRel(cfg.Interval(), cfg.maxRetransmissionLimit, t.clock);
    QueueTimer(t, cfg, start);
    at := Where(q, f);
    PicksExactly(t, f, (e: Entry) => PubRelIsRepeated(e, cfg, t.clock));
    RelsInOrder(q, cfg.Interval(), cfg.maxRetransmissionLimit, t.clock);
    QueueInOrder(t, cfg, start);
  }

  /** After any run a tick writes one PUBREL for each message in flight that has
      waited long enough, has a retry left and waits for PUBCOMP, in the order in
      which they were first sent, with their identifiers; and nothing else. */
  lemma TickWritesPubRels(cfg: Config, start: U16, evs: seq<Event>) returns (at: seq<nat>)
    requires 1 <= start
    ensures var t := Run(cfg, start, evs);
            var w := Written(Erase(t), cfg, Ticks);
            && Exactly(at, t.queue, (e: Entry) => PubRelIsRepeated(e, cfg, t.clock))
            && |w| == |at| && forall i | 0 <= i < |at| :: w[i] == PubRel(IdOf(start, t.queue[at[i]].tag))
  {
    var t := Run(cfg, start, evs);
    if cfg.Interval() == 0 {
      at := [];
    } else {
      RunKeeps(cfg, start, evs);
      at := PubRelsFrom(t, cfg, start);
    }
  }

  lemma PublishesFrom(t: Traced, cfg: Config, start: U16) returns (at: seq<nat>)
    requires 1 <= start && Inv(t, cfg, start) && cfg.Interval() > 0
    ensures var ps := OnTick(Entries(t.queue), cfg.Interval(), cfg.maxRetransmissionLimit, t.clock).publishes;
            && Exactly(at, t.queue, (e: Entry) => PublishIsRepeated(e, cfg, t.clock))
            && |ps| == |at| && forall i | 0 <= i < |at| :: ps[i] == t.queue[at[i]].e.packet
  {
    var q, f := Entries(t.queue), Republishes(cfg.Interval(), cfg.maxRetransmissionLimit, t.clock);
    QueueTimer(t, cfg, start);
    at := Where(q, f);
    PicksExactly(t, f, (e: Entry) => PublishIsRepeated(e, cfg, t.clock));
    RepublishedPackets(q, cfg.Interval(), cfg.maxRetransmissionLimit, t.clock);
  }

  lemma TickAppends(t: Traced, cfg: Config)
    requires cfg.Interval() > 0
    ensures TraceStep(t, cfg, Ticks).mailbox
         == t.mailbox + AsMessages(OnTick(Entries(t.queue), cfg.Interval(), cfg.maxRetransmissionLimit, t.clock).publishes)
  {
  }

  /** A dup PUBLISH with the message numbered k. */
  predicate CarriesEntry(m: Packet, t: Traced, start: U16, k: nat)
    requires 1 <= start
  {
    m.Publish? && m.publish.dup && IsMessage(m.publish, t, start, k)
  }

  /** And it puts one PUBLISH into the mailbox for each that waits for PUBACK or
      PUBREC, with the message of its number; and nothing else. */
  lemma TickRepublishes(cfg: Config, start: U16, evs: seq<Event>) returns (at: seq<nat>)
    requires 1 <= start
    ensures var t := Run(cfg, start, evs);
            var more := TraceStep(t, cfg, Ticks).mailbox;
            && Exactly(at, t.queue, (e: Entry) => PublishIsRepeated(e, cfg, t.clock))
            && |more| == |t.mailbox| + |at| && more[..|t.mailbox|] == t.mailbox
            && forall i | 0 <= i < |at| :: CarriesEntry(more[|t.mailbox| + i], t, start, t.queue[at[i]].tag)
  {
    var t := Run(cfg, start, evs);
    if cfg.Interval() == 0 {
      at := [];
    } else {
      RunKeeps(cfg, start, evs);
      at := PublishesFrom(t, cfg, start);
      var ps := OnTick(Entries(t.queue), cfg.Interval(), cfg.maxRetransmissionLimit, t.clock).publishes;
      KeptIsMessage(cfg, start, evs);
      forall i | 0 <= i < |at|
        ensures CarriesEntry(Publish(ps[i]), t, start, t.queue[at[i]].tag)
      {
        assert t.queue[at[i]] in t.queue;
      }
      TickAppends(t, cfg);
    }
  }

  /** The PUBREL of a message, written at the PUBREC or repeated by the timer, is
      due at times at least 500 ms and the configured interval apart. */
  lemma PubRelsSpaced(cfg: Config, start: U16, evs: seq<Event>, x: Tagged)
    requires 1 <= start && cfg.retransmissionIntervalMs > 0 && x in Run(cfg, start, evs).queue
    ensures x.e.qos2State == Some(AwaitingPubComp) <==> x.rels != []
    ensures forall i, j | 0 <= i < j < |x.rels| ::
              x.rels[j] >= x.rels[i] + 500 && x.rels[j] >= x.rels[i] + cfg.retransmissionIntervalMs
  {
    RunKeepsContent(cfg, start, evs);
    assert RelsOk(x, cfg);
    forall i, j | 0 <= i < j < |x.rels|
      ensures x.rels[j] >= x.rels[i] + cfg.Interval()
    {
      SpacedApart(x.rels, cfg.Interval(), i, j);
    }
  }

  /** A tick that repeats the PUBREL of a message comes at least 500 ms and the
      configured interval after its PUBREC and after the last repetition. */
  lemma PubRelNotHurried(cfg: Config, start: U16, evs: seq<Event>, x: Tagged)
    requires 1 <= start && x in Run(cfg, start, evs).queue
    requires PubRelIsRepeated(x.e, cfg, Run(cfg, start, evs).clock)
    ensures var now := Run(cfg, start, evs).clock;
            && x.rels != []
            && forall i | 0 <= i < |x.rels| :: now >= x.rels[i] + 500 && now >= x.rels[i] + cfg.retransmissionIntervalMs
  {
    RunKeepsContent(cfg, start, evs);
    assert RelsOk(x, cfg);
    forall i | 0 <= i < |x.rels| - 1
      ensures x.rels[i] <= x.rels[|x.rels| - 1]
    {
      SpacedApart(x.rels, cfg.Interval(), i, |x.rels| - 1);
    }
  }
}
