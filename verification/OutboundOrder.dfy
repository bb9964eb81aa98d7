/** Section 4.3.3 of MQTT 3.1.1 asks a sender not to send a PUBLISH again once
    it has sent the PUBREL for it. The session answers a PUBREC with the PUBREL
    at once, while retransmitted PUBLISH packets wait their turn in the mailbox;
    so the rule is kept exactly when no retransmission of the message is waiting
    at that moment. */
module OutboundOrder {
  import opened Base
  import opened Packets
  import opened Storage
  import opened Engine
  import opened Persistence
  import opened Outbound
  import opened OutboundProofs
  import opened OutboundTheorems

  /** A retransmission of a PUBLISH with this identifier. */
  predicate Repeats(m: Packet, id: U16) {
    m.Publish? && m.publish.dup && m.publish.packetId == Some(id)
  }

  /** The PUBREC for the message numbered k has been taken in; the PUBREL is what
      the session writes next. */
  ghost predicate PubRecTaken(t: Traced, k: nat) {
    k in Tags(t.queue) && Find(t.queue, k).e.qos2State == Some(AwaitingPubComp)
  }

  /** No retransmission of message k is waiting in the mailbox. */
  ghost predicate Quiet(t: Traced, start: U16, k: nat)
    requires 1 <= start
  {
    forall m <- t.mailbox :: !Repeats(m, IdOf(start, k))
  }

  /** At most 65535 identifiers have been allocated since the oldest message in
      flight. */
  predicate InWindow(t: Traced) {
    t.queue != [] ==> t.issued - t.queue[0].tag <= 65535
  }

  lemma OnlyOneHasId(t: Traced, cfg: Config, start: U16, x: Tagged, y: Tagged)
    requires 1 <= start && Inv(t, cfg, start) && InWindow(t)
    requires x in t.queue && y in t.queue && x.tag != y.tag
    ensures IdOf(start, x.tag) != IdOf(start, y.tag)
  {
    QueueInOrder(t, cfg, start);
    var i :| 0 <= i < |t.queue| && t.queue[i] == x;
    var j :| 0 <= j < |t.queue| && t.queue[j] == y;
    assert t.queue[0].tag <= x.tag && t.queue[0].tag <= y.tag;
    if x.tag < y.tag {
      NearIdsDiffer(start, x.tag, y.tag);
    } else {
      NearIdsDiffer(start, y.tag, x.tag);
    }
  }

  lemma PhaseStays(t: Traced, cfg: Config, start: U16, ev: Event, k: nat)
    requires 1 <= start && Inv(t, cfg, start)
    requires PubRecTaken(t, k) && k in Tags(TraceStep(t, cfg, ev).queue)
    ensures PubRecTaken(TraceStep(t, cfg, ev), k)
  {
    Before(t, cfg, start, ev, k);
  }

  /** The timer puts up no PUBLISH of a message whose PUBREC has been taken in. */
  lemma TickStaysQuiet(t: Traced, cfg: Config, start: U16, k: nat)
    requires 1 <= start && Inv(t, cfg, start) && InWindow(t)
    requires PubRecTaken(t, k) && Quiet(t, start, k) && cfg.Interval() > 0
    ensures Quiet(TraceStep(t, cfg, Ticks), start, k)
  {
    var q, interval, limit := Entries(t.queue), cfg.Interval(), cfg.maxRetransmissionLimit;
    var ps := OnTick(q, interval, limit, t.clock).publishes;
    BatchInOrder(q, interval, limit, t.clock);
    var at := Republished(q, interval, limit, t.clock);
    forall m | m in AsMessages(ps)
      ensures !Repeats(m, IdOf(start, k))
    {
      var i :| 0 <= i < |ps| && m == Publish(ps[i]);
      assert at[i] in at;
      var x := t.queue[at[i]];
      assert ps[i] == q[at[i]].packet == x.e.packet && x.e.qos2State != Some(AwaitingPubComp);
      assert EntryOk(x, cfg, start, t.clock);
      FindUnique(t.queue, x);
      OnlyOneHasId(t, cfg, start, x, Find(t.queue, k));
    }
  }

  lemma StepStaysQuiet(t: Traced, cfg: Config, start: U16, ev: Event, k: nat)
    requires 1 <= start && Inv(t, cfg, start) && InWindow(t)
    requires PubRecTaken(t, k) && Quiet(t, start, k)
    ensures Quiet(TraceStep(t, cfg, ev), start, k)
  {
    if ev.Ticks? && cfg.Interval() > 0 {
      TickStaysQuiet(t, cfg, start, k);
    }
  }

  predicate AlwaysInWindow(t: Traced, cfg: Config, evs: seq<Event>)
    decreases |evs|
  {
    InWindow(t) && (evs != [] ==> AlwaysInWindow(TraceStep(t, cfg, evs[0]), cfg, evs[1..]))
  }

  /** If nothing of a message is waiting when its PUBREC has been taken in, nothing
      of it will be: the rule is kept from then on. */
  lemma {:induction false} QuietForGood(t: Traced, cfg: Config, start: U16, evs: seq<Event>, k: nat)
    requires 1 <= start && Inv(t, cfg, start) && AlwaysInWindow(t, cfg, evs)
    requires PubRecTaken(t, k) && Quiet(t, start, k)
    requires k in Tags(RunFrom(t, cfg, evs).queue)
    ensures PubRecTaken(RunFrom(t, cfg, evs), k) && Quiet(RunFrom(t, cfg, evs), start, k)
    decreases |evs|
  {
    if evs != [] {
      var t' := TraceStep(t, cfg, evs[0]);
      StepKeeps(t, cfg, start, evs[0]);
      StepStaysQuiet(t, cfg, start, evs[0], k);
      StillThere(t, cfg, start, evs, k);
      PhaseStays(t, cfg, start, evs[0], k);
      QuietForGood(t', cfg, start, evs[1..], k);
    }
  }

  /** What is in flight before and after a run was in flight all along. */
  lemma StillThere(t: Traced, cfg: Config, start: U16, evs: seq<Event>, k: nat)
    requires 1 <= start && Inv(t, cfg, start) && evs != []
    requires k in Tags(t.queue) && k in Tags(RunFrom(t, cfg, evs).queue)
    ensures k in Tags(TraceStep(t, cfg, evs[0]).queue)
  {
    var t' := TraceStep(t, cfg, evs[0]);
    StepKeeps(t, cfg, start, evs[0]);
    IssuedGrows(t, cfg, evs[0]);
    if k !in Tags(t'.queue) {
      FateIsFinal(t', cfg, start, evs[1..], k);
    }
  }

  function Deliveries(n: nat): seq<Event> {
    if n == 0 then [] else [Delivers(true)] + Deliveries(n - 1)
  }

  /** Delivering leaves what is in flight alone and works off the mailbox. */
  lemma {:induction false} DeliveriesDrain(t: Traced, cfg: Config, n: nat)
    requires n <= |t.mailbox|
    ensures RunFrom(t, cfg, Deliveries(n)).mailbox == t.mailbox[n..]
    ensures t.queue <= RunFrom(t, cfg, Deliveries(n)).queue
    decreases n
  {
    if n > 0 {
      assert Deliveries(n)[1..] == Deliveries(n - 1);
      var t' := TraceStep(t, cfg, Delivers(true));
      DeliveriesDrain(t', cfg, n - 1);
      assert t'.mailbox[n - 1..] == t.mailbox[n..];
    }
  }

  /** If a retransmission is waiting when the PUBREC has been taken in, working
      off the mailbox brings it to the head, to be written after the PUBREL. */
  lemma WaitingIsSent(t: Traced, cfg: Config, start: U16, k: nat, i: nat)
    requires 1 <= start && Inv(t, cfg, start)
    requires PubRecTaken(t, k) && i < |t.mailbox| && Repeats(t.mailbox[i], IdOf(start, k))
    ensures var t' := RunFrom(t, cfg, Deliveries(i));
            && PubRecTaken(t', k)
            && t'.mailbox != [] && Repeats(t'.mailbox[0], IdOf(start, k))
            && MessageWrites(Erase(t').core, t'.mailbox[0]) == Some(t.mailbox[i])
  {
    var t' := RunFrom(t, cfg, Deliveries(i));
    DeliveriesDrain(t, cfg, i);
    RunFromKeeps(t, cfg, start, Deliveries(i));
    var x := Find(t.queue, k);
    var j :| 0 <= j < |t.queue| && t.queue[j] == x;
    assert t'.queue[j] == x;
    FindUnique(t'.queue, x);
  }

  const EVERY_500_MS := Config(500, 3)

  function Example(): PublishPacket {
    PublishPacket([97], None, [], ExactlyOnce, false, false)
  }

  /** A message arrives, is sent, and waits. */
  lemma SentAndTimedOut()
    ensures var t := TraceStep(TraceStep(TraceStep(Start(1), EVERY_500_MS, Arrives(Example())), EVERY_500_MS,
                                         Delivers(true)), EVERY_500_MS, Waits(500));
            && t.queue == [Tagged(Tracked(Example(), 1, 0), 0, [0], [])] && t.mailbox == [] && t.clock == 500
  {
    var t1 := TraceStep(Start(1), EVERY_500_MS, Arrives(Example()));
    assert t1.mailbox == [Publish(Example())] && t1.queue == [];
    var t2 := TraceStep(t1, EVERY_500_MS, Delivers(true));
    assert t2.mailbox == [];
  }

  lemma TickedOnce(t: Traced, e: Entry)
    requires t.clock == 500 && t.mailbox == [] && t.queue == [Tagged(e, 0, [0], [])]
    requires e.timestamp == 0 && e.retryCount == 0 && e.qos2State == Some(AwaitingPubRec)
    ensures TraceStep(t, EVERY_500_MS, Ticks).queue == [Tagged(Retried(e, 500), 0, [0, 500], [])]
    ensures TraceStep(t, EVERY_500_MS, Ticks).mailbox == [Publish(e.packet)]
  {
    var f := OnTimer(500, 3, 500);
    var x := t.queue[0];
    assert [0] + [500] == [0, 500];
    assert f(x) == Stays(Tagged(Retried(e, 500), 0, [0, 500], []));
    assert t.queue[..0] == [] && Survivors(t.queue, f) == [f(x).x];
    assert Entries(t.queue) == [e] && [e][..0] == [];
    assert OnTick([e], 500, 3, 500).publishes == [e.packet];
  }

  lemma ReceivedTooLate(t: Traced, e: Entry)
    requires t.queue == [Tagged(e, 0, [0, 500], [])] && t.mailbox == [Publish(e.packet)]
    requires e.packet.dup && e.packet.packetId == Some(1) && e.qos2State == Some(AwaitingPubRec)
    ensures var t' := TraceStep(t, EVERY_500_MS, ReceivedBy(1, true));
            PubRecTaken(t', 0) && t'.mailbox != [] && Repeats(t'.mailbox[0], IdOf(1, 0))
  {
    var t' := TraceStep(t, EVERY_500_MS, ReceivedBy(1, true));
    var x := Tagged(Received(e, t.clock), 0, [0, 500], [t.clock]);
    assert t'.queue == [x];
    FindUnique(t'.queue, x);
  }

  lemma FiveEvents(t: Traced, cfg: Config, a: Event, b: Event, c: Event, d: Event, e: Event)
    ensures RunFrom(t, cfg, [a, b, c, d, e])
         == TraceStep(TraceStep(TraceStep(TraceStep(TraceStep(t, cfg, a), cfg, b), cfg, c), cfg, d), cfg, e)
  {
    assert [a, b, c, d, e][1..] == [b, c, d, e] && [b, c, d, e][1..] == [c, d, e];
    assert [c, d, e][1..] == [d, e] && [d, e][1..] == [e] && [e][1..] == [];
    var t2 := TraceStep(TraceStep(t, cfg, a), cfg, b);
    assert RunFrom(t, cfg, [a, b, c, d, e]) == RunFrom(t2, cfg, [c, d, e]);
    var t4 := TraceStep(TraceStep(t2, cfg, c), cfg, d);
    assert RunFrom(t2, cfg, [c, d, e]) == RunFrom(t4, cfg, [e]);
    assert RunFrom(t4, cfg, [e]) == RunFrom(TraceStep(t4, cfg, e), cfg, []);
  }

  /** A run that breaks the rule: a message times out once, and its PUBREC
      arrives before the retransmission is written. So the PUBREL goes out first
      and the PUBLISH after it. */
  lemma RuleCanBeBroken()
    ensures var before := Run(EVERY_500_MS, 1, [Arrives(Example()), Delivers(true), Waits(500), Ticks]);
            var t := TraceStep(before, EVERY_500_MS, ReceivedBy(1, true));
            && t == Run(EVERY_500_MS, 1, [Arrives(Example()), Delivers(true), Waits(500), Ticks, ReceivedBy(1, true)])
            && Written(Erase(before), EVERY_500_MS, ReceivedBy(1, true)) == [PubRel(1)]
            && PubRecTaken(t, 0) && t.mailbox != [] && Repeats(t.mailbox[0], IdOf(1, 0))
            && Written(Erase(t), EVERY_500_MS, Delivers(true)) == [t.mailbox[0]]
  {
    FiveEvents(Start(1), EVERY_500_MS, Arrives(Example()), Delivers(true), Waits(500), Ticks, ReceivedBy(1, true));
    FourEvents(Start(1), EVERY_500_MS, Arrives(Example()), Delivers(true), Waits(500), Ticks);
    SentAndTimedOut();
    var t := TraceStep(TraceStep(TraceStep(Start(1), EVERY_500_MS, Arrives(Example())), EVERY_500_MS,
                                 Delivers(true)), EVERY_500_MS, Waits(500));
    TickedOnce(t, Tracked(Example(), 1, 0));
    ReceivedTooLate(TraceStep(t, EVERY_500_MS, Ticks), Retried(Tracked(Example(), 1, 0), 500));
  }

  lemma FourEvents(t: Traced, cfg: Config, a: Event, b: Event, c: Event, d: Event)
    ensures RunFrom(t, cfg, [a, b, c, d]) == TraceStep(TraceStep(TraceStep(TraceStep(t, cfg, a), cfg, b), cfg, c), cfg, d)
  {
    assert [a, b, c, d][1..] == [b, c, d] && [b, c, d][1..] == [c, d] && [c, d][1..] == [d] && [d][1..] == [];
    var t2 := TraceStep(TraceStep(t, cfg, a), cfg, b);
    assert RunFrom(t, cfg, [a, b, c, d]) == RunFrom(t2, cfg, [c, d]);
    assert RunFrom(t2, cfg, [c, d]) == RunFrom(TraceStep(TraceStep(t2, cfg, c), cfg, d), cfg, []);
  }
}
