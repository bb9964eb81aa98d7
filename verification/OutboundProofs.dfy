/** What every run of a session guarantees for the messages it sends with an
    identifier: which identifiers they get, that none is lost sight of, and how
    often and how far apart they are put up for transmission. */
module OutboundProofs {
  import opened Base
  import opened Packets
  import opened Storage
  import opened Engine
  import opened Persistence
  import opened Outbound

  // ---------- what holds of one entry ----------

  /** A later time is at least `interval` after an earlier one. */
  predicate Spaced(sent: seq<nat>, interval: nat) {
    forall i | 0 <= i < |sent| - 1 :: sent[i + 1] >= sent[i] + interval
  }

  /** How many due ticks an entry may still see in its phase. */
  predicate Counted(x: Tagged, limit: U32) {
    match x.e.qos2State
    case Some(AwaitingPubComp) => 1 + x.e.retryCount <= |x.sent| <= 1 + limit + x.e.retryCount
    case _ => |x.sent| == 1 + x.e.retryCount
  }

  predicate EntryOk(x: Tagged, cfg: Config, start: U16, clock: nat)
    requires 1 <= start
  {
    && WellKeptEntry(x.e)
    && x.e.packet.packetId == Some(IdOf(start, x.tag))
    && (x.e.packet.qos == AtLeastOnce <==> x.e.qos2State == None)
    && x.e.packet.qos != AtMostOnce
    && x.e.retryCount <= cfg.maxRetransmissionLimit
    && (cfg.Interval() == 0 ==> x.e.retryCount == 0)
    && x.sent != [] && x.sent[|x.sent| - 1] <= x.e.timestamp <= clock
    && Spaced(x.sent, cfg.Interval())
    && (cfg.maxRetransmissionLimit < U32_LIMIT - 1 ==> Counted(x, cfg.maxRetransmissionLimit))
  }

  /** What is known of a message that has left. */
  predicate GoneOk(g: Gone, tag: nat, cfg: Config, start: U16, clock: nat)
    requires 1 <= start
  {
    g.Left? ==>
      && g.last.tag == tag
      && EntryOk(g.last, cfg, start, clock)
      && (g.fate == Expired ==> g.last.e.retryCount == cfg.maxRetransmissionLimit)
  }

  // ---------- what holds of the whole history ----------

  predicate Increasing(q: seq<Tagged>) {
    forall i, j | 0 <= i < j < |q| :: q[i].tag < q[j].tag
  }

  function Tags(q: seq<Tagged>): set<nat> {
    set x <- q :: x.tag
  }

  /** A message in the mailbox is fresh, without an identifier, or a
      retransmission with one that has been allocated. */
  ghost predicate MessageOk(m: Packet, start: U16, issued: nat)
    requires 1 <= start
  {
    m.Publish? && if m.publish.dup then exists k: nat :: k < issued && m.publish.packetId == Some(IdOf(start, k))
                  else m.publish.packetId == None
  }

  ghost predicate Inv(t: Traced, cfg: Config, start: U16)
    requires 1 <= start
  {
    && t.nextPacketId == IdOf(start, t.issued)
    && Increasing(t.queue)
    && (forall x <- t.queue :: EntryOk(x, cfg, start, t.clock))
    && (forall k <- t.gone :: GoneOk(t.gone[k], k, cfg, start, t.clock))
    && (forall k: nat :: k < t.issued <==> k in t.gone || k in Tags(t.queue))
    && t.gone.Keys !! Tags(t.queue)
    && (forall m <- t.mailbox :: MessageOk(m, start, t.issued))
  }

  // ---------- judging a queue ----------

  lemma TagsMore(q: seq<Tagged>, x: Tagged)
    ensures Tags(q + [x]) == Tags(q) + {x.tag}
  {
    assert forall y :: y in q + [x] <==> y in q || y == x;
  }

  lemma {:induction false} SurvivorOrigin(q: seq<Tagged>, f: Tagged -> Verdict, y: Tagged) returns (x: Tagged)
    requires y in Survivors(q, f)
    ensures x in q && f(x) == Stays(y)
    decreases |q|
  {
    var front, last := q[..|q| - 1], q[|q| - 1];
    if y in Survivors(front, f) {
      x := SurvivorOrigin(front, f, y);
    } else {
      x := last;
    }
  }

  lemma {:induction false} LeaverOrigin(q: seq<Tagged>, f: Tagged -> Verdict, k: nat) returns (x: Tagged)
    requires k in Leavers(q, f)
    ensures x in q && x.tag == k && f(x).Leaves? && Leavers(q, f)[k] == Left(f(x).fate, x)
    decreases |q|
  {
    var front, last := q[..|q| - 1], q[|q| - 1];
    if f(last).Leaves? && last.tag == k {
      x := last;
    } else {
      x := LeaverOrigin(front, f, k);
    }
  }

  predicate KeepsTag(f: Tagged -> Verdict, x: Tagged) {
    f(x).Stays? ==> f(x).x.tag == x.tag
  }

  lemma LastIsNewest(q: seq<Tagged>)
    requires q != [] && Increasing(q)
    ensures forall x <- q[..|q| - 1] :: x.tag < q[|q| - 1].tag
    ensures q[|q| - 1].tag !in Tags(q[..|q| - 1])
    ensures Increasing(q[..|q| - 1])
    ensures Tags(q) == Tags(q[..|q| - 1]) + {q[|q| - 1].tag}
  {
    var front, last := q[..|q| - 1], q[|q| - 1];
    forall x | x in front
      ensures x.tag < last.tag
    {
      var i :| 0 <= i < |front| && front[i] == x;
      assert q[i].tag < q[|q| - 1].tag;
    }
    assert q == front + [last];
    TagsMore(front, last);
  }

  /** Judging a queue splits its numbers into those that stay and those that
      leave. */
  lemma {:induction false} JudgedTags(q: seq<Tagged>, f: Tagged -> Verdict)
    requires Increasing(q)
    requires forall x <- q :: KeepsTag(f, x)
    ensures Tags(q) == Tags(Survivors(q, f)) + Leavers(q, f).Keys
    ensures Tags(Survivors(q, f)) !! Leavers(q, f).Keys
    decreases |q|
  {
    if q != [] {
      var front, last := q[..|q| - 1], q[|q| - 1];
      LastIsNewest(q);
      JudgedTags(front, f);
      if f(last).Stays? {
        TagsMore(Survivors(front, f), f(last).x);
        assert KeepsTag(f, last);
      }
    }
  }

  /** Those that stay stay in order. */
  lemma {:induction false} SurvivorsInOrder(q: seq<Tagged>, f: Tagged -> Verdict)
    requires Increasing(q)
    requires forall x <- q :: KeepsTag(f, x)
    ensures Increasing(Survivors(q, f))
    decreases |q|
  {
    if q != [] {
      var front, last := q[..|q| - 1], q[|q| - 1];
      LastIsNewest(q);
      SurvivorsInOrder(front, f);
      var before := Survivors(front, f);
      forall y | y in before
        ensures y.tag < last.tag
      {
        var x := SurvivorOrigin(front, f, y);
        assert KeepsTag(f, x);
      }
      assert KeepsTag(f, last);
    }
  }

  /** A verdict that leaves what is known of every entry intact. */
  ghost predicate Sound(f: Tagged -> Verdict, x: Tagged, cfg: Config, start: U16, clock: nat)
    requires 1 <= start
  {
    && KeepsTag(f, x)
    && match f(x)
       case Stays(x') => EntryOk(x', cfg, start, clock)
       case Leaves(fate) => fate == Expired ==> x.e.retryCount == cfg.maxRetransmissionLimit
  }

  lemma JudgeKeeps(t: Traced, cfg: Config, start: U16, f: Tagged -> Verdict)
    requires 1 <= start && Inv(t, cfg, start)
    requires forall x <- t.queue :: Sound(f, x, cfg, start, t.clock)
    ensures Inv(Judge(t, f), cfg, start)
  {
    var t' := Judge(t, f);
    assert forall x <- t.queue :: KeepsTag(f, x) by {
      assert forall x <- t.queue :: Sound(f, x, cfg, start, t.clock);
    }
    JudgedTags(t.queue, f);
    SurvivorsInOrder(t.queue, f);
    forall y | y in t'.queue
      ensures EntryOk(y, cfg, start, t.clock)
    {
      var x := SurvivorOrigin(t.queue, f, y);
      assert Sound(f, x, cfg, start, t.clock);
    }
    forall k | k in t'.gone
      ensures GoneOk(t'.gone[k], k, cfg, start, t.clock)
    {
      if k in Leavers(t.queue, f) {
        var x := LeaverOrigin(t.queue, f, k);
        assert Sound(f, x, cfg, start, t.clock);
      }
    }
  }

  lemma TimerIsSound(x: Tagged, cfg: Config, start: U16, now: nat)
    requires 1 <= start && cfg.Interval() > 0
    requires EntryOk(x, cfg, start, now)
    ensures Sound(OnTimer(cfg.Interval(), cfg.maxRetransmissionLimit, now), x, cfg, start, now)
  {
  }

  lemma {:induction false} ReceivedKeeps(q: seq<Tagged>, id: U16, cfg: Config, start: U16, now: nat)
    requires 1 <= start
    requires forall x <- q :: EntryOk(x, cfg, start, now)
    ensures var q' := TagReceived(q, id, now);
            && |q'| == |q| && (forall i | 0 <= i < |q| :: q'[i].tag == q[i].tag)
            && (forall x <- q' :: EntryOk(x, cfg, start, now))
    decreases |q|
  {
    if q != [] {
      ReceivedKeeps(q[1..], id, cfg, start, now);
      var q' := TagReceived(q, id, now);
      assert q[0] in q;
      if AwaitsRec(q[0].e, id) {
        assert EntryOk(q'[0], cfg, start, now);
        assert forall x <- q[1..] :: x in q;
      }
    }
  }

  lemma TagsByIndex(q: seq<Tagged>, q': seq<Tagged>)
    requires |q| == |q'| && forall i | 0 <= i < |q| :: q[i].tag == q'[i].tag
    ensures Tags(q) == Tags(q')
  {
    forall k
      ensures k in Tags(q) <==> k in Tags(q')
    {
      if k in Tags(q) {
        var i :| 0 <= i < |q| && q[i].tag == k;
        assert q'[i] in q';
      }
      if k in Tags(q') {
        var i :| 0 <= i < |q'| && q'[i].tag == k;
        assert q[i] in q;
      }
    }
  }

  /** What a tick retransmits comes out of the queue. */
  lemma {:induction false} TickPublishes(q: seq<Entry>, interval: nat, limit: U32, now: nat)
    ensures forall p <- OnTick(q, interval, limit, now).publishes :: exists e <- q :: e.packet == p
    decreases |q|
  {
    if q != [] {
      var front, last := q[..|q| - 1], q[|q| - 1];
      TickPublishes(front, interval, limit, now);
      forall p | p in OnTick(q, interval, limit, now).publishes
        ensures exists e <- q :: e.packet == p
      {
        if p in OnTick(front, interval, limit, now).publishes {
          var e :| e in front && e.packet == p;
          assert e in q;
        } else {
          assert last in q && last.packet == p;
        }
      }
    }
  }

  lemma FreshEntryOk(p: PublishPacket, cfg: Config, start: U16, tag: nat, now: nat)
    requires 1 <= start && p.qos != AtMostOnce
    ensures EntryOk(Tagged(Tracked(p, IdOf(start, tag), now), tag, [now], []), cfg, start, now)
  {
  }

  /** What was all right in the mailbox stays so as more identifiers are given. */
  lemma MessagesStayOk(ms: seq<Packet>, start: U16, issued: nat, later: nat)
    requires 1 <= start && issued <= later
    requires forall m <- ms :: MessageOk(m, start, issued)
    ensures forall m <- ms :: MessageOk(m, start, later)
  {
  }

  lemma AppendedInOrder(q: seq<Tagged>, x: Tagged)
    requires Increasing(q) && forall k <- Tags(q) :: k < x.tag
    ensures Increasing(q + [x]) && Tags(q + [x]) == Tags(q) + {x.tag}
  {
    TagsMore(q, x);
    assert forall y <- q :: y.tag in Tags(q);
  }

  lemma DeliverKeeps(t: Traced, cfg: Config, start: U16, ok: bool)
    requires 1 <= start && Inv(t, cfg, start)
    ensures Inv(TraceDeliver(t, ok), cfg, start)
  {
    if t.mailbox != [] {
      var m := t.mailbox[0];
      assert forall m' <- t.mailbox[1..] :: m' in t.mailbox;
      MessagesStayOk(t.mailbox[1..], start, t.issued, t.issued + 1);
      if Fresh(m) {
        NextIdOf(start, t.issued);
        if ok {
          FreshEntryOk(m.publish, cfg, start, t.issued, t.clock);
          AppendedInOrder(t.queue, Tagged(Tracked(m.publish, t.nextPacketId, t.clock), t.issued, [t.clock], []));
        }
      }
    }
  }

  lemma StepKeeps(t: Traced, cfg: Config, start: U16, ev: Event)
    requires 1 <= start && Inv(t, cfg, start)
    ensures Inv(TraceStep(t, cfg, ev), cfg, start)
  {
    match ev {
      case Arrives(p) =>
        assert MessageOk(Forwarded(p), start, t.issued);
      case Delivers(ok) => DeliverKeeps(t, cfg, start, ok);
      case Acknowledged(id) => JudgeKeeps(t, cfg, start, OnAck(id));
      case ReceivedBy(id, _) =>
        ReceivedKeeps(t.queue, id, cfg, start, t.clock);
        TagsByIndex(t.queue, TagReceived(t.queue, id, t.clock));
      case Ticks => TickKeeps(t, cfg, start);
      case TakenOver(clean) => JudgeKeeps(t, cfg, start, OnClear());
      case Resumes => JudgeKeeps(t, cfg, start, OnResume(t.clock));
      case Waits(ms) => WaitKeeps(t, cfg, start, ms);
    }
  }

  lemma TickKeeps(t: Traced, cfg: Config, start: U16)
    requires 1 <= start && Inv(t, cfg, start)
    ensures Inv(TraceStep(t, cfg, Ticks), cfg, start)
  {
    if cfg.Interval() > 0 {
      var f := OnTimer(cfg.Interval(), cfg.maxRetransmissionLimit, t.clock);
      forall x | x in t.queue
        ensures Sound(f, x, cfg, start, t.clock)
      {
        TimerIsSound(x, cfg, start, t.clock);
      }
      JudgeKeeps(t, cfg, start, f);
      var ps := TickOf(Entries(t.queue), cfg, t.clock).publishes;
      TickPublishes(Entries(t.queue), cfg.Interval(), cfg.maxRetransmissionLimit, t.clock);
      forall m | m in AsMessages(ps)
        ensures MessageOk(m, start, t.issued)
      {
        var i :| 0 <= i < |ps| && m == Publish(ps[i]);
        assert ps[i] in ps;
        var e :| e in Entries(t.queue) && e.packet == ps[i];
        var j :| 0 <= j < |t.queue| && t.queue[j].e == e;
        assert EntryOk(t.queue[j], cfg, start, t.clock);
        assert t.queue[j].tag in Tags(t.queue);
      }
    }
  }

  lemma WaitKeeps(t: Traced, cfg: Config, start: U16, ms: nat)
    requires 1 <= start && Inv(t, cfg, start)
    ensures Inv(t.(clock := t.clock + ms), cfg, start)
  {
  }

  // ---------- whole runs ----------

  function RunFrom(t: Traced, cfg: Config, evs: seq<Event>): Traced
    decreases |evs|
  {
    if evs == [] then t else RunFrom(TraceStep(t, cfg, evs[0]), cfg, evs[1..])
  }

  function Start(start: U16): Traced {
    Traced(start, [], [], 0, 0, [], map[])
  }

  /** Any number of events in any order, from a new session. */
  function Run(cfg: Config, start: U16, evs: seq<Event>): Traced {
    RunFrom(Start(start), cfg, evs)
  }

  lemma {:induction false} RunFromKeeps(t: Traced, cfg: Config, start: U16, evs: seq<Event>)
    requires 1 <= start && Inv(t, cfg, start)
    ensures Inv(RunFrom(t, cfg, evs), cfg, start)
    decreases |evs|
  {
    if evs != [] {
      StepKeeps(t, cfg, start, evs[0]);
      RunFromKeeps(TraceStep(t, cfg, evs[0]), cfg, start, evs[1..]);
    }
  }

  /** What every event keeps holds after every run. */
  lemma RunKeeps(cfg: Config, start: U16, evs: seq<Event>)
    requires 1 <= start
    ensures Inv(Run(cfg, start, evs), cfg, start)
  {
    NextIdOf(start, 0);
    RunFromKeeps(Start(start), cfg, start, evs);
  }
}
