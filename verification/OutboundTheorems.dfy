/** The guarantees of outbound delivery, for every configuration, every first
    identifier and every sequence of events. */
module OutboundTheorems {
  import opened Base
  import opened Packets
  import opened Storage
  import opened Engine
  import opened Persistence
  import opened Outbound
  import opened OutboundProofs

  // ---------- identifiers ----------

  /** The message numbered k has the k-th identifier after the first, counted
      round the 65535 identifiers that are not zero; the queue stays in the
      order of allocation; the next identifier continues the count. */
  lemma IdentifiersInOrder(cfg: Config, start: U16, evs: seq<Event>)
    requires 1 <= start
    ensures var t := Run(cfg, start, evs);
            && t.nextPacketId == IdOf(start, t.issued) != 0
            && (forall i | 0 <= i < |t.queue| :: t.queue[i].e.packet.packetId == Some(IdOf(start, t.queue[i].tag)))
            && (forall i, j | 0 <= i < j < |t.queue| :: t.queue[i].tag < t.queue[j].tag < t.issued)
  {
    RunKeeps(cfg, start, evs);
    QueueInOrder(Run(cfg, start, evs), cfg, start);
    NextIdOf(start, Run(cfg, start, evs).issued);
  }

  lemma QueueInOrder(t: Traced, cfg: Config, start: U16)
    requires 1 <= start && Inv(t, cfg, start)
    ensures forall i | 0 <= i < |t.queue| ::
              t.queue[i].tag < t.issued && t.queue[i].e.packet.packetId == Some(IdOf(start, t.queue[i].tag))
    ensures forall i, j | 0 <= i < j < |t.queue| :: t.queue[i].tag < t.queue[j].tag
  {
    forall i | 0 <= i < |t.queue|
      ensures t.queue[i].tag < t.issued && t.queue[i].e.packet.packetId == Some(IdOf(start, t.queue[i].tag))
    {
      assert t.queue[i] in t.queue && t.queue[i].tag in Tags(t.queue);
    }
  }

  /** While at most 65535 identifiers have been allocated since the oldest
      message in flight, no two messages in flight share one. */
  lemma IdentifiersDistinct(cfg: Config, start: U16, evs: seq<Event>)
    requires 1 <= start
    ensures var t := Run(cfg, start, evs);
            t.queue != [] && t.issued - t.queue[0].tag <= 65535 ==>
              forall i, j | 0 <= i < j < |t.queue| :: t.queue[i].e.packet.packetId != t.queue[j].e.packet.packetId
  {
    var t := Run(cfg, start, evs);
    RunKeeps(cfg, start, evs);
    QueueInOrder(t, cfg, start);
    if t.queue != [] && t.issued - t.queue[0].tag <= 65535 {
      forall i, j | 0 <= i < j < |t.queue|
        ensures t.queue[i].e.packet.packetId != t.queue[j].e.packet.packetId
      {
        assert t.queue[0].tag <= t.queue[i].tag;
        NearIdsDiffer(start, t.queue[i].tag, t.queue[j].tag);
      }
    }
  }

  lemma {:induction false} RemoveIdLength(q: seq<Entry>, id: U16)
    requires forall i, j | 0 <= i < j < |q| :: q[i].packet.packetId != q[j].packet.packetId
    ensures |RemoveId(q, id)| == |q| - (if exists i | 0 <= i < |q| :: q[i].packet.packetId == Some(id) then 1 else 0)
    decreases |q|
  {
    if q != [] {
      var front, last := q[..|q| - 1], q[|q| - 1];
      RemoveIdLength(front, id);
      assert forall i | 0 <= i < |front| :: front[i] == q[i];
      if last.packet.packetId == Some(id) {
        assert q[|q| - 1].packet.packetId == Some(id);
      } else if i :| 0 <= i < |q| && q[i].packet.packetId == Some(id) {
        assert front[i].packet.packetId == Some(id);
      }
    }
  }

  /** Under the same bound an acknowledgement removes the message it names and
      no other. */
  lemma AcknowledgementIsPrecise(cfg: Config, start: U16, evs: seq<Event>, id: U16)
    requires 1 <= start
    requires var t := Run(cfg, start, evs); t.queue != [] ==> t.issued - t.queue[0].tag <= 65535
    ensures var q := Entries(Run(cfg, start, evs).queue);
            && (forall e :: e in RemoveId(q, id) <==> e in q && e.packet.packetId != Some(id))
            && |RemoveId(q, id)| >= |q| - 1
  {
    var q := Entries(Run(cfg, start, evs).queue);
    IdentifiersDistinct(cfg, start, evs);
    RemoveIdMembers(q, id);
    RemoveIdLength(q, id);
  }

  // ---------- conservation ----------

  /** Every message that was given an identifier is in flight or has left, not
      both; it has left by a failed first write, an acknowledgement, the retry
      limit or a clean takeover. */
  lemma OutboundConservation(cfg: Config, start: U16, evs: seq<Event>, k: nat)
    requires 1 <= start
    ensures var t := Run(cfg, start, evs);
            && (k < t.issued <==> k in t.gone || exists i | 0 <= i < |t.queue| :: t.queue[i].tag == k)
            && !(k in t.gone && exists i | 0 <= i < |t.queue| :: t.queue[i].tag == k)
  {
    var t := Run(cfg, start, evs);
    RunKeeps(cfg, start, evs);
    assert k in Tags(t.queue) <==> exists i | 0 <= i < |t.queue| :: t.queue[i].tag == k by {
      if k in Tags(t.queue) {
        var x :| x in t.queue && x.tag == k;
        var i :| 0 <= i < |t.queue| && t.queue[i] == x;
        assert t.queue[i].tag == k;
      }
    }
  }

  lemma StepGone(t: Traced, cfg: Config, start: U16, ev: Event, k: nat)
    requires 1 <= start && Inv(t, cfg, start)
    requires k in t.gone
    ensures k in TraceStep(t, cfg, ev).gone && TraceStep(t, cfg, ev).gone[k] == t.gone[k]
  {
    match ev {
      case Acknowledged(id) => JudgeGone(t, OnAck(id), k);
      case Ticks => JudgeGone(t, OnTimer(cfg.Interval(), cfg.maxRetransmissionLimit, t.clock), k);
      case TakenOver(_) => JudgeGone(t, OnClear(), k);
      case Resumes => JudgeGone(t, OnResume(t.clock), k);
      case _ =>
    }
  }

  lemma JudgeGone(t: Traced, f: Tagged -> Verdict, k: nat)
    requires k in t.gone && t.gone.Keys !! Tags(t.queue)
    ensures k in Judge(t, f).gone && Judge(t, f).gone[k] == t.gone[k]
  {
    assert forall x <- t.queue :: x.tag in Tags(t.queue);
    if k in Leavers(t.queue, f) {
      var x := LeaverOrigin(t.queue, f, k);
    }
  }

  /** What has left never comes back, and its fate is never revised. */
  lemma {:induction false} FateIsFinal(t: Traced, cfg: Config, start: U16, evs: seq<Event>, k: nat)
    requires 1 <= start && Inv(t, cfg, start)
    requires k in t.gone
    ensures k in RunFrom(t, cfg, evs).gone && RunFrom(t, cfg, evs).gone[k] == t.gone[k]
    ensures k !in Tags(RunFrom(t, cfg, evs).queue)
    decreases |evs|
  {
    if evs != [] {
      StepKeeps(t, cfg, start, evs[0]);
      StepGone(t, cfg, start, evs[0], k);
      FateIsFinal(TraceStep(t, cfg, evs[0]), cfg, start, evs[1..], k);
    }
  }

  lemma NewlyGone(t: Traced, cfg: Config, ev: Event, k: nat)
    requires k !in t.gone && k in TraceStep(t, cfg, ev).gone && ev != Delivers(false)
    ensures TraceStep(t, cfg, ev).gone[k].Left?
  {
    match ev {
      case Acknowledged(id) => var _ := LeaverOrigin(t.queue, OnAck(id), k);
      case Ticks =>
        var _ := LeaverOrigin(t.queue, OnTimer(cfg.Interval(), cfg.maxRetransmissionLimit, t.clock), k);
      case TakenOver(_) => var _ := LeaverOrigin(t.queue, OnClear(), k);
      case Resumes => var _ := LeaverOrigin(t.queue, OnResume(t.clock), k);
      case _ =>
    }
  }

  predicate NothingLost(t: Traced) {
    forall k <- t.gone :: t.gone[k].Left?
  }

  lemma StepLosesNothing(t: Traced, cfg: Config, start: U16, ev: Event)
    requires 1 <= start && Inv(t, cfg, start) && ev != Delivers(false) && NothingLost(t)
    ensures NothingLost(TraceStep(t, cfg, ev))
  {
    forall k | k in TraceStep(t, cfg, ev).gone
      ensures TraceStep(t, cfg, ev).gone[k].Left?
    {
      if k in t.gone {
        StepGone(t, cfg, start, ev, k);
      } else {
        NewlyGone(t, cfg, ev, k);
      }
    }
  }

  lemma {:induction false} LosesNothing(t: Traced, cfg: Config, start: U16, evs: seq<Event>)
    requires 1 <= start && Inv(t, cfg, start) && NothingLost(t)
    requires forall i | 0 <= i < |evs| :: evs[i] != Delivers(false)
    ensures NothingLost(RunFrom(t, cfg, evs))
    decreases |evs|
  {
    if evs != [] {
      StepKeeps(t, cfg, start, evs[0]);
      StepLosesNothing(t, cfg, start, evs[0]);
      LosesNothing(TraceStep(t, cfg, evs[0]), cfg, start, evs[1..]);
    }
  }

  /** A message is lost on its first write only if a write failed. */
  lemma NoFailureNoLoss(cfg: Config, start: U16, evs: seq<Event>)
    requires 1 <= start
    requires forall i | 0 <= i < |evs| :: evs[i] != Delivers(false)
    ensures NothingLost(Run(cfg, start, evs))
  {
    NextIdOf(start, 0);
    LosesNothing(Start(start), cfg, start, evs);
  }

  // ---------- transmissions ----------

  /** A QoS 1 message that runs into the retry limit was put up for
      transmission exactly 1 + limit times, a QoS 2 message between 1 + limit
      and 1 + 2 * limit times. The limit must be below the largest counter. */
  lemma ExpiredTransmissions(cfg: Config, start: U16, evs: seq<Event>, k: nat)
    requires 1 <= start && cfg.maxRetransmissionLimit < U32_LIMIT - 1
    requires var g := Run(cfg, start, evs).gone; k in g && g[k].Left? && g[k].fate == Expired
    ensures var x := Run(cfg, start, evs).gone[k].last;
            var limit := cfg.maxRetransmissionLimit;
            && (x.e.packet.qos == AtLeastOnce ==> |x.sent| == 1 + limit)
            && 1 + limit <= |x.sent| <= 1 + 2 * limit
  {
    var t := Run(cfg, start, evs);
    RunKeeps(cfg, start, evs);
    assert GoneOk(t.gone[k], k, cfg, start, t.clock);
  }

  /** The times at which one message is put up for transmission are at least
      500 ms and at least the configured interval apart. (A retransmitted PUBLISH
      is written when the mailbox is worked off.) */
  lemma TransmissionsSpaced(cfg: Config, start: U16, evs: seq<Event>, x: Tagged)
    requires 1 <= start && cfg.Interval() > 0
    requires x in Run(cfg, start, evs).queue
    ensures forall i, j | 0 <= i < j < |x.sent| ::
              x.sent[j] >= x.sent[i] + 500 && x.sent[j] >= x.sent[i] + cfg.retransmissionIntervalMs
  {
    RunKeeps(cfg, start, evs);
    assert EntryOk(x, cfg, start, Run(cfg, start, evs).clock);
    forall i, j | 0 <= i < j < |x.sent|
      ensures x.sent[j] >= x.sent[i] + cfg.Interval()
    {
      SpacedApart(x.sent, cfg.Interval(), i, j);
    }
  }

  lemma {:induction false} SpacedApart(sent: seq<nat>, interval: nat, i: nat, j: nat)
    requires Spaced(sent, interval) && i < j < |sent|
    ensures sent[j] >= sent[i] + interval
    decreases j
  {
    if i < j - 1 {
      SpacedApart(sent, interval, i, j - 1);
      assert sent[j - 1 + 1] >= sent[j - 1] + interval;
    }
  }

  /** A PUBLISH waiting in the mailbox either is fresh, without an identifier,
      or repeats one that has been allocated. */
  lemma MailboxIdentifiers(cfg: Config, start: U16, evs: seq<Event>, m: Packet)
    requires 1 <= start
    requires m in Run(cfg, start, evs).mailbox
    ensures m.Publish?
    ensures if m.publish.dup
            then exists k: nat :: k < Run(cfg, start, evs).issued && m.publish.packetId == Some(IdOf(start, k))
            else m.publish.packetId == None
  {
    RunKeeps(cfg, start, evs);
    assert MessageOk(m, start, Run(cfg, start, evs).issued);
  }

  /** The delivery state is always fit to be saved. */
  lemma AlwaysWellKept(cfg: Config, start: U16, evs: seq<Event>)
    requires 1 <= start
    ensures forall e <- Erase(Run(cfg, start, evs)).core.inflight :: WellKeptEntry(e)
  {
    var t := Run(cfg, start, evs);
    RunKeeps(cfg, start, evs);
    forall e | e in Entries(t.queue)
      ensures WellKeptEntry(e)
    {
      var i :| 0 <= i < |t.queue| && t.queue[i].e == e;
      assert t.queue[i] in t.queue;
    }
  }

  // ---------- progress ----------

  /** Due ticks an entry can still see: those of its phase, and those of the
      phase after it. */
  function Rank(e: Entry, limit: U32): int {
    (if e.qos2State == Some(AwaitingPubRec) then limit + 1 else 0) + limit + 1 - e.retryCount
  }

  ghost function Find(q: seq<Tagged>, k: nat): (x: Tagged)
    requires k in Tags(q)
    ensures x in q && x.tag == k
  {
    var x :| x in q && x.tag == k; x
  }

  lemma FindUnique(q: seq<Tagged>, x: Tagged)
    requires Increasing(q) && x in q
    ensures x.tag in Tags(q) && Find(q, x.tag) == x
  {
    var y := Find(q, x.tag);
    var i :| 0 <= i < |q| && q[i] == x;
    var j :| 0 <= j < |q| && q[j] == y;
    assert forall a, b | 0 <= a < b < |q| :: q[a].tag != q[b].tag;
  }

  /** 1 if the event is a due tick or an effective PUBREC for the entry. */
  function Work(x: Tagged, cfg: Config, ev: Event, clock: nat, x': Tagged): nat {
    if ev.Ticks? && cfg.Interval() > 0 && Due(x.e, cfg.Interval(), clock) then 1
    else if ev.ReceivedBy? && x'.e.qos2State != x.e.qos2State then 1
    else 0
  }

  lemma {:induction false} ReceivedAt(q: seq<Tagged>, id: U16, now: nat)
    ensures var q' := TagReceived(q, id, now);
            && |q'| == |q|
            && forall i | 0 <= i < |q| :: q'[i] == q[i] || (AwaitsRec(q[i].e, id) && q'[i] == q[i].(e := Received(q[i].e, now), rels := [now]))
    decreases |q|
  {
    if q != [] {
      ReceivedAt(q[1..], id, now);
    }
  }

  /** What one event can make of an entry that stays in flight. */
  ghost predicate Becomes(x: Tagged, y: Tagged, cfg: Config, ev: Event, clock: nat) {
    match ev
    case Ticks => (cfg.Interval() == 0 && x == y)
               || (cfg.Interval() > 0 && OnTimer(cfg.Interval(), cfg.maxRetransmissionLimit, clock)(x) == Stays(y))
    case ReceivedBy(id, _) => x == y || (AwaitsRec(x.e, id) && y == x.(e := Received(x.e, clock), rels := [clock]))
    case Resumes => y == x.(e := x.e.(timestamp := clock))
    case _ => x == y
  }

  lemma ReceivedPredecessor(q: seq<Tagged>, id: U16, now: nat, y: Tagged) returns (x: Tagged)
    requires y in TagReceived(q, id, now)
    ensures x in q && (x == y || (AwaitsRec(x.e, id) && y == x.(e := Received(x.e, now), rels := [now])))
  {
    ReceivedAt(q, id, now);
    var i :| 0 <= i < |q| && TagReceived(q, id, now)[i] == y;
    x := q[i];
  }

  lemma TickPredecessor(t: Traced, cfg: Config, y: Tagged) returns (x: Tagged)
    requires y in TraceStep(t, cfg, Ticks).queue
    ensures x in t.queue && x.tag == y.tag && Becomes(x, y, cfg, Ticks, t.clock)
  {
    if cfg.Interval() == 0 {
      x := y;
    } else {
      x := SurvivorOrigin(t.queue, OnTimer(cfg.Interval(), cfg.maxRetransmissionLimit, t.clock), y);
    }
  }

  /** What an entry was before the event. */
  lemma Predecessor(t: Traced, cfg: Config, ev: Event, y: Tagged) returns (x: Tagged)
    requires t.issued !in Tags(t.queue)
    requires y in TraceStep(t, cfg, ev).queue && y.tag in Tags(t.queue)
    ensures x in t.queue && x.tag == y.tag && Becomes(x, y, cfg, ev, t.clock)
  {
    match ev {
      case Acknowledged(id) => x := SurvivorOrigin(t.queue, OnAck(id), y);
      case Ticks => x := TickPredecessor(t, cfg, y);
      case TakenOver(clean) =>
        if clean {
          x := SurvivorOrigin(t.queue, OnClear(), y);
        } else {
          x := y;
        }
      case Resumes => x := SurvivorOrigin(t.queue, OnResume(t.clock), y);
      case ReceivedBy(id, _) => x := ReceivedPredecessor(t.queue, id, t.clock, y);
      case _ => x := y;
    }
  }

  /** The entry of a message before the event, as `Find` finds it. */
  lemma Before(t: Traced, cfg: Config, start: U16, ev: Event, k: nat)
    requires 1 <= start && Inv(t, cfg, start)
    requires k in Tags(t.queue) && k in Tags(TraceStep(t, cfg, ev).queue)
    ensures Becomes(Find(t.queue, k), Find(TraceStep(t, cfg, ev).queue, k), cfg, ev, t.clock)
    ensures EntryOk(Find(t.queue, k), cfg, start, t.clock)
    ensures EntryOk(Find(TraceStep(t, cfg, ev).queue, k), cfg, start, TraceStep(t, cfg, ev).clock)
  {
    StepKeeps(t, cfg, start, ev);
    var x := Predecessor(t, cfg, ev, Find(TraceStep(t, cfg, ev).queue, k));
    FindUnique(t.queue, x);
  }

  /** One event at an entry that stays in flight: its phase never goes back, and
      its rank falls with every due tick and every effective PUBREC and never
      rises. */
  lemma RankFalls(t: Traced, cfg: Config, start: U16, ev: Event, k: nat)
    requires 1 <= start && Inv(t, cfg, start) && cfg.maxRetransmissionLimit < U32_LIMIT - 1
    requires k in Tags(t.queue) && k in Tags(TraceStep(t, cfg, ev).queue)
    ensures var x, x' := Find(t.queue, k), Find(TraceStep(t, cfg, ev).queue, k);
            && Rank(x'.e, cfg.maxRetransmissionLimit) + Work(x, cfg, ev, t.clock, x') <= Rank(x.e, cfg.maxRetransmissionLimit)
            && (x.e.qos2State == Some(AwaitingPubComp) ==> x'.e.qos2State == Some(AwaitingPubComp))
            && (x.e.qos2State == None <==> x'.e.qos2State == None)
            && Rank(x'.e, cfg.maxRetransmissionLimit) >= 1
  {
    Before(t, cfg, start, ev, k);
  }

  /** The due ticks and effective PUBRECs an entry sees while it is in flight. */
  ghost function TotalWork(t: Traced, cfg: Config, evs: seq<Event>, k: nat): nat
    decreases |evs|
  {
    if evs == [] then 0
    else
      var t' := TraceStep(t, cfg, evs[0]);
      TotalWork(t', cfg, evs[1..], k)
      + if k in Tags(t.queue) && k in Tags(t'.queue)
        then Work(Find(t.queue, k), cfg, evs[0], t.clock, Find(t'.queue, k)) else 0
  }

  lemma {:induction false} WorkBounded(t: Traced, cfg: Config, start: U16, evs: seq<Event>, k: nat)
    requires 1 <= start && Inv(t, cfg, start) && cfg.maxRetransmissionLimit < U32_LIMIT - 1
    requires k in Tags(t.queue) && k in Tags(RunFrom(t, cfg, evs).queue)
    ensures TotalWork(t, cfg, evs, k) + Rank(Find(RunFrom(t, cfg, evs).queue, k).e, cfg.maxRetransmissionLimit)
         <= Rank(Find(t.queue, k).e, cfg.maxRetransmissionLimit)
    decreases |evs|
  {
    if evs != [] {
      var t' := TraceStep(t, cfg, evs[0]);
      StepKeeps(t, cfg, start, evs[0]);
      if k !in Tags(t'.queue) {
        IssuedGrows(t, cfg, evs[0]);
        FateIsFinal(t', cfg, start, evs[1..], k);
      }
      RankFalls(t, cfg, start, evs[0], k);
      WorkBounded(t', cfg, start, evs[1..], k);
    }
  }

  lemma IssuedGrows(t: Traced, cfg: Config, ev: Event)
    ensures TraceStep(t, cfg, ev).issued >= t.issued
  {
  }

  /** No run keeps a message in flight for long without acknowledgement: however
      many PUBRECs are repeated, it sees at most 2 * limit + 1 due ticks and
      effective PUBRECs, and at most limit if it is a QoS 1 message. */
  lemma EffortIsBounded(t: Traced, cfg: Config, start: U16, evs: seq<Event>, k: nat)
    requires 1 <= start && Inv(t, cfg, start) && cfg.maxRetransmissionLimit < U32_LIMIT - 1
    requires k in Tags(t.queue) && k in Tags(RunFrom(t, cfg, evs).queue)
    ensures TotalWork(t, cfg, evs, k) <= 2 * cfg.maxRetransmissionLimit + 1
    ensures Find(t.queue, k).e.qos2State == None ==> TotalWork(t, cfg, evs, k) <= cfg.maxRetransmissionLimit
  {
    WorkBounded(t, cfg, start, evs, k);
    RunFromKeeps(t, cfg, start, evs);
    assert EntryOk(Find(RunFrom(t, cfg, evs).queue, k), cfg, start, RunFrom(t, cfg, evs).clock);
  }

  // ---------- the order of retransmission ----------

  /** The entries whose packets a tick retransmits. */
  function Republishes(interval: nat, limit: U32, now: nat): Entry -> bool {
    (e: Entry) => Due(e, interval, now) && !Expires(e, interval, limit, now) && e.qos2State != Some(AwaitingPubComp)
  }

  function Republished(q: seq<Entry>, interval: nat, limit: U32, now: nat): seq<nat> {
    Where(q, Republishes(interval, limit, now))
  }

  lemma {:induction false} RepublishedPackets(q: seq<Entry>, interval: nat, limit: U32, now: nat)
    ensures var ps, at := OnTick(q, interval, limit, now).publishes, Republished(q, interval, limit, now);
            |at| == |ps| && forall i | 0 <= i < |at| :: at[i] < |q| && ps[i] == q[at[i]].packet
    decreases |q|
  {
    if q != [] {
      RepublishedPackets(q[..|q| - 1], interval, limit, now);
    }
  }

  /** A batch of retransmitted PUBLISH packets is a subsequence of the queue, in
      the order in which the messages were first sent; it has exactly the due
      entries that neither expire nor wait for PUBCOMP. */
  lemma BatchInOrder(q: seq<Entry>, interval: nat, limit: U32, now: nat)
    ensures var ps, at := OnTick(q, interval, limit, now).publishes, Republished(q, interval, limit, now);
            && |at| == |ps|
            && (forall i | 0 <= i < |at| :: at[i] < |q| && ps[i] == q[at[i]].packet)
            && (forall i, j | 0 <= i < j < |at| :: at[i] < at[j])
            && (forall k: nat :: k in at <==> k < |q| && Due(q[k], interval, now) && !Expires(q[k], interval, limit, now)
                                              && q[k].qos2State != Some(AwaitingPubComp))
  {
    WhereAt(q, Republishes(interval, limit, now));
    RepublishedPackets(q, interval, limit, now);
  }
}
