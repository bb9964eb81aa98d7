/** A message that is never acknowledged: how many ticks of the timer it takes
    until the session gives it up, and for which retry limits it never does. */
module OutboundExpiry {
  import opened Base
  import opened Packets
  import opened Storage
  import opened Engine
  import opened Outbound
  import opened OutboundProofs
  import opened OutboundTheorems

  const LARGEST: U32 := U32_LIMIT - 1

  /** 1 if the event is a tick at which message k is due. */
  ghost function DueTick(t: Traced, cfg: Config, ev: Event, k: nat): nat {
    if k in Tags(t.queue) && ev.Ticks? && cfg.Interval() > 0 && Due(Find(t.queue, k).e, cfg.Interval(), t.clock)
    then 1 else 0
  }

  /** The ticks of a run at which message k is due, the last one included. */
  ghost function DueTicks(t: Traced, cfg: Config, evs: seq<Event>, k: nat): nat
    decreases |evs|
  {
    if evs == [] then 0
    else DueTick(t, cfg, evs[0], k) + DueTicks(TraceStep(t, cfg, evs[0]), cfg, evs[1..], k)
  }

  ghost predicate HasExpired(t: Traced, k: nat) {
    k in t.gone && t.gone[k].Left? && t.gone[k].fate == Expired
  }

  /** The most due ticks an entry can see. */
  function Patience(e: Entry, limit: U32): int {
    limit + 1 - e.retryCount + if e.qos2State == Some(AwaitingPubRec) then limit else 0
  }

  /** The timer runs n times, and nothing comes from the client. */
  function Periods(ms: nat, n: nat): seq<Event> {
    if n == 0 then [] else [Waits(ms), Ticks] + Periods(ms, n - 1)
  }

  lemma TwoEvents(t: Traced, cfg: Config, a: Event, b: Event, rest: seq<Event>, k: nat)
    ensures var t1 := TraceStep(t, cfg, a);
            var t2 := TraceStep(t1, cfg, b);
            && RunFrom(t, cfg, [a, b] + rest) == RunFrom(t2, cfg, rest)
            && DueTicks(t, cfg, [a, b] + rest, k)
               == DueTick(t, cfg, a, k) + DueTick(t1, cfg, b, k) + DueTicks(t2, cfg, rest, k)
  {
    var evs, t1 := [a, b] + rest, TraceStep(t, cfg, a);
    assert evs[1..] == [b] + rest && evs[1..][1..] == rest;
    assert RunFrom(t, cfg, evs) == RunFrom(t1, cfg, evs[1..]);
    assert DueTicks(t, cfg, evs, k) == DueTick(t, cfg, a, k) + DueTicks(t1, cfg, evs[1..], k);
  }

  // ---------- below the largest limit ----------

  lemma {:induction false} GoneSeesNothing(t: Traced, cfg: Config, start: U16, evs: seq<Event>, k: nat)
    requires 1 <= start && Inv(t, cfg, start) && k in t.gone
    ensures DueTicks(t, cfg, evs, k) == 0
    decreases |evs|
  {
    if evs != [] {
      StepKeeps(t, cfg, start, evs[0]);
      StepGone(t, cfg, start, evs[0], k);
      GoneSeesNothing(TraceStep(t, cfg, evs[0]), cfg, start, evs[1..], k);
    }
  }

  lemma PatienceFalls(t: Traced, cfg: Config, start: U16, ev: Event, k: nat)
    requires 1 <= start && Inv(t, cfg, start) && cfg.maxRetransmissionLimit < LARGEST
    requires k in Tags(t.queue) && k in Tags(TraceStep(t, cfg, ev).queue)
    ensures Patience(Find(TraceStep(t, cfg, ev).queue, k).e, cfg.maxRetransmissionLimit) + DueTick(t, cfg, ev, k)
         <= Patience(Find(t.queue, k).e, cfg.maxRetransmissionLimit)
  {
    Before(t, cfg, start, ev, k);
  }

  lemma RemovedHasExpired(q: seq<Tagged>, interval: nat, limit: U32, now: nat, k: nat)
    requires Increasing(q) && k in Tags(q) && k !in Tags(Survivors(q, OnTimer(interval, limit, now)))
    ensures var left := Leavers(q, OnTimer(interval, limit, now)); k in left && left[k].Left? && left[k].fate == Expired
  {
    var f := OnTimer(interval, limit, now);
    assert forall x <- q :: KeepsTag(f, x);
    JudgedTags(q, f);
    var x := LeaverOrigin(q, f, k);
  }

  /** A message that a tick removes has expired. */
  lemma TickExpires(t: Traced, cfg: Config, k: nat)
    requires Increasing(t.queue) && cfg.Interval() > 0
    requires k in Tags(t.queue) && k !in Tags(TraceStep(t, cfg, Ticks).queue)
    ensures HasExpired(TraceStep(t, cfg, Ticks), k)
  {
    RemovedHasExpired(t.queue, cfg.Interval(), cfg.maxRetransmissionLimit, t.clock, k);
  }

  /** A message expires at the latest when it has been due as often as its
      patience says: 1 + limit times at QoS 1, 1 + 2 * limit times at QoS 2. */
  lemma {:induction false} PatienceRunsOut(t: Traced, cfg: Config, start: U16, evs: seq<Event>, k: nat)
    requires 1 <= start && Inv(t, cfg, start) && cfg.maxRetransmissionLimit < LARGEST
    requires DueTicks(t, cfg, evs, k) >= if k in Tags(t.queue) then Patience(Find(t.queue, k).e, cfg.maxRetransmissionLimit)
                                         else 1 + 2 * cfg.maxRetransmissionLimit
    ensures HasExpired(RunFrom(t, cfg, evs), k)
    decreases |evs|
  {
    if k in t.gone {
      GoneSeesNothing(t, cfg, start, evs, k);
    } else {
      if k in Tags(t.queue) {
        assert EntryOk(Find(t.queue, k), cfg, start, t.clock);
      }
      var t' := TraceStep(t, cfg, evs[0]);
      StepKeeps(t, cfg, start, evs[0]);
      if k in Tags(t.queue) && k !in Tags(t'.queue) {
        IssuedGrows(t, cfg, evs[0]);
        GoneSeesNothing(t', cfg, start, evs[1..], k);
        TickExpires(t, cfg, k);
        FateIsFinal(t', cfg, start, evs[1..], k);
      } else {
        if k in Tags(t.queue) {
          PatienceFalls(t, cfg, start, evs[0], k);
        } else if k in Tags(t'.queue) {
          assert EntryOk(Find(t'.queue, k), cfg, start, t'.clock);
        }
        PatienceRunsOut(t', cfg, start, evs[1..], k);
      }
    }
  }

  /** After a period of at least the interval a message has expired or has one
      due tick less to go. */
  lemma OneSilentPeriod(t: Traced, cfg: Config, start: U16, ms: nat, k: nat)
    requires 1 <= start && Inv(t, cfg, start) && 0 < cfg.Interval() <= ms && cfg.maxRetransmissionLimit < LARGEST
    requires k in Tags(t.queue)
    ensures var waited := TraceStep(t, cfg, Waits(ms));
            var t' := TraceStep(waited, cfg, Ticks);
            && Inv(t', cfg, start)
            && (HasExpired(t', k)
                || (k in Tags(t'.queue)
                    && Patience(Find(t'.queue, k).e, cfg.maxRetransmissionLimit)
                       < Patience(Find(t.queue, k).e, cfg.maxRetransmissionLimit)))
  {
    var waited := TraceStep(t, cfg, Waits(ms));
    StepKeeps(t, cfg, start, Waits(ms));
    StepKeeps(waited, cfg, start, Ticks);
    assert EntryOk(Find(t.queue, k), cfg, start, t.clock);
    assert DueTick(waited, cfg, Ticks, k) == 1;
    if k in Tags(TraceStep(waited, cfg, Ticks).queue) {
      PatienceFalls(waited, cfg, start, Ticks, k);
    } else {
      TickExpires(waited, cfg, k);
    }
  }

  lemma SilentPeriods(t: Traced, cfg: Config, start: U16, ms: nat, n: nat, k: nat) returns (t': Traced)
    requires 1 <= start && Inv(t, cfg, start) && 0 < cfg.Interval() <= ms && cfg.maxRetransmissionLimit < LARGEST
    requires k in Tags(t.queue) && n > 0
    ensures Inv(t', cfg, start) && RunFrom(t, cfg, Periods(ms, n)) == RunFrom(t', cfg, Periods(ms, n - 1))
    ensures HasExpired(t', k)
         || (k in Tags(t'.queue) && Patience(Find(t'.queue, k).e, cfg.maxRetransmissionLimit)
                                    < Patience(Find(t.queue, k).e, cfg.maxRetransmissionLimit))
  {
    t' := TraceStep(TraceStep(t, cfg, Waits(ms)), cfg, Ticks);
    OneSilentPeriod(t, cfg, start, ms, k);
    TwoEvents(t, cfg, Waits(ms), Ticks, Periods(ms, n - 1), k);
  }

  /** Whatever is in flight expires if nothing comes from the client for long
      enough. */
  lemma {:induction false} SilenceExpires(t: Traced, cfg: Config, start: U16, ms: nat, n: nat, k: nat)
    requires 1 <= start && Inv(t, cfg, start) && 0 < cfg.Interval() <= ms && cfg.maxRetransmissionLimit < LARGEST
    requires k in Tags(t.queue) && n >= Patience(Find(t.queue, k).e, cfg.maxRetransmissionLimit)
    ensures HasExpired(RunFrom(t, cfg, Periods(ms, n)), k)
    decreases n
  {
    assert EntryOk(Find(t.queue, k), cfg, start, t.clock);
    var t' := SilentPeriods(t, cfg, start, ms, n, k);
    if HasExpired(t', k) {
      FateIsFinal(t', cfg, start, Periods(ms, n - 1), k);
    } else {
      SilenceExpires(t', cfg, start, ms, n - 1, k);
    }
  }

  // ---------- at the largest limit, and with the timer off ----------

  /** The timer is off, or its counter wraps before it exceeds the limit. */
  predicate NeverCounts(cfg: Config) {
    cfg.maxRetransmissionLimit == LARGEST || cfg.Interval() == 0
  }

  predicate NothingExpired(t: Traced) {
    forall k <- t.gone :: t.gone[k].Left? ==> t.gone[k].fate != Expired
  }

  lemma StepExpiresNothing(t: Traced, cfg: Config, ev: Event)
    requires NeverCounts(cfg) && NothingExpired(t)
    ensures NothingExpired(TraceStep(t, cfg, ev))
  {
    forall k | k in TraceStep(t, cfg, ev).gone && k !in t.gone
      ensures var g := TraceStep(t, cfg, ev).gone[k]; g.Left? ==> g.fate != Expired
    {
      match ev {
        case Acknowledged(id) => var _ := LeaverOrigin(t.queue, OnAck(id), k);
        case Ticks => var _ := LeaverOrigin(t.queue, OnTimer(cfg.Interval(), cfg.maxRetransmissionLimit, t.clock), k);
        case TakenOver(_) => var _ := LeaverOrigin(t.queue, OnClear(), k);
        case Resumes => var _ := LeaverOrigin(t.queue, OnResume(t.clock), k);
        case _ =>
      }
    }
    forall k | k in TraceStep(t, cfg, ev).gone && k in t.gone
      ensures var g := TraceStep(t, cfg, ev).gone[k]; g.Left? ==> g.fate != Expired
    {
      match ev {
        case Acknowledged(id) => LeftBy(t, OnAck(id), k);
        case Ticks => LeftBy(t, OnTimer(cfg.Interval(), cfg.maxRetransmissionLimit, t.clock), k);
        case TakenOver(_) => LeftBy(t, OnClear(), k);
        case Resumes => LeftBy(t, OnResume(t.clock), k);
        case _ =>
      }
    }
  }

  /** What judging leaves under a number is what was there or a fate of that
      verdict. */
  lemma LeftBy(t: Traced, f: Tagged -> Verdict, k: nat)
    requires k in t.gone
    ensures k in Judge(t, f).gone
    ensures Judge(t, f).gone[k] == t.gone[k] || exists x :: x in t.queue && f(x).Leaves? && Judge(t, f).gone[k] == Left(f(x).fate, x)
  {
    if k in Leavers(t.queue, f) {
      var x := LeaverOrigin(t.queue, f, k);
    }
  }

  lemma {:induction false} ExpiresNothing(t: Traced, cfg: Config, evs: seq<Event>)
    requires NeverCounts(cfg) && NothingExpired(t)
    ensures NothingExpired(RunFrom(t, cfg, evs))
    decreases |evs|
  {
    if evs != [] {
      StepExpiresNothing(t, cfg, evs[0]);
      ExpiresNothing(TraceStep(t, cfg, evs[0]), cfg, evs[1..]);
    }
  }

  /** Nothing comes from the client, and the session is not taken over or moved. */
  predicate Silent(evs: seq<Event>) {
    forall i | 0 <= i < |evs| :: evs[i].Waits? || evs[i].Ticks?
  }

  lemma NothingLeaves(q: seq<Tagged>, interval: nat, now: nat)
    requires Increasing(q)
    ensures Tags(Survivors(q, OnTimer(interval, LARGEST, now))) == Tags(q)
  {
    var f := OnTimer(interval, LARGEST, now);
    assert forall x <- q :: KeepsTag(f, x);
    JudgedTags(q, f);
    if k :| k in Leavers(q, f) {
      var x := LeaverOrigin(q, f, k);
    }
  }

  lemma TickKeepsAll(t: Traced, cfg: Config)
    requires NeverCounts(cfg) && Increasing(t.queue)
    ensures Tags(TraceStep(t, cfg, Ticks).queue) == Tags(t.queue)
  {
    NothingLeaves(t.queue, cfg.Interval(), t.clock);
  }

  lemma {:induction false} SilenceKeepsAll(t: Traced, cfg: Config, start: U16, evs: seq<Event>)
    requires 1 <= start && Inv(t, cfg, start) && NeverCounts(cfg) && Silent(evs)
    ensures Tags(RunFrom(t, cfg, evs).queue) == Tags(t.queue)
    decreases |evs|
  {
    if evs != [] {
      if evs[0].Ticks? {
        TickKeepsAll(t, cfg);
      }
      StepKeeps(t, cfg, start, evs[0]);
      SilenceKeepsAll(TraceStep(t, cfg, evs[0]), cfg, start, evs[1..]);
    }
  }

  // ---------- waiting without an answer ----------

  lemma OnePeriod(t: Traced, cfg: Config, x: Tagged)
    requires cfg.Interval() > 0 && t.queue == [x] && x.e.timestamp <= t.clock
    requires cfg.maxRetransmissionLimit == LARGEST || x.e.retryCount < cfg.maxRetransmissionLimit
    ensures var waited := TraceStep(t, cfg, Waits(cfg.Interval()));
            var t' := TraceStep(waited, cfg, Ticks);
            && DueTick(t, cfg, Waits(cfg.Interval()), x.tag) == 0 && DueTick(waited, cfg, Ticks, x.tag) == 1
            && t'.queue == [PutUp(x, t'.clock)]
  {
    var waited := TraceStep(t, cfg, Waits(cfg.Interval()));
    FindUnique(waited.queue, x);
    var f := OnTimer(cfg.Interval(), cfg.maxRetransmissionLimit, waited.clock);
    assert waited.queue[..0] == [] && Survivors(waited.queue, f) == [f(x).x];
  }

  /** A retry counter after n more counts. */
  function CountedOn(a: U32, n: nat): U32
    decreases n
  {
    if n == 0 then a else CountedOn(Incremented(a), n - 1)
  }

  lemma {:induction false} CountsUp(a: U32, n: nat)
    requires a + n < U32_LIMIT
    ensures CountedOn(a, n) == a + n
    decreases n
  {
    if n > 0 {
      CountsUp(a + 1, n - 1);
    }
  }

  predicate HasRoom(cfg: Config, x: Tagged, n: nat) {
    cfg.maxRetransmissionLimit == LARGEST || x.e.retryCount + n <= cfg.maxRetransmissionLimit
  }

  lemma RetriedCounts(cfg: Config, x: Tagged, now: nat, n: nat)
    requires n > 0 && HasRoom(cfg, x, n)
    ensures var y := PutUp(x, now);
            y.e.timestamp == now && y.e.retryCount == Incremented(x.e.retryCount) && HasRoom(cfg, y, n - 1)
  {
  }

  lemma FirstPeriod(t: Traced, cfg: Config, x: Tagged, n: nat) returns (t': Traced, y: Tagged)
    requires cfg.Interval() > 0 && t.queue == [x] && x.e.timestamp <= t.clock && n > 0 && HasRoom(cfg, x, n)
    ensures t'.queue == [y] && y.e.timestamp <= t'.clock && y.tag == x.tag
    ensures y.e.retryCount == Incremented(x.e.retryCount) && HasRoom(cfg, y, n - 1)
    ensures RunFrom(t, cfg, Periods(cfg.Interval(), n)) == RunFrom(t', cfg, Periods(cfg.Interval(), n - 1))
    ensures DueTicks(t, cfg, Periods(cfg.Interval(), n), x.tag) == 1 + DueTicks(t', cfg, Periods(cfg.Interval(), n - 1), x.tag)
  {
    t' := TraceStep(TraceStep(t, cfg, Waits(cfg.Interval())), cfg, Ticks);
    OnePeriod(t, cfg, x);
    y := t'.queue[0];
    RetriedCounts(cfg, x, t'.clock, n);
    TwoEvents(t, cfg, Waits(cfg.Interval()), Ticks, Periods(cfg.Interval(), n - 1), x.tag);
  }

  /** A message that is alone in flight outlasts any number of periods within
      its limit; its counter counts them, as far as it can. */
  lemma {:induction false} Outlasts(t: Traced, cfg: Config, x: Tagged, n: nat)
    requires cfg.Interval() > 0 && t.queue == [x] && x.e.timestamp <= t.clock && HasRoom(cfg, x, n)
    ensures var q := RunFrom(t, cfg, Periods(cfg.Interval(), n)).queue;
            |q| == 1 && q[0].tag == x.tag && q[0].e.retryCount == CountedOn(x.e.retryCount, n)
    decreases n
  {
    if n > 0 {
      var t', y := FirstPeriod(t, cfg, x, n);
      Outlasts(t', cfg, y, n - 1);
    }
  }

  /** It is due once in every period. */
  lemma {:induction false} DueEveryPeriod(t: Traced, cfg: Config, x: Tagged, n: nat)
    requires cfg.Interval() > 0 && t.queue == [x] && x.e.timestamp <= t.clock && HasRoom(cfg, x, n)
    ensures DueTicks(t, cfg, Periods(cfg.Interval(), n), x.tag) == n
    decreases n
  {
    if n > 0 {
      var t', y := FirstPeriod(t, cfg, x, n);
      DueEveryPeriod(t', cfg, y, n - 1);
    }
  }

  /** A message is routed to the session and sent, and then nothing comes back. */
  function Unanswered(cfg: Config, p: PublishPacket, n: nat): seq<Event> {
    [Arrives(p), Delivers(true)] + Periods(cfg.Interval(), n)
  }

  lemma UnansweredRun(cfg: Config, start: U16, p: PublishPacket, n: nat)
    requires 1 <= start && cfg.Interval() > 0 && p.qos != AtMostOnce
    requires cfg.maxRetransmissionLimit == LARGEST || n <= cfg.maxRetransmissionLimit
    ensures var q := Run(cfg, start, Unanswered(cfg, p, n)).queue;
            |q| == 1 && q[0].tag == 0 && (n < U32_LIMIT ==> q[0].e.retryCount == n)
    ensures DueTicks(Start(start), cfg, Unanswered(cfg, p, n), 0) == n
  {
    var t1 := TraceStep(Start(start), cfg, Arrives(p));
    assert t1.mailbox == [Forwarded(p)] && t1.queue == [];
    var t2 := TraceStep(t1, cfg, Delivers(true));
    assert t2.queue == [Tagged(Tracked(Forwarded(p).publish, start, 0), 0, [0], [])];
    TwoEvents(Start(start), cfg, Arrives(p), Delivers(true), Periods(cfg.Interval(), n), 0);
    Outlasts(t2, cfg, t2.queue[0], n);
    DueEveryPeriod(t2, cfg, t2.queue[0], n);
    if n < U32_LIMIT {
      CountsUp(0, n);
    }
  }

  // ---------- the condition ----------

  /** After every run, whatever is in flight has expired when the timer has gone
      off more than 2 * limit times, at least its interval apart, and nothing has
      come from the client. */
  ghost predicate RunsIntoLimit(cfg: Config) {
    forall start: U16, evs, k: nat, ms: nat, n: nat |
      1 <= start && k in Tags(Run(cfg, start, evs).queue) && ms >= cfg.Interval() && n > 2 * cfg.maxRetransmissionLimit ::
      HasExpired(RunFrom(Run(cfg, start, evs), cfg, Periods(ms, n)), k)
  }

  lemma OneInFlight(cfg: Config, start: U16, p: PublishPacket)
    requires 1 <= start && p.qos != AtMostOnce
    ensures 0 in Tags(Run(cfg, start, [Arrives(p), Delivers(true)]).queue)
  {
    var t1 := TraceStep(Start(start), cfg, Arrives(p));
    assert t1.mailbox == [Forwarded(p)] && t1.queue == [];
    var x := Tagged(Tracked(Forwarded(p).publish, start, 0), 0, [0], []);
    var t2 := TraceStep(t1, cfg, Delivers(true));
    assert t2.queue == [x];
    TwoEvents(Start(start), cfg, Arrives(p), Delivers(true), [], 0);
    assert [Arrives(p), Delivers(true)] + [] == [Arrives(p), Delivers(true)];
    assert x in t2.queue;
  }

  /** Every message that is not acknowledged runs into the limit, after every
      run, exactly if the limit is below the largest counter value and the timer
      is on; otherwise nothing ever expires, in any run. */
  lemma ExpiryNeedsRoom(cfg: Config)
    ensures RunsIntoLimit(cfg) <==> cfg.maxRetransmissionLimit < LARGEST && cfg.Interval() > 0
    ensures !RunsIntoLimit(cfg) ==> forall start: U16, evs, k | 1 <= start :: !HasExpired(Run(cfg, start, evs), k)
  {
    if NeverCounts(cfg) {
      forall start: U16, evs, k | 1 <= start
        ensures !HasExpired(Run(cfg, start, evs), k)
      {
        ExpiresNothing(Start(start), cfg, evs);
      }
      OutlastsSilence(cfg);
    } else {
      forall start: U16, evs, k: nat, ms: nat, n: nat |
        1 <= start && k in Tags(Run(cfg, start, evs).queue) && ms >= cfg.Interval() && n > 2 * cfg.maxRetransmissionLimit
        ensures HasExpired(RunFrom(Run(cfg, start, evs), cfg, Periods(ms, n)), k)
      {
        var t := Run(cfg, start, evs);
        RunKeeps(cfg, start, evs);
        assert EntryOk(Find(t.queue, k), cfg, start, t.clock);
        SilenceExpires(t, cfg, start, ms, n, k);
      }
    }
  }

  lemma OutlastsSilence(cfg: Config)
    requires NeverCounts(cfg)
    ensures !RunsIntoLimit(cfg)
  {
    var evs := [Arrives(PublishPacket([97], None, [], AtLeastOnce, false, false)), Delivers(true)];
    var n := 2 * cfg.maxRetransmissionLimit + 1;
    OneInFlight(cfg, 1, evs[0].p);
    ExpiresNothing(Start(1), cfg, evs);
    ExpiresNothing(Run(cfg, 1, evs), cfg, Periods(cfg.Interval(), n));
    assert !HasExpired(RunFrom(Run(cfg, 1, evs), cfg, Periods(cfg.Interval(), n)), 0);
  }

  /** At the largest limit or with the timer off, whatever is in flight after a
      run stays in flight however long nothing comes from the client. */
  lemma NeverGivenUp(cfg: Config, start: U16, evs: seq<Event>, silence: seq<Event>, k: nat)
    requires 1 <= start && NeverCounts(cfg) && Silent(silence)
    requires k in Tags(Run(cfg, start, evs).queue)
    ensures k in Tags(RunFrom(Run(cfg, start, evs), cfg, silence).queue)
  {
    RunKeeps(cfg, start, evs);
    SilenceKeepsAll(Run(cfg, start, evs), cfg, start, silence);
  }
}
