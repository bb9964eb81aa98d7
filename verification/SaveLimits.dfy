/** When the database takes what a session saves, and when it gives it back:
    over whole runs, and for every configuration. */
module SaveLimits {
  import opened Base
  import opened Packets
  import opened Storage
  import opened Engine
  import opened Persistence
  import opened Outbound
  import opened OutboundProofs
  import opened OutboundTheorems
  import opened OutboundExpiry
  import EndToEnd
  import EndToEndProofs
  import Sqlite
  import SqliteProofs

  /** The session of a run saves itself, whatever its will, keep-alive and
      subscriptions are. */
  ghost predicate SavedAfter(t: Traced, saved: SavedSession, client: Text, now: int) {
    exists k: Kept :: k.core == Erase(t).core && Saves(saved, k, client, now)
  }

  lemma SavedQueue(t: Traced, saved: SavedSession, client: Text, now: int)
    requires SavedAfter(t, saved, client, now)
    ensures saved.session.clientId == client && saved.inflight == SavedInflight(Entries(t.queue), client, now)
    ensures SqliteProofs.OwnRows(saved)
  {
  }

  // ---------- saving ----------

  /** A multiple of 65535 allocations lies between the two. */
  predicate FullRounds(k: nat, l: nat) {
    k <= l && (l - k) % 65535 == 0
  }

  lemma SharedIds(q: seq<Tagged>, start: U16)
    requires 1 <= start && forall i | 0 <= i < |q| :: q[i].e.packet.packetId == Some(IdOf(start, q[i].tag))
    requires Increasing(q)
    ensures forall i, j | 0 <= i < j < |q| ::
              Entries(q)[i].packet.packetId == Entries(q)[j].packet.packetId <==> FullRounds(q[i].tag, q[j].tag)
  {
    forall i, j | 0 <= i < j < |q|
      ensures Entries(q)[i].packet.packetId == Entries(q)[j].packet.packetId <==> FullRounds(q[i].tag, q[j].tag)
    {
      SameId(start, q[i].tag, q[j].tag);
    }
  }

  lemma QueueSaves(t: Traced, db: Sqlite.Database, saved: SavedSession, client: Text, now: int)
    requires SavedAfter(t, saved, client, now)
    requires forall i | 0 <= i < |t.queue| :: t.queue[i].e.packet.packetId.Some?
    ensures var q := Entries(t.queue);
            Sqlite.SaveResult(db, saved).Some?
            <==> forall i, j | 0 <= i < j < |q| :: q[i].packet.packetId != q[j].packet.packetId
  {
    var k: Kept :| k.core == Erase(t).core && Saves(saved, k, client, now);
    SqliteProofs.SessionSaveGoesThrough(db, saved, k, client, now);
  }

  /** After every run the database takes what the session saves exactly if no
      two messages in flight are a multiple of 65535 allocations apart. */
  lemma RunSaves(cfg: Config, start: U16, evs: seq<Event>, db: Sqlite.Database, saved: SavedSession, client: Text, now: int)
    requires 1 <= start && SavedAfter(Run(cfg, start, evs), saved, client, now)
    ensures var q := Run(cfg, start, evs).queue;
            Sqlite.SaveResult(db, saved).Some? <==> forall i, j | 0 <= i < j < |q| :: !FullRounds(q[i].tag, q[j].tag)
  {
    var t := Run(cfg, start, evs);
    IdentifiersInOrder(cfg, start, evs);
    SharedIds(t.queue, start);
    QueueSaves(t, db, saved, client, now);
  }

  /** n messages are routed to the session and sent, one after the other. */
  function Burst(p: PublishPacket, n: nat): seq<Event> {
    if n == 0 then [] else [Arrives(p), Delivers(true)] + Burst(p, n - 1)
  }

  lemma OneMore(t: Traced, cfg: Config, p: PublishPacket, n: nat) returns (t': Traced, x: Tagged)
    requires t.mailbox == [] && p.qos != AtMostOnce && n > 0
    ensures t'.mailbox == [] && t'.queue == t.queue + [x] && x.tag == t.issued && t'.issued == t.issued + 1
    ensures RunFrom(t, cfg, Burst(p, n)) == RunFrom(t', cfg, Burst(p, n - 1))
  {
    var t1 := TraceStep(t, cfg, Arrives(p));
    assert t1.mailbox == [Forwarded(p)];
    t' := TraceStep(t1, cfg, Delivers(true));
    x := t'.queue[|t.queue|];
    TwoEvents(t, cfg, Arrives(p), Delivers(true), Burst(p, n - 1), 0);
  }

  lemma {:induction false} BurstRun(t: Traced, cfg: Config, p: PublishPacket, n: nat)
    requires t.mailbox == [] && p.qos != AtMostOnce
    ensures var q := RunFrom(t, cfg, Burst(p, n)).queue;
            && |q| == |t.queue| + n && t.queue <= q
            && forall i | |t.queue| <= i < |q| :: q[i].tag == t.issued + i - |t.queue|
    decreases n
  {
    if n > 0 {
      var t', x := OneMore(t, cfg, p, n);
      BurstRun(t', cfg, p, n - 1);
    }
  }

  /** A run after which nothing can be saved: 65536 messages, none of them
      answered, so that the last has the identifier of the first. */
  lemma WrappedCannotSave(cfg: Config, start: U16, p: PublishPacket, db: Sqlite.Database, saved: SavedSession,
                          client: Text, now: int)
    requires 1 <= start && p.qos != AtMostOnce
    requires SavedAfter(Run(cfg, start, Burst(p, 65536)), saved, client, now)
    ensures Sqlite.SaveResult(db, saved) == None
  {
    RunSaves(cfg, start, Burst(p, 65536), db, saved, client, now);
    BurstRun(Start(start), cfg, p, 65536);
    var q := Run(cfg, start, Burst(p, 65536)).queue;
    assert q[0].tag == 0 && q[65535].tag == 65535;
    assert FullRounds(q[0].tag, q[65535].tag);
  }

  const EMPTY := Sqlite.Database(map[], map[], map[], map[])

  /** A session that has sent a burst of 65536 messages holds a received one, and an
      empty database is asked to save it. */
  function AfterBurst(cfg: Config, start: U16, p: PublishPacket): Core {
    Erase(Run(cfg, start, Burst(p, 65536))).core
  }

  function RolledBack(c: Core, id: U16, m: Message, client: Text, now: int): EndToEnd.Step {
    var held := EndToEnd.PacketFor(m, id, false);
    EndToEnd.RestartFromDatabase(
      EMPTY, Kept(c.(inbound := map[id := held]), 0, None, map[]),
      SavedSession(SessionRow(client, c.nextPacketId, 0, None, now, now), [], SavedInflight(c.inflight, client, now),
                   [SavedInbound(id, held, client, now)]),
      client, now, EndToEnd.Loaded(Some([]), []), 0)
  }

  lemma NothingLoads(client: Text)
    ensures EndToEnd.Loads(EndToEnd.Loaded(Some([]), []), EMPTY, client)
  {
    var inflight: seq<((Text, U16), Sqlite.InflightColumns)> := [];
    assert Sqlite.Selects(inflight, EMPTY.inflight, client, (columns: Sqlite.InflightColumns) => columns.createdAt)
           && Sqlite.AllReadable(inflight) && Sqlite.InflightRowsOf(inflight) == [];
    var inbound: seq<((Text, U16), Sqlite.InboundColumns)> := [];
    assert Sqlite.Selects(inbound, EMPTY.inbound, client, (columns: Sqlite.InboundColumns) => columns.receivedAt)
           && Sqlite.InboundRowsOf(inbound) == [];
  }

  lemma RollsBack(c: Core, id: U16, m: Message, client: Text, now: int, i: nat, j: nat)
    requires forall e <- c.inflight :: e.packet.packetId.Some?
    requires i < j < |c.inflight| && c.inflight[i].packet.packetId == c.inflight[j].packet.packetId
    ensures var restart := RolledBack(c, id, m, client, now);
            && Sqlite.SaveResult(restart.db, restart.saved) == None
            && EndToEnd.ComesBack(EndToEndProofs.Turned(c, id, m).server, restart.db, restart.kept, restart.saved, client,
                                  now, restart.loaded)
  {
    var restart := RolledBack(c, id, m, client, now);
    assert Saves(restart.saved, restart.kept, client, now) by {
      var row := SavedInbound(id, EndToEnd.PacketFor(m, id, false), client, now);
      assert row in [row];
    }
    SqliteProofs.SessionSaveGoesThrough(EMPTY, restart.saved, restart.kept, client, now);
    NothingLoads(client);
  }

  /** A received message that is lost, and acknowledged to its client, because the
      messages on the way out cannot be saved. */
  lemma RollbackLosesMessage(cfg: Config, start: U16, p: PublishPacket, id: U16, m: Message, client: Text, now: int)
    requires 1 <= start && p.qos != AtMostOnce
    ensures var c := AfterBurst(cfg, start, p);
            var w := EndToEnd.Run(c, [EndToEnd.Submit(id, m), EndToEnd.ServerReceives(true), EndToEnd.ClientReceives,
                                      RolledBack(c, id, m, client, now), EndToEnd.Resend(id),
                                      EndToEnd.ServerReceives(true), EndToEnd.ClientReceives]);
            w.done == {0} && w.exchanges == map[] && w.released == []
  {
    var t, c := Run(cfg, start, Burst(p, 65536)), AfterBurst(cfg, start, p);
    AlwaysWellKept(cfg, start, Burst(p, 65536));
    IdentifiersInOrder(cfg, start, Burst(p, 65536));
    BurstRun(Start(start), cfg, p, 65536);
    assert t.queue[0].tag == 0 && t.queue[65535].tag == 65535;
    SameId(start, 0, 65535);
    RollsBack(c, id, m, client, now, 0, 65535);
    EndToEndProofs.RolledBackLoses(c, id, m, RolledBack(c, id, m, client, now));
  }

  // ---------- restoring ----------

  /** In every run the step `Resumes` is what saving and restoring does to the
      delivery state. */
  lemma ResumesIsRestore(cfg: Config, start: U16, evs: seq<Event>, saved: SavedSession, client: Text, now: int)
    requires 1 <= start && SavedAfter(Run(cfg, start, evs), saved, client, now)
    ensures var s := Erase(Run(cfg, start, evs));
            Step(s, cfg, Resumes) == Plain(Restored(saved, s.clock), [], s.clock)
  {
    var t := Run(cfg, start, evs);
    var k: Kept :| k.core == Erase(t).core && Saves(saved, k, client, now);
    AlwaysWellKept(cfg, start, evs);
    SaveRestoreIdentity(saved, k, client, now, t.clock);
  }

  /** Restored from the database, the messages in flight may stand in any order:
      what can be loaded is exactly the saved rows, in whatever order. */
  lemma DatabaseRestoresAnyOrder(t: Traced, db: Sqlite.Database, saved: SavedSession, client: Text, now: int,
                                 rows: seq<InflightRow>)
    requires SavedAfter(t, saved, client, now) && Sqlite.SaveResult(db, saved).Some?
    requires forall i | 0 <= i < |t.queue| :: t.queue[i].e.retryCount < Sqlite.I32_LIMIT
    ensures Sqlite.InflightLoaded(Some(rows), Sqlite.SaveResult(db, saved).value.inflight, client)
       <==> SqliteProofs.SameRows(rows, SavedInflight(Entries(t.queue), client, now))
  {
    SavedQueue(t, saved, client, now);
    forall r | r in saved.inflight
      ensures r.createdAt == now && r.retryCount < Sqlite.I32_LIMIT
    {
      var i :| 0 <= i < |saved.inflight| && saved.inflight[i] == r;
      assert r == SavedEntry(t.queue[i].e, client, now);
    }
    SqliteProofs.AnyOrderLoads(db, saved, rows, now);
  }

  // ---------- reading back ----------

  /** The session of a run saves itself, and `r` is what the database then
      gives back of its in-flight messages. */
  ghost predicate ReadBack(t: Traced, db: Sqlite.Database, saved: SavedSession, client: Text, now: int,
                           r: Option<seq<InflightRow>>)
  {
    && SavedAfter(t, saved, client, now)
    && Sqlite.SaveResult(db, saved).Some?
    && Sqlite.InflightLoaded(r, Sqlite.SaveResult(db, saved).value.inflight, client)
  }

  /** After every run the in-flight messages that were saved can be read back
      exactly if no retry counter needs more than 31 bits. */
  lemma RunReads(t: Traced, db: Sqlite.Database, saved: SavedSession, client: Text, now: int,
                 r: Option<seq<InflightRow>>)
    requires ReadBack(t, db, saved, client, now, r)
    ensures r.Some? <==> forall i | 0 <= i < |t.queue| :: t.queue[i].e.retryCount < Sqlite.I32_LIMIT
  {
    SavedQueue(t, saved, client, now);
    SqliteProofs.JustSavedLoads(db, saved, r);
    var rows := saved.inflight;
    assert forall i | 0 <= i < |t.queue| :: rows[i] in rows && rows[i].retryCount == t.queue[i].e.retryCount;
  }

  /** Whatever a session of this configuration has saved it can read back. */
  ghost predicate AlwaysReadable(cfg: Config) {
    forall start: U16, evs, db, saved, client, now, r |
      1 <= start && ReadBack(Run(cfg, start, evs), db, saved, client, now, r) :: r.Some?
  }

  /** What a new session saves after a run, without will and subscriptions. */
  function PlainSave(t: Traced, client: Text, now: int): SavedSession {
    SavedSession(SessionRow(client, t.nextPacketId, 0, None, now, now), [], SavedInflight(Entries(t.queue), client, now), [])
  }

  lemma PlainSaves(t: Traced, client: Text, now: int)
    ensures SavedAfter(t, PlainSave(t, client, now), client, now)
  {
    assert Saves(PlainSave(t, client, now), Kept(Erase(t).core, 0, None, map[]), client, now);
  }

  /** A message whose counter has been counted to the 32nd bit is saved and
      cannot be read back. */
  lemma OutgrownIsLost(cfg: Config, start: U16, p: PublishPacket, db: Sqlite.Database, client: Text, now: int)
    requires 1 <= start && p.qos != AtMostOnce && cfg.Interval() > 0 && cfg.maxRetransmissionLimit >= Sqlite.I32_LIMIT
    ensures var saved := PlainSave(Run(cfg, start, Unanswered(cfg, p, Sqlite.I32_LIMIT)), client, now);
            ReadBack(Run(cfg, start, Unanswered(cfg, p, Sqlite.I32_LIMIT)), db, saved, client, now, None)
  {
    var evs := Unanswered(cfg, p, Sqlite.I32_LIMIT);
    var t := Run(cfg, start, evs);
    var saved := PlainSave(t, client, now);
    UnansweredRun(cfg, start, p, Sqlite.I32_LIMIT);
    PlainSaves(t, client, now);
    RunSaves(cfg, start, evs, db, saved, client, now);
    SavedQueue(t, saved, client, now);
    SingleRow(db, saved, client);
  }

  lemma SingleRow(db: Sqlite.Database, saved: SavedSession, client: Text)
    requires SqliteProofs.OwnRows(saved) && saved.session.clientId == client && Sqlite.SaveResult(db, saved).Some?
    requires |saved.inflight| == 1 && saved.inflight[0].retryCount >= Sqlite.I32_LIMIT
    ensures Sqlite.InflightLoaded(None, Sqlite.SaveResult(db, saved).value.inflight, client)
  {
    var table, entry := Sqlite.SaveResult(db, saved).value.inflight, Sqlite.InflightEntry(saved.inflight[0]);
    SqliteProofs.InflightReplaced(db.inflight, saved.inflight, client);
    assert Sqlite.Entries(saved.inflight, Sqlite.InflightEntry) == [entry];
    assert !Sqlite.Readable([entry][0].1);
    assert Sqlite.Selects([entry], table, client, (columns: Sqlite.InflightColumns) => columns.createdAt)
           && !Sqlite.AllReadable([entry]);
  }

  /** What is saved can always be read back exactly if the retry limit fits 31
      bits or the timer is off. */
  lemma ReadableByLimit(cfg: Config)
    ensures AlwaysReadable(cfg) <==> cfg.maxRetransmissionLimit < Sqlite.I32_LIMIT || cfg.Interval() == 0
  {
    if cfg.maxRetransmissionLimit < Sqlite.I32_LIMIT || cfg.Interval() == 0 {
      forall start: U16, evs, db, saved, client, now, r |
        1 <= start && ReadBack(Run(cfg, start, evs), db, saved, client, now, r)
        ensures r.Some?
      {
        var t := Run(cfg, start, evs);
        RunKeeps(cfg, start, evs);
        assert forall i | 0 <= i < |t.queue| :: EntryOk(t.queue[i], cfg, start, t.clock);
        RunReads(t, db, saved, client, now, r);
      }
    } else {
      var p, db := PublishPacket([97], None, [], AtLeastOnce, false, false), Sqlite.Database(map[], map[], map[], map[]);
      OutgrownIsLost(cfg, 1, p, db, [], 0);
    }
  }
}
