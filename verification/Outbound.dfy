/** Outbound QoS 1 and QoS 2 delivery over whole runs of a session. The
    session's own steps are followed by a machine that carries a history along:
    every message that is given a packet identifier is numbered in that order,
    and the times at which it was put up for transmission are written down. */
module Outbound {
  import opened Base
  import opened Packets
  import opened Storage
  import opened Engine
  import opened Persistence

  // ---------- the session ----------

  datatype Plain = Plain(core: Core, mailbox: seq<Packet>, clock: nat)

  datatype Event =
    | Arrives(p: PublishPacket)       // the router forwards a message to this session
    | Delivers(ok: bool)              // the head of the mailbox is handled; the write may fail
    | Acknowledged(id: U16)           // PUBACK or PUBCOMP
    | ReceivedBy(id: U16, ok: bool)   // PUBREC; the PUBREL in reply may fail to be written
    | Ticks                           // the retransmission timer
    | TakenOver(clean: bool)
    | Resumes                         // saved, and restored into a new session
    | Waits(ms: nat)

  /** What the router puts into a mailbox. */
  function Forwarded(p: PublishPacket): Packet {
    Publish(p.(packetId := None, dup := false))
  }

  function TickOf(q: seq<Entry>, cfg: Config, now: nat): Tick {
    if cfg.Interval() == 0 then Tick(q, [], [])
    else OnTick(q, cfg.Interval(), cfg.maxRetransmissionLimit, now)
  }

  function Step(s: Plain, cfg: Config, ev: Event): Plain {
    match ev
    case Arrives(p) => s.(mailbox := s.mailbox + [Forwarded(p)])
    case Delivers(ok) =>
      if s.mailbox == [] then s
      else s.(core := OnMessage(s.core, s.mailbox[0], ok, s.clock), mailbox := s.mailbox[1..])
    case Acknowledged(id) => s.(core := s.core.(inflight := RemoveId(s.core.inflight, id)))
    case ReceivedBy(id, _) => s.(core := s.core.(inflight := OnPubRec(s.core.inflight, id, s.clock)))
    case Ticks =>
      var t := TickOf(s.core.inflight, cfg, s.clock);
      s.(core := s.core.(inflight := t.queue), mailbox := s.mailbox + AsMessages(t.publishes))
    case TakenOver(clean) => s.(core := OnTakeover(s.core, clean, true))
    case Resumes => s.(core := Resumed(s.core, s.clock), mailbox := [])
    case Waits(ms) => s.(clock := s.clock + ms)
  }

  /** What an event makes the session write to its client. */
  function Written(s: Plain, cfg: Config, ev: Event): seq<Packet> {
    match ev
    case Delivers(ok) => if ok && s.mailbox != [] then OptionSeq(MessageWrites(s.core, s.mailbox[0])) else []
    case ReceivedBy(id, ok) => if ok then [PubRel(id)] else []
    case Ticks => AsPubRels(TickOf(s.core.inflight, cfg, s.clock).pubrels)
    case TakenOver(clean) => [ConnAck(!clean, 0)]
    case _ => []
  }

  // ---------- the session with its history ----------

  /** An in-flight entry, its number, when it was put up for transmission, and
      when its PUBREL was due: at the PUBREC and whenever the timer repeats it. */
  datatype Tagged = Tagged(e: Entry, tag: nat, sent: seq<nat>, rels: seq<nat>)

  datatype Fate = Acked | Expired | Cleared

  /** How a numbered message left: its first write failed, or it was in flight
      and met its fate. */
  datatype Gone = NeverSent | Left(fate: Fate, last: Tagged)

  datatype Traced = Traced(
    nextPacketId: U16,
    queue: seq<Tagged>,
    mailbox: seq<Packet>,
    clock: nat,
    issued: nat,
    taken: seq<PublishPacket>,   // the messages in the order of their numbers, as they stood in the mailbox
    gone: map<nat, Gone>)

  function Entries(q: seq<Tagged>): seq<Entry> {
    seq(|q|, i requires 0 <= i < |q| => q[i].e)
  }

  /** The session of which this is the history. */
  function Erase(t: Traced): Plain {
    Plain(Core(t.nextPacketId, Entries(t.queue), map[]), t.mailbox, t.clock)
  }

  datatype Verdict = Stays(x: Tagged) | Leaves(fate: Fate)

  function Survivors(q: seq<Tagged>, f: Tagged -> Verdict): seq<Tagged> {
    if q == [] then []
    else
      var before := Survivors(q[..|q| - 1], f);
      var v := f(q[|q| - 1]);
      if v.Stays? then before + [v.x] else before
  }

  function Leavers(q: seq<Tagged>, f: Tagged -> Verdict): map<nat, Gone> {
    if q == [] then map[]
    else
      var before := Leavers(q[..|q| - 1], f);
      var last := q[|q| - 1];
      var v := f(last);
      if v.Leaves? then before[last.tag := Left(v.fate, last)] else before
  }

  function OnAck(id: U16): Tagged -> Verdict {
    (x: Tagged) => if x.e.packet.packetId != Some(id) then Stays(x) else Leaves(Acked)
  }

  /** The timer puts the entry up for transmission again. */
  function PutUp(x: Tagged, now: nat): Tagged {
    x.(e := Retried(x.e, now), sent := x.sent + [now],
       rels := if x.e.qos2State == Some(AwaitingPubComp) then x.rels + [now] else x.rels)
  }

  function OnTimer(interval: nat, limit: U32, now: nat): Tagged -> Verdict {
    (x: Tagged) => if !Due(x.e, interval, now) then Stays(x)
         else if Expires(x.e, interval, limit, now) then Leaves(Expired)
         else Stays(PutUp(x, now))
  }

  function OnClear(): Tagged -> Verdict {
    (x: Tagged) => Leaves(Cleared)
  }

  function OnResume(now: nat): Tagged -> Verdict {
    (x: Tagged) => Stays(x.(e := x.e.(timestamp := now)))
  }

  function TagReceived(q: seq<Tagged>, id: U16, now: nat): seq<Tagged> {
    if q == [] then []
    else if AwaitsRec(q[0].e, id) then [q[0].(e := Received(q[0].e, now), rels := [now])] + q[1..]
    else [q[0]] + TagReceived(q[1..], id, now)
  }

  function Judge(t: Traced, f: Tagged -> Verdict): Traced {
    t.(queue := Survivors(t.queue, f), gone := t.gone + Leavers(t.queue, f))
  }

  function TraceDeliver(t: Traced, ok: bool): Traced {
    if t.mailbox == [] then t
    else
      var m := t.mailbox[0];
      var t' := t.(mailbox := t.mailbox[1..]);
      if !Fresh(m) then t'
      else
        var numbered := t'.(nextPacketId := NextId(t.nextPacketId), issued := t.issued + 1, taken := t.taken + [m.publish]);
        if ok then
          numbered.(queue := t.queue + [Tagged(Tracked(m.publish, t.nextPacketId, t.clock), t.issued, [t.clock], [])])
        else numbered.(gone := t.gone[t.issued := NeverSent])
  }

  function TraceStep(t: Traced, cfg: Config, ev: Event): Traced {
    match ev
    case Arrives(p) => t.(mailbox := t.mailbox + [Forwarded(p)])
    case Delivers(ok) => TraceDeliver(t, ok)
    case Acknowledged(id) => Judge(t, OnAck(id))
    case ReceivedBy(id, _) => t.(queue := TagReceived(t.queue, id, t.clock))
    case Ticks =>
      if cfg.Interval() == 0 then t
      else Judge(t, OnTimer(cfg.Interval(), cfg.maxRetransmissionLimit, t.clock)).(
             mailbox := t.mailbox + AsMessages(TickOf(Entries(t.queue), cfg, t.clock).publishes))
    case TakenOver(clean) => if clean then Judge(t, OnClear()) else t
    case Resumes => Judge(t, OnResume(t.clock)).(mailbox := [])
    case Waits(ms) => t.(clock := t.clock + ms)
  }

  // ---------- the history is faithful ----------

  lemma EntriesFront(q: seq<Tagged>)
    requires q != []
    ensures Entries(q) != []
    ensures Entries(q)[..|q| - 1] == Entries(q[..|q| - 1])
    ensures Entries(q)[|q| - 1] == q[|q| - 1].e
  {
  }

  lemma EntriesMore(q: seq<Tagged>, x: Tagged)
    ensures Entries(q + [x]) == Entries(q) + [x.e]
  {
  }

  lemma {:induction false} EraseAck(q: seq<Tagged>, id: U16)
    ensures Entries(Survivors(q, OnAck(id))) == RemoveId(Entries(q), id)
    decreases |q|
  {
    if q != [] {
      EraseAck(q[..|q| - 1], id);
      EntriesFront(q);
      EntriesMore(Survivors(q[..|q| - 1], OnAck(id)), q[|q| - 1]);
    }
  }

  lemma {:induction false} EraseTick(q: seq<Tagged>, interval: nat, limit: U32, now: nat)
    ensures Entries(Survivors(q, OnTimer(interval, limit, now))) == OnTick(Entries(q), interval, limit, now).queue
    decreases |q|
  {
    if q != [] {
      var f := OnTimer(interval, limit, now);
      var front, last := q[..|q| - 1], q[|q| - 1];
      EraseTick(front, interval, limit, now);
      EntriesFront(q);
      if f(last).Stays? {
        EntriesMore(Survivors(front, f), f(last).x);
      }
    }
  }

  lemma {:induction false} EraseClear(q: seq<Tagged>)
    ensures Survivors(q, OnClear()) == []
    decreases |q|
  {
    if q != [] {
      EraseClear(q[..|q| - 1]);
    }
  }

  lemma {:induction false} EraseResume(q: seq<Tagged>, now: nat)
    ensures Entries(Survivors(q, OnResume(now))) == Stamped(Entries(q), now)
    decreases |q|
  {
    if q != [] {
      var front, last := q[..|q| - 1], q[|q| - 1];
      EraseResume(front, now);
      EntriesMore(Survivors(front, OnResume(now)), OnResume(now)(last).x);
    }
  }

  lemma {:induction false} EraseReceived(q: seq<Tagged>, id: U16, now: nat)
    ensures Entries(TagReceived(q, id, now)) == OnPubRec(Entries(q), id, now)
    decreases |q|
  {
    if q != [] {
      EraseReceived(q[1..], id, now);
      assert Entries(q)[1..] == Entries(q[1..]);
    }
  }

  /** The session does exactly what it would do without the history. */
  lemma HistoryIsFaithful(t: Traced, cfg: Config, ev: Event)
    ensures Erase(TraceStep(t, cfg, ev)) == Step(Erase(t), cfg, ev)
  {
    match ev {
      case Delivers(ok) =>
        if t.mailbox != [] && Fresh(t.mailbox[0]) && ok {
          EntriesMore(t.queue, Tagged(Tracked(t.mailbox[0].publish, t.nextPacketId, t.clock), t.issued, [t.clock], []));
        }
      case Acknowledged(id) => EraseAck(t.queue, id);
      case ReceivedBy(id, _) => EraseReceived(t.queue, id, t.clock);
      case Ticks =>
        if cfg.Interval() > 0 {
          EraseTick(t.queue, cfg.Interval(), cfg.maxRetransmissionLimit, t.clock);
        }
      case TakenOver(clean) => EraseClear(t.queue);
      case Resumes => EraseResume(t.queue, t.clock);
      case _ =>
    }
  }
}
