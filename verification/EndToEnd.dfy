/** QoS 2 end to end (section 4.3.3 of MQTT 3.1.1): a client that resends what
    has not been acknowledged, two channels that keep order and lose everything
    when the connection breaks, and the session's own handlers at the other end.
    Packet identifiers are reused as soon as the client may reuse them.

    The system itself is `Plain`. `World` is the same system with a history:
    every submitted message is numbered, and the numbers are carried along.
    Erasing them gives the system back, step by step. */
module EndToEnd {
  import opened Base
  import opened Packets
  import opened Storage
  import opened Engine
  import opened Persistence
  import Sqlite

  datatype Phase = AwaitsPubRec | AwaitsPubComp

  /** What the database gives back of a client's messages. */
  datatype Loaded = Loaded(inflight: Option<seq<InflightRow>>, inbound: seq<InboundRow>)

  datatype Step =
    | Submit(id: U16, m: Message)
    | Resend(id: U16)
    | ClientReceives
    | ServerReceives(ok: bool)       // whether the reply can be written
    | Reconnect                      // the session is taken over, with its state
    | Restart(kept: Kept, saved: SavedSession, client: Text, now: int, later: nat)
                                     // what was saved, if `saved` is that, is restored
    | RestartFromDatabase(db: Sqlite.Database, kept: Kept, saved: SavedSession, client: Text, now: int, loaded: Loaded,
                          later: nat)
                                     // the same with the database, which may roll the save back
    | Otherwise(server: Core)        // anything that leaves the received messages alone

  function PacketFor(m: Message, id: U16, dup: bool): PublishPacket {
    PublishPacket(m.topic, Some(id), m.payload, ExactlyOnce, m.retain, dup)
  }

  /** The database after it was asked to save. */
  function Asked(db: Sqlite.Database, saved: SavedSession): Sqlite.Database {
    var r := Sqlite.SaveResult(db, saved);
    if r.Some? then r.value else db
  }

  /** What the database gives back is read from it. */
  ghost predicate Loads(loaded: Loaded, db: Sqlite.Database, client: Text) {
    && Sqlite.InflightLoaded(loaded.inflight, db.inflight, client)
    && Sqlite.InboundLoaded(loaded.inbound, db.inbound, client)
  }

  /** What a new session makes of it; in-flight messages that cannot be read are
      left out. */
  function ServerFrom(db: Sqlite.Database, client: Text, loaded: Loaded, later: nat): Core {
    if client !in db.sessions then Core(1, [], map[])
    else Core(db.sessions[client].nextPacketId,
              RestoredInflight(if loaded.inflight.Some? then loaded.inflight.value else [], later),
              RestoredInbound(loaded.inbound))
  }

  /** The database is asked to save the session, and this is read back. */
  ghost predicate ComesBack(before: Core, db: Sqlite.Database, kept: Kept, saved: SavedSession, client: Text, now: int,
                            loaded: Loaded)
  {
    kept.core == before && Saves(saved, kept, client, now) && Loads(loaded, Asked(db, saved), client)
  }

  // ---------- the system ----------

  datatype Unfinished = Unfinished(m: Message, phase: Phase)

  datatype Plain = Plain(
    unfinished: map<U16, Unfinished>,   // the client's side
    up: seq<Packet>,
    down: seq<Packet>,
    server: Core,
    released: seq<PublishPacket>)       // handed on by the server, in this order

  function PlainSubmit(s: Plain, id: U16, m: Message): Plain {
    if id in s.unfinished then s
    else s.(unfinished := s.unfinished[id := Unfinished(m, AwaitsPubRec)],
            up := s.up + [Publish(PacketFor(m, id, false))])
  }

  function PlainResend(s: Plain, id: U16): Plain {
    if id !in s.unfinished then s
    else
      var x := s.unfinished[id];
      s.(up := s.up + [if x.phase == AwaitsPubRec then Publish(PacketFor(x.m, id, true)) else PubRel(id)])
  }

  function PlainClientReceives(s: Plain): Plain {
    if s.down == [] then s
    else
      var s' := s.(down := s.down[1..]);
      match s.down[0]
      case PubRec(id) =>
        if id !in s.unfinished then s'
        else s'.(unfinished := s.unfinished[id := s.unfinished[id].(phase := AwaitsPubComp)], up := s.up + [PubRel(id)])
      case PubComp(id) =>
        if id in s.unfinished && s.unfinished[id].phase == AwaitsPubComp
        then s'.(unfinished := s.unfinished - {id}) else s'
      case _ => s'
  }

  /** The first packet has been handled; a reply that cannot be written breaks
      the connection. */
  function Answered(s: Plain, e: Effect, ok: bool): Plain
    requires s.up != []
  {
    var s' := s.(server := e.core, released := s.released + OptionSeq(e.offered));
    if ok then s'.(up := s.up[1..], down := s.down + OptionSeq(e.reply)) else s'.(up := [], down := [])
  }

  function PlainServerReceives(s: Plain, ok: bool): Plain {
    if s.up == [] then s
    else
      match s.up[0]
      case Publish(p) => Answered(s, OnPublish(s.server, p, ok), ok)
      case PubRel(id) => Answered(s, OnPubRel(s.server, id, ok), ok)
      case _ => s
  }

  /** One step; a step that is not possible changes nothing. */
  ghost function PlainDo(s: Plain, step: Step): Plain {
    match step
    case Submit(id, m) => PlainSubmit(s, id, m)
    case Resend(id) => PlainResend(s, id)
    case ClientReceives => PlainClientReceives(s)
    case ServerReceives(ok) => PlainServerReceives(s, ok)
    case Reconnect => s.(up := [], down := [], server := OnTakeover(s.server, false, true))
    case Restart(kept, saved, client, now, later) =>
      if kept.core == s.server && Saves(saved, kept, client, now)
      then s.(up := [], down := [], server := Restored(saved, later)) else s
    case RestartFromDatabase(db, kept, saved, client, now, loaded, later) =>
      if ComesBack(s.server, db, kept, saved, client, now, loaded)
      then s.(up := [], down := [], server := ServerFrom(Asked(db, saved), client, loaded, later)) else s
    case Otherwise(server) => if server.inbound == s.server.inbound then s.(server := server) else s
  }

  // ---------- the system with its history ----------

  datatype Exchange = Exchange(tag: nat, m: Message, phase: Phase)

  datatype Up = Pub(id: U16, m: Message, dup: bool, tag: nat) | Rel(id: U16)

  datatype Down = Rec(id: U16) | Comp(id: U16)

  datatype World = World(
    submitted: seq<Message>,
    exchanges: map<U16, Exchange>,
    done: set<nat>,                  // the messages whose PUBCOMP the client has
    up: seq<Up>,
    down: seq<Down>,
    server: Core,
    tags: map<U16, nat>,             // which message the server holds under an identifier
    released: seq<(nat, PublishPacket)>)

  function Initial(c: Core): World {
    World([], map[], {}, [], [], c, map[], [])
  }

  function DoSubmit(w: World, id: U16, m: Message): World {
    if id in w.exchanges then w
    else w.(submitted := w.submitted + [m],
            exchanges := w.exchanges[id := Exchange(|w.submitted|, m, AwaitsPubRec)],
            up := w.up + [Pub(id, m, false, |w.submitted|)])
  }

  function Again(x: Exchange, id: U16): Up {
    if x.phase == AwaitsPubRec then Pub(id, x.m, true, x.tag) else Rel(id)
  }

  function DoResend(w: World, id: U16): World {
    if id !in w.exchanges then w else w.(up := w.up + [Again(w.exchanges[id], id)])
  }

  function DoClientReceives(w: World): World {
    if w.down == [] then w
    else
      var w' := w.(down := w.down[1..]);
      var id := w.down[0].id;
      if id !in w.exchanges then w'
      else if w.down[0].Rec? then
        w'.(exchanges := w.exchanges[id := w.exchanges[id].(phase := AwaitsPubComp)], up := w.up + [Rel(id)])
      else if w.exchanges[id].phase == AwaitsPubComp then
        w'.(exchanges := w.exchanges - {id}, done := w.done + {w.exchanges[id].tag})
      else w'
  }

  /** The number of the message held under an identifier. */
  function TagOf(w: World, id: U16): nat {
    if id in w.tags then w.tags[id] else |w.submitted|
  }

  function EffectOf(server: Core, u: Up, ok: bool): Effect {
    if u.Pub? then OnPublish(server, PacketFor(u.m, u.id, u.dup), ok) else OnPubRel(server, u.id, ok)
  }

  function DoServerReceives(w: World, ok: bool): World {
    if w.up == [] then w
    else
      var u := w.up[0];
      var e := EffectOf(w.server, u, ok);
      var w' := w.(server := e.core,
                   tags := if u.Pub? && u.id !in w.tags then w.tags[u.id := u.tag]
                           else if e.offered.Some? then w.tags - {u.id} else w.tags,
                   released := w.released + if e.offered.Some? then [(TagOf(w, u.id), e.offered.value)] else []);
      if ok then w'.(up := w.up[1..], down := w.down + [if u.Pub? then Rec(u.id) else Comp(u.id)])
      else Cut(w')
  }

  function Cut(w: World): World {
    w.(up := [], down := [])
  }

  ghost function Do(w: World, s: Step): World {
    match s
    case Submit(id, m) => DoSubmit(w, id, m)
    case Resend(id) => DoResend(w, id)
    case ClientReceives => DoClientReceives(w)
    case ServerReceives(ok) => DoServerReceives(w, ok)
    case Reconnect => Cut(w).(server := OnTakeover(w.server, false, true))
    case Restart(kept, saved, client, now, later) =>
      if kept.core == w.server && Saves(saved, kept, client, now) then Cut(w).(server := Restored(saved, later)) else w
    case RestartFromDatabase(db, kept, saved, client, now, loaded, later) =>
      if ComesBack(w.server, db, kept, saved, client, now, loaded)
      then Cut(w).(server := ServerFrom(Asked(db, saved), client, loaded, later),
                   tags := if Sqlite.SaveResult(db, saved).Some? then w.tags else map[]) else w
    case Otherwise(server) => if server.inbound == w.server.inbound then w.(server := server) else w
  }

  // ---------- the history is only history ----------

  function UpPacket(u: Up): Packet {
    if u.Pub? then Publish(PacketFor(u.m, u.id, u.dup)) else PubRel(u.id)
  }

  function DownPacket(d: Down): Packet {
    if d.Rec? then PubRec(d.id) else PubComp(d.id)
  }

  function UpPackets(up: seq<Up>): seq<Packet> {
    seq(|up|, i requires 0 <= i < |up| => UpPacket(up[i]))
  }

  function DownPackets(down: seq<Down>): seq<Packet> {
    seq(|down|, i requires 0 <= i < |down| => DownPacket(down[i]))
  }

  function ReleasedPackets(released: seq<(nat, PublishPacket)>): seq<PublishPacket> {
    seq(|released|, i requires 0 <= i < |released| => released[i].1)
  }

  function UnfinishedOf(exchanges: map<U16, Exchange>): map<U16, Unfinished> {
    map id <- exchanges :: Unfinished(exchanges[id].m, exchanges[id].phase)
  }

  /** The system of which this is the history. */
  function Erase(w: World): Plain {
    Plain(UnfinishedOf(w.exchanges), UpPackets(w.up), DownPackets(w.down), w.server, ReleasedPackets(w.released))
  }

  lemma UpPacketsMore(up: seq<Up>, u: Up)
    ensures UpPackets(up + [u]) == UpPackets(up) + [UpPacket(u)]
  {
  }

  lemma ErasedServer(w: World, ok: bool)
    ensures Erase(DoServerReceives(w, ok)) == PlainServerReceives(Erase(w), ok)
  {
    if w.up != [] {
      var s, u := Erase(w), w.up[0];
      var e := EffectOf(w.server, u, ok);
      assert PlainServerReceives(s, ok) == Answered(s, e, ok) by {
        assert s.up[0] == UpPacket(u);
      }
      assert UpPackets(w.up)[1..] == UpPackets(w.up[1..]);
      var d := if u.Pub? then Rec(u.id) else Comp(u.id);
      assert e.reply == Some(DownPacket(d));
      assert DownPackets(w.down + [d]) == DownPackets(w.down) + [DownPacket(d)];
      assert ReleasedPackets(DoServerReceives(w, ok).released) == s.released + OptionSeq(e.offered);
    }
  }

  lemma ErasedClient(w: World)
    ensures Erase(DoClientReceives(w)) == PlainClientReceives(Erase(w))
  {
    if w.down != [] {
      var s, id := Erase(w), w.down[0].id;
      assert s.down[0] == DownPacket(w.down[0]);
      assert DownPackets(w.down)[1..] == DownPackets(w.down[1..]);
      UpPacketsMore(w.up, Rel(id));
    }
  }

  /** The system does exactly what it would do without the history. */
  lemma HistoryIsFaithful(w: World, step: Step)
    ensures Erase(Do(w, step)) == PlainDo(Erase(w), step)
  {
    match step {
      case Submit(id, m) => UpPacketsMore(w.up, Pub(id, m, false, |w.submitted|));
      case Resend(id) =>
        if id in w.exchanges {
          UpPacketsMore(w.up, Again(w.exchanges[id], id));
        }
      case ClientReceives => ErasedClient(w);
      case ServerReceives(ok) => ErasedServer(w, ok);
      case _ =>
    }
  }

  // ---------- whole runs ----------

  ghost function Steps(w: World, steps: seq<Step>): World
    decreases |steps|
  {
    if steps == [] then w else Steps(Do(w, steps[0]), steps[1..])
  }

  /** Any number of steps in any order, from a server that holds nothing. */
  ghost function Run(c: Core, steps: seq<Step>): World {
    Steps(Initial(c), steps)
  }

  ghost function PlainSteps(s: Plain, steps: seq<Step>): Plain
    decreases |steps|
  {
    if steps == [] then s else PlainSteps(PlainDo(s, steps[0]), steps[1..])
  }

  lemma {:induction false} StepsErase(w: World, steps: seq<Step>)
    ensures Erase(Steps(w, steps)) == PlainSteps(Erase(w), steps)
    decreases |steps|
  {
    if steps != [] {
      HistoryIsFaithful(w, steps[0]);
      StepsErase(Do(w, steps[0]), steps[1..]);
    }
  }
}
