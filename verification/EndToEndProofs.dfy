/** Exactly once, end to end: what every step keeps, what every run delivers,
    and that no exchange gets stuck. */
module EndToEndProofs {
  import opened Base
  import opened Packets
  import opened Storage
  import opened Engine
  import opened Persistence
  import opened EndToEnd
  import Sqlite
  import SqliteProofs

  // ---------- what may be in a channel ----------

  predicate IsPub(u: Up, id: U16) { u.Pub? && u.id == id }

  predicate NoPub(up: seq<Up>, id: U16) { forall u <- up :: !IsPub(u, id) }

  predicate NoRel(up: seq<Up>, id: U16) { forall u <- up :: u != Rel(id) }

  predicate OnlyPubs(up: seq<Up>, id: U16, tag: nat) { forall u <- up :: IsPub(u, id) ==> u.tag == tag }

  predicate NoRelAfterPub(up: seq<Up>, id: U16) { forall i, j | 0 <= i < j < |up| :: IsPub(up[i], id) ==> up[j] != Rel(id) }

  predicate NoPubAfterRel(up: seq<Up>, id: U16) { forall i, j | 0 <= i < j < |up| :: up[i] == Rel(id) ==> !IsPub(up[j], id) }

  predicate NoRec(down: seq<Down>, id: U16) { Rec(id) !in down }

  predicate NoComp(down: seq<Down>, id: U16) { Comp(id) !in down }

  predicate NoCompAfterRec(down: seq<Down>, id: U16) {
    forall i, j | 0 <= i < j < |down| :: down[i] == Rec(id) ==> down[j] != Comp(id)
  }

  predicate NoRecAfterComp(down: seq<Down>, id: U16) {
    forall i, j | 0 <= i < j < |down| :: down[i] == Comp(id) ==> down[j] != Rec(id)
  }

  /** The packets to the server under an identifier fit the client's exchange
      with it, if any, and whether the server holds a message under it. */
  predicate UpFits(up: seq<Up>, id: U16, x: Option<Exchange>, held: bool) {
    match x
    case None => NoPub(up, id)
    case Some(x) =>
      && OnlyPubs(up, id, x.tag)
      && if x.phase == AwaitsPubRec then NoRelAfterPub(up, id) && (held ==> NoRel(up, id))
         else NoPubAfterRel(up, id) && (!held ==> NoPub(up, id))
  }

  predicate DownFits(down: seq<Down>, id: U16, x: Option<Exchange>, held: bool) {
    match x
    case None => NoRec(down, id)
    case Some(x) =>
      if x.phase == AwaitsPubRec then NoCompAfterRec(down, id) && (!held ==> NoRec(down, id))
      else NoRecAfterComp(down, id) && (held ==> NoComp(down, id))
  }

  lemma UpTail(up: seq<Up>, id: U16, x: Option<Exchange>, held: bool)
    requires up != [] && UpFits(up, id, x, held)
    ensures UpFits(up[1..], id, x, held)
  {
    assert forall u <- up[1..] :: u in up;
  }

  /** Taking the PUBLISH in means that the server holds the message. */
  lemma UpPubTaken(up: seq<Up>, id: U16, x: Option<Exchange>, held: bool)
    requires up != [] && IsPub(up[0], id) && UpFits(up, id, x, held)
    ensures x.Some? && up[0].tag == x.value.tag && (x.value.phase == AwaitsPubComp ==> held)
    ensures UpFits(up[1..], id, x, true)
  {
    assert up[0] in up;
    assert forall u <- up[1..] :: u in up;
  }

  lemma UpRelTaken(up: seq<Up>, id: U16, x: Option<Exchange>, held: bool)
    requires up != [] && up[0] == Rel(id) && UpFits(up, id, x, held)
    ensures x.Some? && held ==> x.value.phase == AwaitsPubComp
    ensures UpFits(up[1..], id, x, false)
  {
    assert up[0] in up;
    assert forall u <- up[1..] :: u in up;
  }

  lemma UpOther(up: seq<Up>, u: Up, id: U16, x: Option<Exchange>, held: bool)
    requires u.id != id && UpFits(up, id, x, held)
    ensures UpFits(up + [u], id, x, held)
  {
  }

  lemma UpNew(up: seq<Up>, id: U16, m: Message, tag: nat)
    requires UpFits(up, id, None, false)
    ensures UpFits(up + [Pub(id, m, false, tag)], id, Some(Exchange(tag, m, AwaitsPubRec)), false)
  {
  }

  lemma UpAgain(up: seq<Up>, id: U16, x: Exchange, held: bool)
    requires UpFits(up, id, Some(x), held)
    ensures UpFits(up + [Again(x, id)], id, Some(x), held)
  {
  }

  /** PUBREC: the client turns to PUBREL, and the server holds the message if
      the client was waiting for PUBREC. */
  lemma UpReleases(up: seq<Up>, id: U16, x: Exchange, held: bool)
    requires UpFits(up, id, Some(x), held) && (x.phase == AwaitsPubRec ==> held)
    ensures UpFits(up + [Rel(id)], id, Some(x.(phase := AwaitsPubComp)), held)
  {
    assert forall i | 0 <= i < |up| :: up[i] in up;
  }

  lemma DownTail(down: seq<Down>, id: U16, x: Option<Exchange>, held: bool)
    requires down != [] && DownFits(down, id, x, held)
    ensures DownFits(down[1..], id, x, held)
  {
    assert forall d <- down[1..] :: d in down;
  }

  lemma DownRecTaken(down: seq<Down>, id: U16, x: Exchange, held: bool)
    requires down != [] && down[0] == Rec(id) && DownFits(down, id, Some(x), held)
    ensures x.phase == AwaitsPubRec ==> held
    ensures DownFits(down[1..], id, Some(x.(phase := AwaitsPubComp)), held)
  {
    assert down[0] in down;
    assert forall d <- down[1..] :: d in down;
  }

  lemma DownCompTaken(down: seq<Down>, id: U16, x: Exchange, held: bool)
    requires down != [] && down[0] == Comp(id) && DownFits(down, id, Some(x), held) && x.phase == AwaitsPubComp
    ensures !held && DownFits(down[1..], id, None, held)
  {
    assert down[0] in down;
  }

  lemma DownOther(down: seq<Down>, d: Down, id: U16, x: Option<Exchange>, held: bool)
    requires d.id != id && DownFits(down, id, x, held)
    ensures DownFits(down + [d], id, x, held)
  {
  }

  lemma DownRec(down: seq<Down>, id: U16, x: Exchange, held: bool)
    requires DownFits(down, id, Some(x), held) && (x.phase == AwaitsPubComp ==> held)
    ensures DownFits(down + [Rec(id)], id, Some(x), true)
  {
  }

  lemma DownComp(down: seq<Down>, id: U16, x: Option<Exchange>, held: bool)
    requires DownFits(down, id, x, held) && (x.Some? && held ==> x.value.phase == AwaitsPubComp)
    ensures DownFits(down + [Comp(id)], id, x, false)
  {
    assert forall i | 0 <= i < |down| :: down[i] in down;
  }

  // ---------- what holds of a world ----------

  predicate IsReleased(released: seq<(nat, PublishPacket)>, tag: nat) {
    exists i | 0 <= i < |released| :: released[i].0 == tag
  }

  /** The packet carries the message under some identifier, whatever its dup bit. */
  predicate Carries(p: PublishPacket, m: Message) {
    p.packetId.Some? && p.(dup := false) == PacketFor(m, p.packetId.value, false)
  }

  function ExchangeAt(w: World, id: U16): Option<Exchange> {
    if id in w.exchanges then Some(w.exchanges[id]) else None
  }

  /** What the server has under an identifier fits the client's exchange. */
  predicate HeldFits(w: World, id: U16) {
    var held := id in w.tags;
    match ExchangeAt(w, id)
    case None => !held
    case Some(x) =>
      && (held ==> w.tags[id] == x.tag)
      && (held || x.phase == AwaitsPubRec <==> !IsReleased(w.released, x.tag))
  }

  predicate Channels(w: World, id: U16) {
    && UpFits(w.up, id, ExchangeAt(w, id), id in w.tags)
    && DownFits(w.down, id, ExchangeAt(w, id), id in w.tags)
    && HeldFits(w, id)
  }

  /** A number and a message that belong together. */
  predicate Belongs(w: World, tag: nat, m: Message) {
    tag < |w.submitted| && w.submitted[tag] == m
  }

  /** Every number stands for one submitted message, in the client and beyond. */
  predicate Numbered(w: World) {
    && (forall id <- w.exchanges :: Belongs(w, w.exchanges[id].tag, w.exchanges[id].m) && w.exchanges[id].tag !in w.done)
    && (forall id, id' | id in w.exchanges && id' in w.exchanges && id != id' :: w.exchanges[id].tag != w.exchanges[id'].tag)
    && (forall t <- w.done :: t < |w.submitted| && IsReleased(w.released, t))
    && (forall u <- w.up :: u.Pub? ==> Belongs(w, u.tag, u.m))
  }

  /** A held message is a QoS 2 message under its own identifier and carries
      what was submitted. */
  predicate HeldIsSubmitted(w: World, id: U16)
    requires id in w.tags && id in w.server.inbound
  {
    && WellKeptMessage(id, w.server.inbound[id])
    && w.tags[id] < |w.submitted|
    && Carries(w.server.inbound[id], w.submitted[w.tags[id]])
  }

  /** What the server holds or has released is what was submitted. */
  predicate Faithful(w: World) {
    && w.tags.Keys == w.server.inbound.Keys
    && (forall id <- w.tags :: HeldIsSubmitted(w, id))
    && (forall i | 0 <= i < |w.released| ::
          w.released[i].0 < |w.submitted| && Carries(w.released[i].1, w.submitted[w.released[i].0]))
  }

  predicate ReleasedOnce(w: World) {
    forall i, j | 0 <= i < j < |w.released| :: w.released[i].0 != w.released[j].0
  }

  ghost predicate AllChannels(w: World) {
    forall id: U16 :: Channels(w, id)
  }

  ghost predicate Inv(w: World) {
    Numbered(w) && Faithful(w) && ReleasedOnce(w) && AllChannels(w)
  }

  // ---------- the client's steps ----------

  lemma SubmitChannels(w: World, id: U16, m: Message, k: U16)
    requires id !in w.exchanges && Channels(w, k)
    requires !IsReleased(w.released, |w.submitted|)
    ensures Channels(DoSubmit(w, id, m), k)
  {
    var u := Pub(id, m, false, |w.submitted|);
    if k == id {
      UpNew(w.up, id, m, |w.submitted|);
    } else {
      UpOther(w.up, u, k, ExchangeAt(w, k), k in w.tags);
    }
  }

  lemma SubmitNumbered(w: World, id: U16, m: Message)
    requires Numbered(w)
    ensures Numbered(DoSubmit(w, id, m))
  {
    assert forall t: nat, n: Message :: Belongs(w, t, n) ==> Belongs(DoSubmit(w, id, m), t, n);
  }

  lemma SubmitFaithful(w: World, id: U16, m: Message)
    requires Faithful(w)
    ensures Faithful(DoSubmit(w, id, m))
    ensures !IsReleased(w.released, |w.submitted|)
  {
    assert forall k <- w.tags :: HeldIsSubmitted(w, k);
  }

  lemma SubmitKeeps(w: World, id: U16, m: Message)
    requires Inv(w)
    ensures Inv(DoSubmit(w, id, m))
  {
    SubmitNumbered(w, id, m);
    SubmitFaithful(w, id, m);
    if id !in w.exchanges {
      forall k: U16
        ensures Channels(DoSubmit(w, id, m), k)
      {
        SubmitChannels(w, id, m, k);
      }
    }
  }

  lemma ResendKeeps(w: World, id: U16)
    requires Inv(w)
    ensures Inv(DoResend(w, id))
  {
    if id in w.exchanges {
      var u := Again(w.exchanges[id], id);
      forall k: U16
        ensures Channels(DoResend(w, id), k)
      {
        assert Channels(w, k);
        if k == id {
          UpAgain(w.up, id, w.exchanges[id], id in w.tags);
        } else {
          UpOther(w.up, u, k, ExchangeAt(w, k), k in w.tags);
        }
      }
    }
  }

  lemma ClientReceivesOwn(w: World)
    requires w.down != [] && Channels(w, w.down[0].id)
    ensures Channels(DoClientReceives(w), w.down[0].id)
  {
    var id := w.down[0].id;
    var x, held := ExchangeAt(w, id), id in w.tags;
    DownTail(w.down, id, x, held);
    if x.Some? && w.down[0].Rec? {
      DownRecTaken(w.down, id, x.value, held);
      UpReleases(w.up, id, x.value, held);
    } else if x.Some? && x.value.phase == AwaitsPubComp {
      DownCompTaken(w.down, id, x.value, held);
    }
  }

  lemma ClientReceivesOther(w: World, k: U16)
    requires w.down != [] && w.down[0].id != k && Channels(w, k)
    ensures Channels(DoClientReceives(w), k)
  {
    DownTail(w.down, k, ExchangeAt(w, k), k in w.tags);
    UpOther(w.up, Rel(w.down[0].id), k, ExchangeAt(w, k), k in w.tags);
  }

  /** A message whose PUBCOMP comes in has been released. */
  lemma CompletedIsReleased(w: World)
    requires w.down != [] && w.down[0].Comp? && Channels(w, w.down[0].id) && w.down[0].id in w.exchanges
    requires w.exchanges[w.down[0].id].phase == AwaitsPubComp
    ensures IsReleased(w.released, w.exchanges[w.down[0].id].tag)
  {
    var id := w.down[0].id;
    DownCompTaken(w.down, id, w.exchanges[id], id in w.tags);
  }

  lemma ClientReceivesNumbered(w: World)
    requires Numbered(w) && w.down != [] && Channels(w, w.down[0].id)
    ensures Numbered(DoClientReceives(w))
  {
    var w', id := DoClientReceives(w), w.down[0].id;
    assert forall t: nat, m :: Belongs(w, t, m) ==> Belongs(w', t, m);
    if id in w.exchanges && w.down[0].Comp? && w.exchanges[id].phase == AwaitsPubComp {
      CompletedIsReleased(w);
    }
  }

  lemma ClientReceivesKeeps(w: World)
    requires Inv(w)
    ensures Inv(DoClientReceives(w))
  {
    if w.down != [] {
      assert Channels(w, w.down[0].id);
      ClientReceivesNumbered(w);
      forall k: U16
        ensures Channels(DoClientReceives(w), k)
      {
        if k == w.down[0].id {
          ClientReceivesOwn(w);
        } else {
          ClientReceivesOther(w, k);
        }
      }
    }
  }

  // ---------- the server's steps ----------

  lemma ReleasedMore(released: seq<(nat, PublishPacket)>, t: nat, p: PublishPacket, tag: nat)
    ensures IsReleased(released + [(t, p)], tag) <==> IsReleased(released, tag) || tag == t
  {
    var more := released + [(t, p)];
    assert more[|released|].0 == t;
    if IsReleased(released, tag) {
      var i :| 0 <= i < |released| && released[i].0 == tag;
      assert more[i].0 == tag;
    }
  }

  lemma NothingFits(id: U16, x: Option<Exchange>, held: bool)
    ensures UpFits([], id, x, held) && DownFits([], id, x, held)
  {
  }

  /** A PUBLISH is held under its identifier if nothing else is. */
  lemma PubEffect(w: World, ok: bool)
    requires w.up != [] && w.up[0].Pub?
    ensures var w', u := DoServerReceives(w, ok), w.up[0];
            && w'.released == w.released && w'.submitted == w.submitted
            && w'.tags == (if u.id in w.tags then w.tags else w.tags[u.id := u.tag])
            && w'.server.inbound == if u.id in w.server.inbound then w.server.inbound
                                    else w.server.inbound[u.id := PacketFor(u.m, u.id, u.dup)]
  {
  }

  lemma PubArrivesOwn(w: World, ok: bool)
    requires w.up != [] && w.up[0].Pub? && Channels(w, w.up[0].id)
    ensures Channels(DoServerReceives(w, ok), w.up[0].id)
    ensures w.up[0].id in w.exchanges
  {
    var id := w.up[0].id;
    var x, held := ExchangeAt(w, id), id in w.tags;
    PubEffect(w, ok);
    UpPubTaken(w.up, id, x, held);
    DownRec(w.down, id, x.value, held);
    NothingFits(id, x, true);
  }

  lemma PubArrivesOther(w: World, ok: bool, k: U16)
    requires w.up != [] && w.up[0].Pub? && w.up[0].id != k && Channels(w, k)
    ensures Channels(DoServerReceives(w, ok), k)
  {
    var x, held := ExchangeAt(w, k), k in w.tags;
    PubEffect(w, ok);
    UpTail(w.up, k, x, held);
    DownOther(w.down, Rec(w.up[0].id), k, x, held);
    NothingFits(k, x, held);
  }

  lemma PubArrivesFaithful(w: World, ok: bool)
    requires w.up != [] && w.up[0].Pub? && Faithful(w) && Belongs(w, w.up[0].tag, w.up[0].m)
    ensures Faithful(DoServerReceives(w, ok)) && DoServerReceives(w, ok).released == w.released
  {
    var w', u := DoServerReceives(w, ok), w.up[0];
    PubEffect(w, ok);
    assert Carries(PacketFor(u.m, u.id, u.dup), u.m);
    forall id | id in w'.tags
      ensures HeldIsSubmitted(w', id)
    {
      assert id in w.tags ==> HeldIsSubmitted(w, id);
    }
  }

  lemma ServerNumbered(w: World, ok: bool)
    requires Numbered(w)
    ensures Numbered(DoServerReceives(w, ok))
  {
    var w' := DoServerReceives(w, ok);
    assert forall t: nat, m :: Belongs(w, t, m) ==> Belongs(w', t, m);
    forall t | t in w.done
      ensures IsReleased(w'.released, t)
    {
      var i :| 0 <= i < |w.released| && w.released[i].0 == t;
      assert w'.released[i].0 == t;
    }
    assert forall u <- w'.up :: u in w.up;
  }

  lemma PubArrives(w: World, ok: bool)
    requires Inv(w) && w.up != [] && w.up[0].Pub?
    ensures Inv(DoServerReceives(w, ok))
  {
    assert w.up[0] in w.up;
    PubArrivesFaithful(w, ok);
    ServerNumbered(w, ok);
    forall k: U16
      ensures Channels(DoServerReceives(w, ok), k)
    {
      assert Channels(w, k);
      if k == w.up[0].id {
        PubArrivesOwn(w, ok);
      } else {
        PubArrivesOther(w, ok, k);
      }
    }
  }

  /** What a PUBREL makes of the numbers, given that they mirror what is held. */
  lemma RelEffect(w: World, ok: bool)
    requires w.up != [] && w.up[0].Rel? && w.tags.Keys == w.server.inbound.Keys
    ensures var w', id := DoServerReceives(w, ok), w.up[0].id;
            if ok && id in w.tags
            then w'.tags == w.tags - {id} && w'.released == w.released + [(w.tags[id], w.server.inbound[id])]
            else w'.tags == w.tags && w'.released == w.released
  {
  }

  lemma RelArrivesOwn(w: World, ok: bool)
    requires w.up != [] && w.up[0].Rel? && Channels(w, w.up[0].id) && w.tags.Keys == w.server.inbound.Keys
    ensures Channels(DoServerReceives(w, ok), w.up[0].id)
  {
    var id := w.up[0].id;
    var x, held := ExchangeAt(w, id), id in w.tags;
    RelEffect(w, ok);
    UpRelTaken(w.up, id, x, held);
    DownComp(w.down, id, x, held);
    NothingFits(id, x, held);
    if ok && held {
      ReleasedMore(w.released, w.tags[id], w.server.inbound[id], w.tags[id]);
    }
  }

  lemma RelArrivesOther(w: World, ok: bool, k: U16)
    requires w.up != [] && w.up[0].Rel? && w.up[0].id != k && Channels(w, k) && Channels(w, w.up[0].id)
    requires w.tags.Keys == w.server.inbound.Keys && Numbered(w)
    ensures Channels(DoServerReceives(w, ok), k)
  {
    var id, x, held := w.up[0].id, ExchangeAt(w, k), k in w.tags;
    RelEffect(w, ok);
    UpTail(w.up, k, x, held);
    DownOther(w.down, Comp(id), k, x, held);
    NothingFits(k, x, held);
    if ok && id in w.tags && x.Some? {
      ReleasedMore(w.released, w.tags[id], w.server.inbound[id], x.value.tag);
    }
  }

  lemma RelKeepsHeld(w: World, ok: bool, id: U16)
    requires w.up != [] && w.up[0].Rel? && w.tags.Keys == w.server.inbound.Keys
    requires id in w.tags && HeldIsSubmitted(w, id)
    ensures var w' := DoServerReceives(w, ok);
            id in w'.tags ==> id in w'.server.inbound && HeldIsSubmitted(w', id)
  {
    RelEffect(w, ok);
  }

  lemma RelArrivesFaithful(w: World, ok: bool)
    requires w.up != [] && w.up[0].Rel? && Faithful(w)
    ensures Faithful(DoServerReceives(w, ok))
  {
    var w' := DoServerReceives(w, ok);
    RelEffect(w, ok);
    forall id | id in w'.tags
      ensures HeldIsSubmitted(w', id)
    {
      assert HeldIsSubmitted(w, id);
      RelKeepsHeld(w, ok, id);
    }
    if ok && w.up[0].id in w.tags {
      assert HeldIsSubmitted(w, w.up[0].id);
    }
  }

  lemma RelArrivesOnce(w: World, ok: bool)
    requires w.up != [] && w.up[0].Rel? && ReleasedOnce(w) && w.tags.Keys == w.server.inbound.Keys
    requires Channels(w, w.up[0].id)
    ensures ReleasedOnce(DoServerReceives(w, ok))
  {
    RelEffect(w, ok);
    if ok && w.up[0].id in w.tags {
      assert !IsReleased(w.released, w.tags[w.up[0].id]);
    }
  }

  lemma RelArrives(w: World, ok: bool)
    requires Inv(w) && w.up != [] && w.up[0].Rel?
    ensures Inv(DoServerReceives(w, ok))
  {
    var id := w.up[0].id;
    assert Channels(w, id);
    RelArrivesFaithful(w, ok);
    RelArrivesOnce(w, ok);
    ServerNumbered(w, ok);
    forall k: U16
      ensures Channels(DoServerReceives(w, ok), k)
    {
      assert Channels(w, k);
      if k == id {
        RelArrivesOwn(w, ok);
      } else {
        RelArrivesOther(w, ok, k);
      }
    }
  }

  // ---------- breaks ----------

  lemma CutChannels(w: World, server: Core, k: U16)
    requires Channels(w, k)
    ensures Channels(Cut(w).(server := server), k)
  {
    NothingFits(k, ExchangeAt(w, k), k in w.tags);
  }

  /** Losing what is in transit, with whatever the server keeps of its state. */
  lemma CutKeeps(w: World, server: Core)
    requires Inv(w)
    requires server.inbound.Keys == w.server.inbound.Keys
    requires forall id <- server.inbound :: server.inbound[id] == w.server.inbound[id].(dup := server.inbound[id].dup)
    ensures Inv(Cut(w).(server := server))
  {
    var w' := Cut(w).(server := server);
    forall k: U16
      ensures Channels(w', k)
    {
      CutChannels(w, server, k);
    }
    forall id | id in w'.tags
      ensures HeldIsSubmitted(w', id)
    {
      assert HeldIsSubmitted(w, id);
    }
  }

  /** A save and a restore give back every held message, but for its dup bit. */
  lemma RestartKeepsHeld(w: World, kept: Kept, saved: SavedSession, client: Text, now: int, later: nat)
    requires Faithful(w) && kept.core == w.server && Saves(saved, kept, client, now)
    ensures Restored(saved, later).inbound == Undup(w.server.inbound)
  {
    InboundIdentity(saved.inbound, w.server.inbound, client, now);
    assert forall id <- w.tags :: HeldIsSubmitted(w, id);
  }

  /** The received messages come back from the database if the save went through. */
  lemma DatabaseKeepsHeld(w: World, db: Sqlite.Database, kept: Kept, saved: SavedSession, client: Text, now: int,
                          loaded: Loaded, later: nat)
    requires Faithful(w) && ComesBack(w.server, db, kept, saved, client, now, loaded)
    requires Sqlite.SaveResult(db, saved).Some?
    ensures ServerFrom(Asked(db, saved), client, loaded, later).inbound == Undup(w.server.inbound)
  {
    SqliteProofs.JustSavedInbound(db, saved, loaded.inbound);
    SameInboundRows(loaded.inbound, saved.inbound, w.server.inbound, client, now);
    InboundIdentity(loaded.inbound, w.server.inbound, client, now);
    assert forall id <- w.tags :: HeldIsSubmitted(w, id);
  }

  /** A new session has the received messages, if the database had nothing older of
      the client, exactly if the save went through or there were none. */
  lemma DatabaseKeepsHeldIf(w: World, db: Sqlite.Database, kept: Kept, saved: SavedSession, client: Text, now: int,
                            loaded: Loaded, later: nat)
    requires Faithful(w) && ComesBack(w.server, db, kept, saved, client, now, loaded) && client !in db.sessions
    ensures ServerFrom(Asked(db, saved), client, loaded, later).inbound == Undup(w.server.inbound)
       <==> Sqlite.SaveResult(db, saved).Some? || w.server.inbound == map[]
  {
    if Sqlite.SaveResult(db, saved).Some? {
      DatabaseKeepsHeld(w, db, kept, saved, client, now, loaded, later);
    } else {
      assert Undup(w.server.inbound).Keys == w.server.inbound.Keys;
    }
  }

  /** The rows for the received messages are so in any order. */
  lemma SameInboundRows(rows: seq<InboundRow>, saved: seq<InboundRow>, inbound: map<U16, PublishPacket>, client: Text, now: int)
    requires InboundRows(saved, inbound, client, now) && SqliteProofs.SameRows(rows, saved)
    ensures InboundRows(rows, inbound, client, now)
  {
    forall i | 0 <= i < |rows|
      ensures rows[i].packetId in inbound
      ensures rows[i] == SavedInbound(rows[i].packetId, inbound[rows[i].packetId], client, now)
    {
      assert rows[i] in rows;
      var j :| 0 <= j < |saved| && saved[j] == rows[i];
    }
  }

  /** A database that was asked to save has done so. */
  predicate SaveWentThrough(s: Step) {
    s.RestartFromDatabase? ==> Sqlite.SaveResult(s.db, s.saved).Some?
  }

  lemma DoKeeps(w: World, s: Step)
    requires Inv(w) && SaveWentThrough(s)
    ensures Inv(Do(w, s))
  {
    match s {
      case Submit(id, m) => SubmitKeeps(w, id, m);
      case Resend(id) => ResendKeeps(w, id);
      case ClientReceives => ClientReceivesKeeps(w);
      case ServerReceives(ok) =>
        if w.up != [] {
          if w.up[0].Pub? {
            PubArrives(w, ok);
          } else {
            RelArrives(w, ok);
          }
        }
      case Reconnect => CutKeeps(w, w.server);
      case Restart(_, _, _, _, _) => MemoryRestartKeeps(w, s);
      case RestartFromDatabase(_, _, _, _, _, _, _) => DatabaseRestartKeeps(w, s);
      case Otherwise(server) =>
        if server.inbound == w.server.inbound {
          OtherwiseKeeps(w, server);
        }
    }
  }

  lemma RestartKeeps(w: World, server: Core)
    requires Inv(w) && server.inbound == Undup(w.server.inbound)
    ensures Inv(Cut(w).(server := server))
  {
    CutKeeps(w, server);
  }

  lemma MemoryRestartKeeps(w: World, s: Step)
    requires Inv(w) && s.Restart?
    ensures Inv(Do(w, s))
  {
    if s.kept.core == w.server && Saves(s.saved, s.kept, s.client, s.now) {
      RestartKeepsHeld(w, s.kept, s.saved, s.client, s.now, s.later);
      RestartKeeps(w, Restored(s.saved, s.later));
    }
  }

  lemma DatabaseRestartKeeps(w: World, s: Step)
    requires Inv(w) && s.RestartFromDatabase? && SaveWentThrough(s)
    ensures Inv(Do(w, s))
  {
    if ComesBack(w.server, s.db, s.kept, s.saved, s.client, s.now, s.loaded) {
      DatabaseKeepsHeld(w, s.db, s.kept, s.saved, s.client, s.now, s.loaded, s.later);
      RestartKeeps(w, ServerFrom(Asked(s.db, s.saved), s.client, s.loaded, s.later));
    }
  }

  lemma OtherwiseKeeps(w: World, server: Core)
    requires Inv(w) && server.inbound == w.server.inbound
    ensures Inv(w.(server := server))
  {
    var w' := w.(server := server);
    forall k: U16
      ensures Channels(w', k)
    {
      assert Channels(w, k);
    }
    forall id | id in w'.tags
      ensures HeldIsSubmitted(w', id)
    {
      assert HeldIsSubmitted(w, id);
    }
  }

  // ---------- whole runs ----------

  /** Every submitted message is done or still in an exchange. */
  ghost predicate Accounted(w: World) {
    forall t: nat | t < |w.submitted| :: t in w.done || InExchange(w, t)
  }

  ghost predicate InExchange(w: World, tag: nat) {
    exists id :: id in w.exchanges && w.exchanges[id].tag == tag
  }

  lemma DoAccounts(w: World, s: Step)
    requires Accounted(w)
    ensures Accounted(Do(w, s))
  {
    var w' := Do(w, s);
    forall t: nat | t < |w'.submitted| && t !in w'.done
      ensures InExchange(w', t)
    {
      if t < |w.submitted| {
        assert InExchange(w, t);
        var id :| id in w.exchanges && w.exchanges[id].tag == t;
        assert id in w'.exchanges && w'.exchanges[id].tag == t;
      } else {
        assert s.id in w'.exchanges && w'.exchanges[s.id].tag == t;
      }
    }
  }

  lemma {:induction false} StepsKeep(w: World, steps: seq<Step>)
    requires Inv(w) && Accounted(w) && forall i | 0 <= i < |steps| :: SaveWentThrough(steps[i])
    ensures Inv(Steps(w, steps)) && Accounted(Steps(w, steps))
    decreases |steps|
  {
    if steps != [] {
      assert SaveWentThrough(steps[0]);
      DoKeeps(w, steps[0]);
      DoAccounts(w, steps[0]);
      StepsKeep(Do(w, steps[0]), steps[1..]);
    }
  }

  lemma InitialHolds(c: Core)
    requires c.inbound == map[]
    ensures Inv(Initial(c)) && Accounted(Initial(c))
  {
    var w := Initial(c);
    forall k: U16
      ensures Channels(w, k)
    {
      NothingFits(k, None, false);
    }
  }

  /** Exactly once: no message is released twice, what is released is what was
      submitted, a message whose PUBCOMP the client has was released, and any other
      is still in an exchange. Restarts from a database must find what was saved. */
  lemma ExactlyOnceDelivery(c: Core, steps: seq<Step>)
    requires c.inbound == map[] && forall i | 0 <= i < |steps| :: SaveWentThrough(steps[i])
    ensures var w := Run(c, steps);
            && (forall i, j | 0 <= i < j < |w.released| :: w.released[i].0 != w.released[j].0)
            && (forall i | 0 <= i < |w.released| ::
                  w.released[i].0 < |w.submitted| && Carries(w.released[i].1, w.submitted[w.released[i].0]))
            && (forall t <- w.done :: exists i | 0 <= i < |w.released| :: w.released[i].0 == t)
            && (forall t: nat | t < |w.submitted| ::
                  t in w.done || exists id :: id in w.exchanges && w.exchanges[id].tag == t)
            && ReleasedPackets(w.released) == PlainSteps(Erase(Initial(c)), steps).released
  {
    InitialHolds(c);
    StepsKeep(Initial(c), steps);
    StepsErase(Initial(c), steps);
    var w := Run(c, steps);
    forall t | t in w.done
      ensures exists i | 0 <= i < |w.released| :: w.released[i].0 == t
    {
      assert IsReleased(w.released, t);
    }
    forall t: nat | t < |w.submitted|
      ensures t in w.done || exists id :: id in w.exchanges && w.exchanges[id].tag == t
    {
      assert t in w.done || InExchange(w, t);
    }
  }

  // ---------- nothing gets stuck ----------

  lemma TwoSteps(w: World, a: Step, b: Step)
    ensures Steps(w, [a, b]) == Do(Do(w, a), b)
  {
    assert [a, b][1..] == [b];
    assert Steps(Do(w, a), [b]) == Steps(Do(Do(w, a), b), []);
  }

  /** A client that waits for PUBREC gets it in one round trip. */
  lemma FirstHalf(w: World, id: U16)
    requires id in w.exchanges && w.exchanges[id].phase == AwaitsPubRec
    requires w.up == [Again(w.exchanges[id], id)] && w.down == []
    ensures var w' := DoClientReceives(DoServerReceives(w, true));
            && w'.up == [Rel(id)] && w'.down == [] && id in w'.exchanges
            && w'.exchanges[id] == w.exchanges[id].(phase := AwaitsPubComp)
  {
  }

  /** A client that waits for PUBCOMP gets it in one round trip. */
  lemma SecondHalf(w: World, id: U16)
    requires w.up == [Rel(id)] && w.down == []
    requires id in w.exchanges && w.exchanges[id].phase == AwaitsPubComp
    ensures w.exchanges[id].tag in DoClientReceives(DoServerReceives(w, true)).done
  {
  }

  lemma {:induction false} StepsAppend(w: World, a: seq<Step>, b: seq<Step>)
    ensures Steps(w, a + b) == Steps(Steps(w, a), b)
    decreases |a|
  {
    if a == [] {
      assert a + b == b;
    } else {
      assert (a + b)[1..] == a[1..] + b && (a + b)[0] == a[0];
      StepsAppend(Do(w, a[0]), a[1..], b);
    }
  }

  lemma Afresh(w: World, id: U16)
    requires id in w.exchanges
    ensures var w' := Steps(w, [Reconnect, Resend(id)]);
            w'.exchanges == w.exchanges && w'.down == [] && w'.up == [Again(w.exchanges[id], id)]
  {
    TwoSteps(w, Reconnect, Resend(id));
  }

  /** However a run has gone so far, every unfinished exchange can be finished:
      a new connection, one resend and at most two round trips. */
  lemma CanAlwaysFinish(w: World, id: U16) returns (steps: seq<Step>)
    requires id in w.exchanges
    ensures w.exchanges[id].tag in Steps(w, steps).done
  {
    var half := [ServerReceives(true), ClientReceives];
    Afresh(w, id);
    steps := [Reconnect, Resend(id)] + half;
    var w' := Steps(w, [Reconnect, Resend(id)]);
    TwoSteps(w', ServerReceives(true), ClientReceives);
    StepsAppend(w, [Reconnect, Resend(id)], half);
    if w.exchanges[id].phase == AwaitsPubComp {
      SecondHalf(w', id);
    } else {
      FirstHalf(w', id);
      SecondHalf(Steps(w', half), id);
      TwoSteps(Steps(w', half), ServerReceives(true), ClientReceives);
      StepsAppend(w, steps, half);
      steps := steps + half;
    }
  }

  // ---------- a save that is rolled back ----------

  lemma SevenSteps(w: World, a: Step, b: Step, c: Step, d: Step, e: Step, f: Step, g: Step)
    ensures Steps(w, [a, b, c, d, e, f, g]) == Do(Do(Do(Do(Do(Do(Do(w, a), b), c), d), e), f), g)
  {
    assert [a, b, c, d, e, f, g] == [a, b] + ([c, d] + ([e, f] + [g]));
    StepsAppend(w, [a, b], [c, d] + ([e, f] + [g]));
    TwoSteps(w, a, b);
    var w2 := Do(Do(w, a), b);
    StepsAppend(w2, [c, d], [e, f] + [g]);
    TwoSteps(w2, c, d);
    var w4 := Do(Do(w2, c), d);
    StepsAppend(w4, [e, f], [g]);
    TwoSteps(w4, e, f);
    OneStep(Do(Do(w4, e), f), g);
  }

  lemma OneStep(w: World, a: Step)
    ensures Steps(w, [a]) == Do(w, a)
  {
    assert [a][1..] == [];
  }

  /** The client has turned to PUBREL, and the session holds the message or, on a
      new connection, does not. */
  function Turned(c: Core, id: U16, m: Message): World {
    World([m], map[id := Exchange(0, m, AwaitsPubComp)], {}, [Rel(id)], [],
          c.(inbound := map[id := PacketFor(m, id, false)]), map[id := 0], [])
  }

  function Forgotten(id: U16, m: Message): World {
    World([m], map[id := Exchange(0, m, AwaitsPubComp)], {}, [], [], Core(1, [], map[]), map[], [])
  }

  lemma HeldAndReleased(c: Core, id: U16, m: Message)
    requires c.inbound == map[]
    ensures Do(Do(Do(Initial(c), Submit(id, m)), ServerReceives(true)), ClientReceives) == Turned(c, id, m)
  {
    var w1 := Do(Initial(c), Submit(id, m));
    assert w1.up == [Pub(id, m, false, 0)] && w1.up[1..] == [];
    var w2 := Do(w1, ServerReceives(true));
    assert w2.down == [Rec(id)] && w2.down[1..] == [];
  }

  /** A new session knows nothing of the message and answers the PUBREL. */
  lemma AnsweredByAnother(id: U16, m: Message)
    ensures var w := Do(Do(Do(Forgotten(id, m), Resend(id)), ServerReceives(true)), ClientReceives);
            w.done == {0} && w.exchanges == map[] && w.released == []
  {
    var w1 := Do(Forgotten(id, m), Resend(id));
    assert w1.up == [Rel(id)];
    var w2 := Do(w1, ServerReceives(true));
    assert w2.down == [Comp(id)];
  }

  lemma RestartForgets(c: Core, id: U16, m: Message, restart: Step)
    requires restart.RestartFromDatabase? && restart.client !in restart.db.sessions
    requires ComesBack(Turned(c, id, m).server, restart.db, restart.kept, restart.saved, restart.client, restart.now,
                       restart.loaded)
    requires Sqlite.SaveResult(restart.db, restart.saved) == None
    ensures Do(Turned(c, id, m), restart) == Forgotten(id, m)
  {
  }

  /** If the database rolls the save back and has nothing else of the client, a
      message is lost for which the client gets its PUBCOMP. */
  lemma RolledBackLoses(c: Core, id: U16, m: Message, restart: Step)
    requires c.inbound == map[]
    requires restart.RestartFromDatabase? && restart.client !in restart.db.sessions
    requires ComesBack(Turned(c, id, m).server, restart.db, restart.kept, restart.saved, restart.client, restart.now,
                       restart.loaded)
    requires Sqlite.SaveResult(restart.db, restart.saved) == None
    ensures var w := Run(c, [Submit(id, m), ServerReceives(true), ClientReceives, restart, Resend(id), ServerReceives(true),
                             ClientReceives]);
            w.done == {0} && w.exchanges == map[] && w.released == []
  {
    SevenSteps(Initial(c), Submit(id, m), ServerReceives(true), ClientReceives, restart, Resend(id), ServerReceives(true),
               ClientReceives);
    HeldAndReleased(c, id, m);
    RestartForgets(c, id, m, restart);
    AnsweredByAnother(id, m);
  }
}
