/** Inbound QoS 2 delivery against an arbitrary client: which messages a
    session holds, and which it releases, as a function of the packets it has
    been sent. */
module Inbound {
  import opened Base
  import opened Packets
  import opened Engine
  import opened Persistence

  /** A packet from the client, and whether the reply to it could be written. */
  datatype Event = Published(p: PublishPacket, ok: bool) | ReleaseAsked(id: U16, ok: bool)

  function Handle(c: Core, e: Event): Effect {
    match e
    case Published(p, ok) => OnPublish(c, p, ok)
    case ReleaseAsked(id, ok) => OnPubRel(c, id, ok)
  }

  /** The state after a history of packets. */
  function After(c: Core, h: seq<Event>): Core {
    if h == [] then c else Handle(After(c, h[..|h| - 1]), h[|h| - 1]).core
  }

  /** The message that the packet at position `j` of a history releases. */
  function ReleaseAt(c: Core, h: seq<Event>, j: nat): Option<PublishPacket>
    requires j < |h|
  {
    if h[j].ReleaseAsked? then Handle(After(c, h[..j]), h[j]).offered else None
  }

  // ---------- the history, read without a state ----------

  /** A QoS 2 PUBLISH with this identifier, first transmission or not. */
  predicate Offers(e: Event, id: U16) {
    e.Published? && e.p.qos == ExactlyOnce && e.p.packetId == Some(id)
  }

  /** A PUBREL with this identifier that could be answered. */
  predicate Frees(e: Event, id: U16) {
    e.ReleaseAsked? && e.id == id && e.ok
  }

  ghost predicate FreedBetween(h: seq<Event>, id: U16, i: nat, j: nat) {
    exists k | i < k < j && k < |h| :: Frees(h[k], id)
  }

  /** Position `i` holds the first PUBLISH with this identifier since the last
      PUBREL with it. */
  ghost predicate Pending(h: seq<Event>, id: U16, i: nat) {
    && i < |h|
    && Offers(h[i], id)
    && !FreedBetween(h, id, i, |h|)
    && (forall k: nat | k < i && Offers(h[k], id) :: FreedBetween(h, id, k, i))
  }

  lemma FreedPrefix(h: seq<Event>, id: U16, i: nat, j: nat)
    requires |h| > 0 && j <= |h| - 1
    ensures FreedBetween(h, id, i, j) <==> FreedBetween(h[..|h| - 1], id, i, j)
  {
    var front := h[..|h| - 1];
    if FreedBetween(h, id, i, j) {
      var k :| i < k < j && k < |h| && Frees(h[k], id);
      assert Frees(front[k], id);
    }
    if FreedBetween(front, id, i, j) {
      var k :| i < k < j && k < |front| && Frees(front[k], id);
      assert Frees(h[k], id);
    }
  }

  lemma PendingPrefix(h: seq<Event>, id: U16, i: nat)
    requires |h| > 0 && i < |h| - 1
    ensures Pending(h, id, i) <==> Pending(h[..|h| - 1], id, i) && !Frees(h[|h| - 1], id)
  {
    var n := |h| - 1;
    forall k: nat | k < i
      ensures FreedBetween(h, id, k, i) <==> FreedBetween(h[..n], id, k, i)
    {
      FreedPrefix(h, id, k, i);
    }
    assert FreedBetween(h, id, i, |h|) <==> FreedBetween(h[..n], id, i, n) || Frees(h[n], id) by {
      if FreedBetween(h, id, i, |h|) {
        var k :| i < k < |h| && Frees(h[k], id);
        assert k < n ==> Frees(h[..n][k], id);
      }
      if FreedBetween(h[..n], id, i, n) {
        FreedPrefix(h, id, i, n);
        var k :| i < k < n && k < |h| && Frees(h[k], id);
      }
      if Frees(h[n], id) {
        assert i < n < |h|;
      }
    }
  }

  /** A PUBLISH that no PUBREL has followed leaves some PUBLISH pending. */
  lemma {:induction false} UnfreedIsPending(h: seq<Event>, id: U16, k: nat) returns (i: nat)
    requires k < |h| && Offers(h[k], id) && !FreedBetween(h, id, k, |h|)
    ensures Pending(h, id, i)
    decreases k
  {
    if Pending(h, id, k) {
      i := k;
    } else {
      var k': nat :| k' < k && Offers(h[k'], id) && !FreedBetween(h, id, k', k);
      assert forall f | k' < f < |h| :: !Frees(h[f], id);
      i := UnfreedIsPending(h, id, k');
    }
  }

  /** What the session holds is what the history says: under an identifier, the
      first PUBLISH since the last PUBREL. */
  lemma {:induction false} HeldIsPending(c: Core, h: seq<Event>, id: U16)
    requires id !in c.inbound
    ensures id in After(c, h).inbound <==> exists i: nat :: Pending(h, id, i)
    ensures forall i: nat :: Pending(h, id, i) ==> After(c, h).inbound[id] == h[i].p
    decreases |h|
  {
    if h != [] {
      var n := |h| - 1;
      var front, last := h[..n], h[n];
      HeldIsPending(c, front, id);
      forall i: nat | i < n
        ensures Pending(h, id, i) <==> Pending(front, id, i) && !Frees(last, id)
      {
        PendingPrefix(h, id, i);
      }
      var held := id in After(c, front).inbound;
      if Offers(last, id) {
        if held {
          var i: nat :| Pending(front, id, i);
          LaterIsNotPending(h, id, i);
          assert Pending(h, id, i);
        } else {
          FreshIsPending(h, front, id);
        }
      } else {
        assert !Pending(h, id, n);
        if held && !Frees(last, id) {
          var i: nat :| Pending(front, id, i);
          assert Pending(h, id, i);
        }
      }
    }
  }

  lemma LaterIsNotPending(h: seq<Event>, id: U16, i: nat)
    requires |h| > 0 && Pending(h[..|h| - 1], id, i)
    ensures !Pending(h, id, |h| - 1)
  {
    var n := |h| - 1;
    FreedPrefix(h, id, i, n);
    assert Offers(h[i], id);
  }

  lemma FreshIsPending(h: seq<Event>, front: seq<Event>, id: U16)
    requires |h| > 0 && Offers(h[|h| - 1], id)
    requires front == h[..|h| - 1]
    requires !exists i: nat :: Pending(front, id, i)
    ensures Pending(h, id, |h| - 1)
  {
    var n := |h| - 1;
    forall k: nat | k < n && Offers(h[k], id)
      ensures FreedBetween(h, id, k, n)
    {
      FreedPrefix(h, id, k, n);
      if !FreedBetween(front, id, k, n) {
        assert Offers(front[k], id);
        var i := UnfreedIsPending(front, id, k);
      }
    }
  }

  /** A PUBREL that can be answered releases the first PUBLISH with its
      identifier since the previous such PUBREL, if there is one; nothing else
      is ever released. */
  lemma ReleaseIsPending(c: Core, h: seq<Event>, j: nat)
    requires j < |h| && c.inbound == map[]
    ensures ReleaseAt(c, h, j).Some?
       <==> h[j].ReleaseAsked? && h[j].ok && exists i: nat :: Pending(h[..j], h[j].id, i)
    ensures ReleaseAt(c, h, j).Some? ==>
              forall i: nat :: Pending(h[..j], h[j].id, i) ==> ReleaseAt(c, h, j) == Some(h[i].p)
  {
    if h[j].ReleaseAsked? {
      HeldIsPending(c, h[..j], h[j].id);
    }
  }

  // ---------- what is handed on, and what is answered ----------

  /** What the packet at position `j` of a history hands on for routing. */
  function HandedOnAt(c: Core, h: seq<Event>, j: nat): Option<PublishPacket>
    requires j < |h|
  {
    Handle(After(c, h[..j]), h[j]).offered
  }

  function ReplyAt(c: Core, h: seq<Event>, j: nat): Option<Packet>
    requires j < |h|
  {
    Handle(After(c, h[..j]), h[j]).reply
  }

  /** A PUBLISH that is routed at once: at QoS 0 every one, at QoS 1 one with an
      identifier and without the dup flag, if its PUBACK could be written. */
  predicate RoutedAtOnce(e: Event) {
    && e.Published?
    && (e.p.qos == AtMostOnce || (e.p.qos == AtLeastOnce && e.p.packetId.Some? && !e.p.dup && e.ok))
  }

  /** Whatever has come before, a PUBLISH that is routed at once is handed on as it
      is; a PUBREL hands on the PUBLISH that is pending, if it could be answered;
      and nothing else is ever handed on. */
  lemma HandedOn(c: Core, h: seq<Event>, j: nat)
    requires j < |h| && c.inbound == map[]
    ensures h[j].Published? ==> HandedOnAt(c, h, j) == if RoutedAtOnce(h[j]) then Some(h[j].p) else None
    ensures h[j].ReleaseAsked? ==>
              && (HandedOnAt(c, h, j).Some? <==> h[j].ok && exists i: nat :: Pending(h[..j], h[j].id, i))
              && (HandedOnAt(c, h, j).Some? ==>
                    forall i: nat :: Pending(h[..j], h[j].id, i) ==> HandedOnAt(c, h, j) == Some(h[i].p))
  {
    if h[j].ReleaseAsked? {
      ReleaseIsPending(c, h, j);
    }
  }

  /** A PUBLISH at QoS 1 is answered by PUBACK, at QoS 2 by PUBREC, a PUBREL by
      PUBCOMP, always under its own identifier; a PUBLISH at QoS 0 by nothing, and
      without an identifier it ends the connection where it needs one. A PUBLISH at
      QoS 0 or 1 leaves the session as it was. */
  lemma Answers(c: Core, h: seq<Event>, j: nat)
    requires j < |h|
    ensures match h[j]
            case ReleaseAsked(id, ok) =>
              && ReplyAt(c, h, j) == Some(PubComp(id))
              && Handle(After(c, h[..j]), h[j]).outcome == (if ok then Continue else Failed)
            case Published(p, ok) =>
              var e := Handle(After(c, h[..j]), h[j]);
              && ReplyAt(c, h, j) == (if p.qos == AtMostOnce || p.packetId.None? then None
                                      else if p.qos == AtLeastOnce then Some(PubAck(p.packetId.value))
                                      else Some(PubRec(p.packetId.value)))
              && (p.qos != ExactlyOnce || p.packetId.None? ==> e.core == After(c, h[..j]))
              && e.outcome == (if p.qos == AtMostOnce then Continue
                               else if p.packetId.None? then Disconnected
                               else if ok then Continue else Failed)
  {
  }

  // ---------- conservation ----------

  /** A QoS 2 PUBLISH is taken in if its identifier is free. */
  function TakenIn(before: Core, e: Event): multiset<PublishPacket> {
    if e.Published? && e.p.qos == ExactlyOnce && e.p.packetId.Some? && e.p.packetId.value !in before.inbound
    then multiset{e.p} else multiset{}
  }

  function LetOut(before: Core, e: Event): multiset<PublishPacket> {
    if e.ReleaseAsked? && Handle(before, e).offered.Some? then multiset{Handle(before, e).offered.value} else multiset{}
  }

  /** The PUBLISH packets of a history that are routed at once. */
  function Direct(h: seq<Event>): multiset<PublishPacket> {
    if h == [] then multiset{}
    else Direct(h[..|h| - 1]) + if RoutedAtOnce(h[|h| - 1]) then multiset{h[|h| - 1].p} else multiset{}
  }

  /** All that is handed on and that the access list treats as `allowed`. */
  function Handed(c: Core, h: seq<Event>, may: PublishPacket -> bool, allowed: bool): multiset<PublishPacket> {
    if h == [] then multiset{}
    else
      var r := HandedOnAt(c, h, |h| - 1);
      Handed(c, h[..|h| - 1], may, allowed) + if r.Some? && may(r.value) == allowed then multiset{r.value} else multiset{}
  }

  function Accepted(c: Core, h: seq<Event>): multiset<PublishPacket> {
    if h == [] then multiset{}
    else Accepted(c, h[..|h| - 1]) + TakenIn(After(c, h[..|h| - 1]), h[|h| - 1])
  }

  /** The released messages that the access list treats as `allowed`. */
  function Released(c: Core, h: seq<Event>, may: PublishPacket -> bool, allowed: bool): multiset<PublishPacket> {
    if h == [] then multiset{}
    else
      var r := ReleaseAt(c, h, |h| - 1);
      Released(c, h[..|h| - 1], may, allowed)
      + if r.Some? && may(r.value) == allowed then multiset{r.value} else multiset{}
  }

  ghost predicate OwnIds(m: map<U16, PublishPacket>) {
    forall id <- m :: m[id].packetId == Some(id)
  }

  lemma ValuesAdded(m: map<U16, PublishPacket>, id: U16, p: PublishPacket)
    requires OwnIds(m) && id !in m && p.packetId == Some(id)
    ensures multiset(m[id := p].Values) == multiset(m.Values) + multiset{p}
  {
    var m' := m[id := p];
    assert p !in m.Values;
    forall v | v in m.Values
      ensures v in m'.Values
    {
      var k :| k in m && m[k] == v;
      assert m'[k] == v;
    }
    assert m'[id] == p;
    assert m'.Values == m.Values + {p};
  }

  lemma ValuesRemoved(m: map<U16, PublishPacket>, id: U16)
    requires OwnIds(m) && id in m
    ensures multiset(m.Values) == multiset((m - {id}).Values) + multiset{m[id]}
  {
    var m' := m - {id};
    assert m == m'[id := m[id]];
    ValuesAdded(m', id, m[id]);
  }

  lemma {:induction false} IdsAreOwn(c: Core, h: seq<Event>)
    requires OwnIds(c.inbound)
    ensures OwnIds(After(c, h).inbound)
    decreases |h|
  {
    if h != [] {
      IdsAreOwn(c, h[..|h| - 1]);
    }
  }

  /** The received messages are always fit to be saved: QoS 2 messages under
      their own identifier. */
  lemma {:induction false} ReceivedWellKept(c: Core, h: seq<Event>)
    requires forall id <- c.inbound :: WellKeptMessage(id, c.inbound[id])
    ensures forall id <- After(c, h).inbound :: WellKeptMessage(id, After(c, h).inbound[id])
    decreases |h|
  {
    if h != [] {
      ReceivedWellKept(c, h[..|h| - 1]);
    }
  }

  lemma StepConserves(before: Core, e: Event)
    requires OwnIds(before.inbound)
    ensures multiset(before.inbound.Values) + TakenIn(before, e)
         == LetOut(before, e) + multiset(Handle(before, e).core.inbound.Values)
  {
    match e {
      case ReleaseAsked(id, ok) =>
        if ok && id in before.inbound {
          ValuesRemoved(before.inbound, id);
        }
      case Published(p, ok) =>
        if p.qos == ExactlyOnce && p.packetId.Some? && p.packetId.value !in before.inbound {
          ValuesAdded(before.inbound, p.packetId.value, p);
        }
    }
  }

  lemma ReleasedStep(c: Core, h: seq<Event>, may: PublishPacket -> bool)
    requires h != []
    ensures Released(c, h, may, true) + Released(c, h, may, false)
         == Released(c, h[..|h| - 1], may, true) + Released(c, h[..|h| - 1], may, false)
            + LetOut(After(c, h[..|h| - 1]), h[|h| - 1])
  {
  }

  lemma Balance<T>(taken: multiset<T>, out: multiset<T>, held: multiset<T>, more: multiset<T>, less: multiset<T>,
                   held': multiset<T>)
    requires taken == out + held
    requires held + more == less + held'
    ensures taken + more == out + less + held'
  {
    assert taken + more == out + (held + more);
  }

  /** Every message taken in is routed, denied by the access list, or still
      waiting for its PUBREL. */
  lemma {:induction false} InboundConservation(c: Core, h: seq<Event>, may: PublishPacket -> bool)
    requires c.inbound == map[]
    ensures Accepted(c, h)
         == Released(c, h, may, true) + Released(c, h, may, false) + multiset(After(c, h).inbound.Values)
    decreases |h|
  {
    if h != [] {
      var front, last := h[..|h| - 1], h[|h| - 1];
      InboundConservation(c, front, may);
      IdsAreOwn(c, front);
      StepConserves(After(c, front), last);
      ReleasedStep(c, h, may);
      Balance(Accepted(c, front), Released(c, front, may, true) + Released(c, front, may, false),
              multiset(After(c, front).inbound.Values), TakenIn(After(c, front), last),
              LetOut(After(c, front), last), multiset(After(c, h).inbound.Values));
    }
  }

  function OptionBag<T>(o: Option<T>): multiset<T> {
    if o.Some? then multiset{o.value} else multiset{}
  }

  /** What one packet hands on is routed at once or let out. */
  lemma OneHandsOn(before: Core, e: Event)
    ensures OptionBag(Handle(before, e).offered) == (if RoutedAtOnce(e) then multiset{e.p} else multiset{}) + LetOut(before, e)
  {
  }

  lemma HandedStep(c: Core, h: seq<Event>, may: PublishPacket -> bool)
    requires h != []
    ensures var front, last := h[..|h| - 1], h[|h| - 1];
            Handed(c, h, may, true) + Handed(c, h, may, false)
            == Handed(c, front, may, true) + Handed(c, front, may, false)
               + (if RoutedAtOnce(last) then multiset{last.p} else multiset{})
               + LetOut(After(c, front), last)
  {
    OneHandsOn(After(c, h[..|h| - 1]), h[|h| - 1]);
  }

  lemma {:induction false} HandedIsDirectAndReleased(c: Core, h: seq<Event>, may: PublishPacket -> bool)
    ensures Handed(c, h, may, true) + Handed(c, h, may, false)
         == Direct(h) + Released(c, h, may, true) + Released(c, h, may, false)
    decreases |h|
  {
    if h != [] {
      HandedIsDirectAndReleased(c, h[..|h| - 1], may);
      HandedStep(c, h, may);
      ReleasedStep(c, h, may);
    }
  }

  /** Every message that is routed at once or taken in is routed, denied by the
      access list, or still waiting for its PUBREL; and nothing else is routed. */
  lemma HandedConservation(c: Core, h: seq<Event>, may: PublishPacket -> bool)
    requires c.inbound == map[]
    ensures Direct(h) + Accepted(c, h)
         == Handed(c, h, may, true) + Handed(c, h, may, false) + multiset(After(c, h).inbound.Values)
  {
    InboundConservation(c, h, may);
    HandedIsDirectAndReleased(c, h, may);
  }

  // ---------- a clean takeover ----------

  /** A case where the message of the previous session is released instead. */
  lemma CleanTakeoverKeepsOld()
    ensures var before, after := PublishPacket([97], Some(1), [1], ExactlyOnce, false, false),
                                 PublishPacket([97], Some(1), [2], ExactlyOnce, false, false);
            ReleaseAt(OnTakeover(Core(1, [], map[1 := before]), true, true),
                      [Published(after, true), ReleaseAsked(1, true)], 1) == Some(before)
  {
    var before, after := PublishPacket([97], Some(1), [1], ExactlyOnce, false, false),
                         PublishPacket([97], Some(1), [2], ExactlyOnce, false, false);
    var c, h := Core(1, [], map[1 := before]), [Published(after, true), ReleaseAsked(1, true)];
    assert After(c, h[..1]) == c by {
      assert h[..1] == [h[0]] && h[..1][..0] == [];
    }
  }

  lemma {:induction false} AfterByInbound(c: Core, c': Core, h: seq<Event>)
    requires c.inbound == c'.inbound
    ensures After(c, h).inbound == After(c', h).inbound
    decreases |h|
  {
    if h != [] {
      AfterByInbound(c, c', h[..|h| - 1]);
    }
  }

  /** A clean takeover makes the session release what a new one would, whatever
      comes in, exactly if no received message was being held. */
  lemma CleanTakeoverForgets(c: Core)
    ensures (forall h: seq<Event>, j: nat | j < |h| ::
               ReleaseAt(OnTakeover(c, true, true), h, j) == ReleaseAt(Core(c.nextPacketId, [], map[]), h, j))
       <==> c.inbound == map[]
  {
    var taken, new' := OnTakeover(c, true, true), Core(c.nextPacketId, [], map[]);
    if c.inbound == map[] {
      forall h: seq<Event>, j: nat | j < |h|
        ensures ReleaseAt(taken, h, j) == ReleaseAt(new', h, j)
      {
        AfterByInbound(taken, new', h[..j]);
      }
    } else {
      var id :| id in c.inbound;
      var h := [ReleaseAsked(id, true)];
      assert ReleaseAt(taken, h, 0) == Some(c.inbound[id]) && ReleaseAt(new', h, 0) == None;
    }
  }
}
