/** QoS 1 end to end (section 4.3.2 of MQTT 3.1.1): a client that sends a message
    until it is acknowledged, repeats with the dup flag set, and the session's
    own handler at the other end. The session acknowledges every PUBLISH and
    routes only those without the dup flag; so a message gets through exactly if
    its first transmission does. */
module AtLeastOnce {
  import opened Base
  import opened Packets
  import opened Engine

  datatype Step =
    | Submit(id: U16, m: Message)
    | Resend(id: U16)
    | ClientReceives
    | ServerReceives(ok: bool)       // whether the reply can be written
    | Breaks                         // the connection is lost, and another one made

  function PacketFor(m: Message, id: U16, dup: bool): PublishPacket {
    PublishPacket(m.topic, Some(id), m.payload, AtLeastOnce, m.retain, dup)
  }

  // ---------- the system ----------

  datatype Plain = Plain(
    unfinished: map<U16, Message>,   // the client's side
    up: seq<PublishPacket>,
    down: seq<Packet>,
    server: Core,
    routed: seq<PublishPacket>)

  function PlainClientReceives(s: Plain): Plain {
    if s.down == [] then s
    else
      var s' := s.(down := s.down[1..]);
      match s.down[0]
      case PubAck(id) => s'.(unfinished := s.unfinished - {id})
      case _ => s'
  }

  /** A reply that cannot be written breaks the connection. */
  function PlainServerReceives(s: Plain, ok: bool): Plain {
    if s.up == [] then s
    else
      var e := OnPublish(s.server, s.up[0], ok);
      var s' := s.(server := e.core, routed := s.routed + OptionSeq(e.offered));
      if ok then s'.(up := s.up[1..], down := s.down + OptionSeq(e.reply)) else s'.(up := [], down := [])
  }

  /** One step; a step that is not possible changes nothing. */
  function PlainDo(s: Plain, step: Step): Plain {
    match step
    case Submit(id, m) =>
      if id in s.unfinished then s
      else s.(unfinished := s.unfinished[id := m], up := s.up + [PacketFor(m, id, false)])
    case Resend(id) =>
      if id !in s.unfinished then s else s.(up := s.up + [PacketFor(s.unfinished[id], id, true)])
    case ClientReceives => PlainClientReceives(s)
    case ServerReceives(ok) => PlainServerReceives(s, ok)
    case Breaks => s.(up := [], down := [])
  }

  // ---------- the system with its history ----------

  datatype Sent = Sent(packet: PublishPacket, tag: nat)

  datatype Pending = Pending(m: Message, tag: nat)

  datatype World = World(
    submitted: seq<Message>,
    pending: map<U16, Pending>,
    acked: set<nat>,                 // the messages the client takes for delivered
    up: seq<Sent>,
    down: seq<Packet>,
    server: Core,
    routed: seq<(nat, PublishPacket)>,
    lost: seq<nat>)                  // the messages whose first transmission was under way at a break

  function Initial(c: Core): World {
    World([], map[], {}, [], [], c, [], [])
  }

  /** The messages whose first transmission is under way. */
  function Firsts(up: seq<Sent>): seq<nat> {
    if up == [] then [] else (if up[0].packet.dup then [] else [up[0].tag]) + Firsts(up[1..])
  }

  function Break(w: World): World {
    w.(up := [], down := [], lost := w.lost + Firsts(w.up))
  }

  function DoClientReceives(w: World): World {
    if w.down == [] then w
    else
      var w' := w.(down := w.down[1..]);
      match w.down[0]
      case PubAck(id) =>
        if id in w.pending then w'.(pending := w.pending - {id}, acked := w.acked + {w.pending[id].tag}) else w'
      case _ => w'
  }

  /** The packet at the head is among those lost when its reply cannot be
      written. */
  function DoServerReceives(w: World, ok: bool): World {
    if w.up == [] then w
    else
      var s := w.up[0];
      var e := OnPublish(w.server, s.packet, ok);
      var w' := w.(server := e.core,
                   routed := w.routed + if e.offered.Some? then [(s.tag, e.offered.value)] else []);
      if ok then w'.(up := w.up[1..], down := w.down + OptionSeq(e.reply)) else Break(w')
  }

  function Do(w: World, s: Step): World {
    match s
    case Submit(id, m) =>
      if id in w.pending then w
      else w.(submitted := w.submitted + [m], pending := w.pending[id := Pending(m, |w.submitted|)],
              up := w.up + [Sent(PacketFor(m, id, false), |w.submitted|)])
    case Resend(id) =>
      if id !in w.pending then w
      else w.(up := w.up + [Sent(PacketFor(w.pending[id].m, id, true), w.pending[id].tag)])
    case ClientReceives => DoClientReceives(w)
    case ServerReceives(ok) => DoServerReceives(w, ok)
    case Breaks => Break(w)
  }

  function Steps(w: World, steps: seq<Step>): World
    decreases |steps|
  {
    if steps == [] then w else Steps(Do(w, steps[0]), steps[1..])
  }

  // ---------- the history is only history ----------

  function SentPackets(up: seq<Sent>): seq<PublishPacket> {
    seq(|up|, i requires 0 <= i < |up| => up[i].packet)
  }

  function RoutedPackets(routed: seq<(nat, PublishPacket)>): seq<PublishPacket> {
    seq(|routed|, i requires 0 <= i < |routed| => routed[i].1)
  }

  function MessagesOf(pending: map<U16, Pending>): map<U16, Message> {
    map id <- pending :: pending[id].m
  }

  /** The system of which this is the history. */
  function Erase(w: World): Plain {
    Plain(MessagesOf(w.pending), SentPackets(w.up), w.down, w.server, RoutedPackets(w.routed))
  }

  lemma SentPacketsMore(up: seq<Sent>, s: Sent)
    ensures SentPackets(up + [s]) == SentPackets(up) + [s.packet]
  {
  }

  lemma ErasedServer(w: World, ok: bool)
    ensures Erase(DoServerReceives(w, ok)) == PlainServerReceives(Erase(w), ok)
  {
    if w.up != [] {
      var e := OnPublish(w.server, w.up[0].packet, ok);
      assert SentPackets(w.up)[1..] == SentPackets(w.up[1..]);
      assert RoutedPackets(DoServerReceives(w, ok).routed) == RoutedPackets(w.routed) + OptionSeq(e.offered);
    }
  }

  lemma ErasedClient(w: World)
    ensures Erase(DoClientReceives(w)) == PlainClientReceives(Erase(w))
  {
    if w.down != [] && w.down[0].PubAck? {
      assert MessagesOf(w.pending - {w.down[0].id}) == MessagesOf(w.pending) - {w.down[0].id};
      if w.down[0].id !in w.pending {
        assert MessagesOf(w.pending) - {w.down[0].id} == MessagesOf(w.pending);
      }
    }
  }

  /** The system does exactly what it would do without the history. */
  lemma HistoryIsFaithful(w: World, step: Step)
    ensures Erase(Do(w, step)) == PlainDo(Erase(w), step)
  {
    match step {
      case Submit(id, m) => SentPacketsMore(w.up, Sent(PacketFor(m, id, false), |w.submitted|));
      case Resend(id) =>
        if id in w.pending {
          SentPacketsMore(w.up, Sent(PacketFor(w.pending[id].m, id, true), w.pending[id].tag));
        }
      case ClientReceives => ErasedClient(w);
      case ServerReceives(ok) => ErasedServer(w, ok);
      case _ =>
    }
  }

  function PlainSteps(s: Plain, steps: seq<Step>): Plain
    decreases |steps|
  {
    if steps == [] then s else PlainSteps(PlainDo(s, steps[0]), steps[1..])
  }

  lemma {:induction false} StepsErase(w: World, steps: seq<Step>)
    ensures Erase(Steps(w, steps)) == PlainSteps(Erase(w), steps)
    decreases |steps|
  {
    if steps != [] {
      HistoryIsFaithful(w, steps[0]);
      StepsErase(Do(w, steps[0]), steps[1..]);
    }
  }

  // ---------- conservation ----------

  function Upto(n: nat): seq<nat> {
    seq(n, i => i)
  }

  function TagsOf(routed: seq<(nat, PublishPacket)>): seq<nat> {
    seq(|routed|, i requires 0 <= i < |routed| => routed[i].0)
  }

  /** Every message is under way for the first time, routed, or lost, and
      exactly one of these, once. */
  predicate Balanced(w: World) {
    multiset(Firsts(w.up)) + multiset(TagsOf(w.routed)) + multiset(w.lost) == multiset(Upto(|w.submitted|))
  }

  predicate Carries(w: World, p: PublishPacket, tag: nat) {
    && tag < |w.submitted|
    && p.packetId.Some? && p == PacketFor(w.submitted[tag], p.packetId.value, p.dup)
  }

  predicate Faithful(w: World) {
    && (forall s <- w.up :: Carries(w, s.packet, s.tag))
    && (forall id <- w.pending :: w.pending[id].tag < |w.submitted| && w.submitted[w.pending[id].tag] == w.pending[id].m)
    && (forall i | 0 <= i < |w.routed| :: Carries(w, w.routed[i].1, w.routed[i].0) && !w.routed[i].1.dup)
    && (forall t <- w.acked :: t < |w.submitted|)
  }

  lemma {:induction false} FirstsMore(up: seq<Sent>, s: Sent)
    ensures Firsts(up + [s]) == Firsts(up) + (if s.packet.dup then [] else [s.tag])
    decreases |up|
  {
    if up == [] {
      assert up + [s] == [s] && [s][1..] == [];
    } else {
      FirstsMore(up[1..], s);
      assert (up + [s])[1..] == up[1..] + [s];
    }
  }

  lemma TagsMore(routed: seq<(nat, PublishPacket)>, t: nat, p: PublishPacket)
    ensures TagsOf(routed + [(t, p)]) == TagsOf(routed) + [t]
  {
  }

  lemma SubmitBalances(w: World, id: U16, m: Message)
    requires Balanced(w) && id !in w.pending
    ensures Balanced(Do(w, Submit(id, m)))
  {
    FirstsMore(w.up, Sent(PacketFor(m, id, false), |w.submitted|));
    assert Upto(|w.submitted| + 1) == Upto(|w.submitted|) + [|w.submitted|];
  }

  lemma BreakBalances(w: World)
    requires Balanced(w)
    ensures Balanced(Break(w))
  {
  }

  /** What becomes of the first packet under way. */
  lemma ServerEffect(w: World, ok: bool)
    requires w.up != [] && w.up[0].packet.qos == AtLeastOnce && w.up[0].packet.packetId.Some?
    ensures var w', s := DoServerReceives(w, ok), w.up[0];
            && w'.submitted == w.submitted
            && w'.routed == w.routed + (if ok && !s.packet.dup then [(s.tag, s.packet)] else [])
            && (ok ==> w'.up == w.up[1..] && w'.lost == w.lost)
            && (!ok ==> w'.up == [] && w'.lost == w.lost + Firsts(w.up))
  {
  }

  lemma ServerBalances(w: World, ok: bool)
    requires Balanced(w) && w.up != [] && w.up[0].packet.qos == AtLeastOnce && w.up[0].packet.packetId.Some?
    ensures Balanced(DoServerReceives(w, ok))
  {
    var w', s := DoServerReceives(w, ok), w.up[0];
    ServerEffect(w, ok);
    TagsMore(w.routed, s.tag, s.packet);
    if s.packet.dup || !ok {
      assert w'.routed == w.routed;
    }
    assert Firsts(w.up) == if s.packet.dup then Firsts(w.up[1..]) else [s.tag] + Firsts(w.up[1..]);
  }

  lemma ResendBalances(w: World, id: U16)
    requires Balanced(w)
    ensures Balanced(Do(w, Resend(id)))
  {
    if id in w.pending {
      FirstsMore(w.up, Sent(PacketFor(w.pending[id].m, id, true), w.pending[id].tag));
    }
  }

  lemma ClientBalances(w: World)
    requires Balanced(w)
    ensures Balanced(DoClientReceives(w))
  {
  }

  lemma ReceivedBalances(w: World, ok: bool)
    requires Balanced(w) && Faithful(w)
    ensures Balanced(DoServerReceives(w, ok))
  {
    if w.up != [] {
      assert w.up[0] in w.up;
      ServerBalances(w, ok);
    }
  }

  lemma StepBalances(w: World, step: Step)
    requires Balanced(w) && Faithful(w)
    ensures Balanced(Do(w, step))
  {
    match step {
      case Submit(id, m) =>
        if id !in w.pending {
          SubmitBalances(w, id, m);
        }
      case Resend(id) => ResendBalances(w, id);
      case ServerReceives(ok) => ReceivedBalances(w, ok);
      case Breaks => BreakBalances(w);
      case ClientReceives => ClientBalances(w);
    }
  }

  lemma ServerFaithful(w: World, ok: bool)
    requires Faithful(w)
    ensures Faithful(DoServerReceives(w, ok))
  {
    if w.up != [] {
      assert w.up[0] in w.up;
      ServerEffect(w, ok);
    }
  }

  lemma StepFaithful(w: World, step: Step)
    requires Faithful(w)
    ensures Faithful(Do(w, step))
  {
    match step {
      case Submit(id, m) =>
        assert forall p, t: nat :: Carries(w, p, t) ==> Carries(Do(w, step), p, t);
      case ServerReceives(ok) => ServerFaithful(w, ok);
      case _ =>
    }
  }

  lemma {:induction false} StepsKeep(w: World, steps: seq<Step>)
    requires Balanced(w) && Faithful(w)
    ensures Balanced(Steps(w, steps)) && Faithful(Steps(w, steps))
    decreases |steps|
  {
    if steps != [] {
      StepBalances(w, steps[0]);
      StepFaithful(w, steps[0]);
      StepsKeep(Do(w, steps[0]), steps[1..]);
    }
  }

  lemma {:induction false} OnceInUpto(n: nat, t: nat)
    ensures multiset(Upto(n))[t] == if t < n then 1 else 0
    decreases n
  {
    if n > 0 {
      OnceInUpto(n - 1, t);
      assert Upto(n) == Upto(n - 1) + [n - 1];
    }
  }

  /** In every run each message has exactly one place: its first transmission is
      under way, or it has been routed, once and as it was submitted, or its
      first transmission came to nothing. */
  lemma OnePlaceEach(c: Core, steps: seq<Step>, t: nat)
    ensures var w := Steps(Initial(c), steps);
            && multiset(Firsts(w.up))[t] + multiset(TagsOf(w.routed))[t] + multiset(w.lost)[t]
               == (if t < |w.submitted| then 1 else 0)
            && (forall i | 0 <= i < |w.routed| :: Carries(w, w.routed[i].1, w.routed[i].0))
            && RoutedPackets(w.routed) == PlainSteps(Erase(Initial(c)), steps).routed
  {
    StepsKeep(Initial(c), steps);
    StepsErase(Initial(c), steps);
    OnceInUpto(|Steps(Initial(c), steps).submitted|, t);
  }

  // ---------- at least once, and when not ----------

  lemma StepKeepsLost(w: World, step: Step, t: nat)
    requires t in w.lost
    ensures t in Do(w, step).lost
  {
  }

  lemma {:induction false} LostForGood(w: World, steps: seq<Step>, t: nat)
    requires Balanced(w) && Faithful(w) && t in w.lost
    ensures t in Steps(w, steps).lost && t !in TagsOf(Steps(w, steps).routed)
    decreases |steps|
  {
    if steps == [] {
      assert t !in TagsOf(w.routed) by {
        OnceInUpto(|w.submitted|, t);
        assert multiset(w.lost)[t] >= 1;
        assert (multiset(Firsts(w.up)) + multiset(TagsOf(w.routed)) + multiset(w.lost))[t] <= 1;
        assert multiset(TagsOf(w.routed))[t] == 0;
      }
    } else {
      StepBalances(w, steps[0]);
      StepFaithful(w, steps[0]);
      StepKeepsLost(w, steps[0], t);
      LostForGood(Do(w, steps[0]), steps[1..], t);
    }
  }

  /** A message that is not lost is routed once the session has worked off what
      is under way. */
  lemma {:induction false} WorkedOff(w: World, t: nat) returns (steps: seq<Step>)
    requires Faithful(w) && (t in Firsts(w.up) || t in TagsOf(w.routed))
    ensures t in TagsOf(Steps(w, steps).routed)
    decreases |w.up|
  {
    if t in TagsOf(w.routed) {
      steps := [];
    } else {
      assert w.up[0] in w.up;
      var w' := Do(w, ServerReceives(true));
      StepFaithful(w, ServerReceives(true));
      TagsMore(w.routed, w.up[0].tag, w.up[0].packet);
      assert t in Firsts(w'.up) || t in TagsOf(w'.routed);
      var more := WorkedOff(w', t);
      steps := [ServerReceives(true)] + more;
      assert steps[1..] == more;
    }
  }

  /** A submitted message is routed, now or later, exactly if its first
      transmission has not come to nothing, whatever is resent and whatever the
      client has been told. */
  lemma RoutedUnlessLost(c: Core, steps: seq<Step>, t: nat)
    requires t < |Steps(Initial(c), steps).submitted|
    ensures var w := Steps(Initial(c), steps);
            (exists more :: t in TagsOf(Steps(w, more).routed)) <==> t !in w.lost
  {
    var w := Steps(Initial(c), steps);
    StepsKeep(Initial(c), steps);
    OnePlaceEach(c, steps, t);
    if t in w.lost {
      forall more
        ensures t !in TagsOf(Steps(w, more).routed)
      {
        LostForGood(w, more, t);
      }
    } else {
      assert multiset(w.lost)[t] == 0;
      assert t in multiset(Firsts(w.up)) || t in multiset(TagsOf(w.routed));
      var more := WorkedOff(w, t);
    }
  }

  /** Without a lost connection and a failed write nothing is lost. */
  lemma {:induction false} LosesNothing(w: World, steps: seq<Step>)
    requires Faithful(w) && w.lost == []
    requires forall i | 0 <= i < |steps| :: steps[i] != Breaks && steps[i] != ServerReceives(false)
    ensures Steps(w, steps).lost == []
    decreases |steps|
  {
    if steps != [] {
      StepFaithful(w, steps[0]);
      assert w.up != [] ==> w.up[0] in w.up;
      LosesNothing(Do(w, steps[0]), steps[1..]);
    }
  }

  lemma FiveSteps(w: World, a: Step, b: Step, c: Step, d: Step, e: Step)
    ensures Steps(w, [a, b, c, d, e]) == Do(Do(Do(Do(Do(w, a), b), c), d), e)
  {
    assert [a, b, c, d, e][1..] == [b, c, d, e] && [b, c, d, e][1..] == [c, d, e];
    assert [c, d, e][1..] == [d, e] && [d, e][1..] == [e] && [e][1..] == [];
    var w2 := Do(Do(w, a), b);
    assert Steps(w, [a, b, c, d, e]) == Steps(w2, [c, d, e]);
    var w4 := Do(Do(w2, c), d);
    assert Steps(w2, [c, d, e]) == Steps(w4, [e]);
    assert Steps(w4, [e]) == Steps(Do(w4, e), []);
  }

  lemma SentAndCut(c: Core, id: U16, m: Message)
    ensures Do(Do(Initial(c), Submit(id, m)), Breaks) == World([m], map[id := Pending(m, 0)], {}, [], [], c, [], [0])
  {
    var w := Do(Initial(c), Submit(id, m));
    assert w.up == [Sent(PacketFor(m, id, false), 0)] && w.up[1..] == [];
    assert Firsts(w.up) == [0];
  }

  /** A message that is acknowledged and will never be routed: the connection
      breaks, and the repetition is taken for a duplicate. */
  lemma AcknowledgedAndLost(c: Core, id: U16, m: Message)
    ensures var w := Steps(Initial(c), [Submit(id, m), Breaks, Resend(id), ServerReceives(true), ClientReceives]);
            && w.acked == {0} && w.pending == map[] && w.routed == []
            && forall more :: 0 !in TagsOf(Steps(w, more).routed)
  {
    var steps := [Submit(id, m), Breaks, Resend(id), ServerReceives(true), ClientReceives];
    FiveSteps(Initial(c), Submit(id, m), Breaks, Resend(id), ServerReceives(true), ClientReceives);
    SentAndCut(c, id, m);
    var cut := World([m], map[id := Pending(m, 0)], {}, [], [], c, [], [0]);
    assert Do(cut, Resend(id)).up == [Sent(PacketFor(m, id, true), 0)];
    assert Do(Do(cut, Resend(id)), ServerReceives(true)).down == [PubAck(id)];
    RoutedUnlessLost(c, steps, 0);
  }
}
