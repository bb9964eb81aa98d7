/** Section 3.1.2.4 of MQTT 3.1.1: a connection with the clean flag discards the
    previous session. A session that is taken over with that flag drops its
    in-flight queue, its subscriptions and its saved copy, and keeps three
    things: the received messages, the mailbox and the will. This module follows
    all a session can do afterwards, and what of it can be seen from outside. */
module CleanStart {
  import opened Base
  import opened Packets
  import opened Storage
  import opened Engine
  import opened OutboundProofs
  import opened OutboundTheorems
  import opened OutboundOrder
  import Inbound
  import Outbound

  /** A session with its mailbox, its clock and its will. */
  datatype Whole = Whole(plain: Outbound.Plain, will: Option<WillMessage>)

  datatype Event =
    | Incoming(packet: Inbound.Event)  // a PUBLISH or PUBREL from the client
    | Outgoing(event: Outbound.Event)  // anything on the way to the client
    | Ends                          // the session ends, and with it publishes its will

  /** What one event makes the session write, and what it hands on. */
  datatype Seen = Seen(written: seq<Packet>, handedOn: Option<PublishPacket>)

  function Next(w: Whole, cfg: Config, ev: Event): Whole {
    match ev
    case Incoming(packet) => w.(plain := w.plain.(core := Inbound.Handle(w.plain.core, packet).core))
    case Outgoing(event) => w.(plain := Outbound.Step(w.plain, cfg, event))
    case Ends => w.(will := None)
  }

  function See(w: Whole, cfg: Config, ev: Event): Seen {
    match ev
    case Incoming(packet) =>
      var effect := Inbound.Handle(w.plain.core, packet);
      Seen(if packet.ok then OptionSeq(effect.reply) else [], effect.offered)
    case Outgoing(event) => Seen(Outbound.Written(w.plain, cfg, event), None)
    case Ends => Seen([], if w.will.Some? then Some(WillPublication(w.will.value)) else None)
  }

  /** All that can be seen of a session from here on. */
  function Behaviour(w: Whole, cfg: Config, evs: seq<Event>): seq<Seen>
    decreases |evs|
  {
    if evs == [] then [] else [See(w, cfg, evs[0])] + Behaviour(Next(w, cfg, evs[0]), cfg, evs[1..])
  }

  function TakenOverClean(w: Whole, cfg: Config): Whole {
    Next(w, cfg, Outgoing(Outbound.TakenOver(true)))
  }

  /** A session that starts from nothing, but for the clock and the next
      identifier. */
  function Anew(w: Whole): Whole {
    Whole(Outbound.Plain(Core(w.plain.core.nextPacketId, [], map[]), [], w.plain.clock), None)
  }

  lemma OneEvent(w: Whole, cfg: Config, ev: Event)
    ensures Behaviour(w, cfg, [ev]) == [See(w, cfg, ev)]
  {
    assert [ev][1..] == [];
  }

  lemma SeenApart(w: Whole, w': Whole, cfg: Config, ev: Event)
    requires See(w, cfg, ev) != See(w', cfg, ev)
    ensures Behaviour(w, cfg, [ev]) != Behaviour(w', cfg, [ev])
  {
    OneEvent(w, cfg, ev);
    OneEvent(w', cfg, ev);
    assert [See(w, cfg, ev)][0] != [See(w', cfg, ev)][0];
  }

  /** The event that shows what a clean takeover left behind. */
  lemma Telltale(w: Whole, cfg: Config) returns (ev: Event)
    requires forall m <- w.plain.mailbox :: m.Publish?
    requires w.plain.core.inbound != map[] || w.plain.mailbox != [] || w.will != None
    ensures See(TakenOverClean(w, cfg), cfg, ev) != See(Anew(w), cfg, ev)
  {
    var taken := TakenOverClean(w, cfg);
    if w.will != None {
      ev := Ends;
    } else if w.plain.mailbox != [] {
      ev := Outgoing(Outbound.Delivers(true));
      assert taken.plain.mailbox[0] in w.plain.mailbox;
      assert |See(taken, cfg, ev).written| == 1 && See(Anew(w), cfg, ev).written == [];
    } else {
      var id :| id in w.plain.core.inbound;
      ev := Incoming(Inbound.ReleaseAsked(id, true));
    }
  }

  /** After a clean takeover a session behaves like one that starts from
      nothing, whatever happens next, exactly if it was holding no received
      message, its mailbox was empty and it had no will. */
  lemma CleanTakeoverStartsAfresh(w: Whole, cfg: Config)
    requires forall m <- w.plain.mailbox :: m.Publish?
    ensures (forall evs :: Behaviour(TakenOverClean(w, cfg), cfg, evs) == Behaviour(Anew(w), cfg, evs))
       <==> w.plain.core.inbound == map[] && w.plain.mailbox == [] && w.will == None
  {
    if w.plain.core.inbound == map[] && w.plain.mailbox == [] && w.will == None {
      assert TakenOverClean(w, cfg) == Anew(w);
    } else {
      var ev := Telltale(w, cfg);
      SeenApart(TakenOverClean(w, cfg), Anew(w), cfg, ev);
    }
  }

  // ---------- what runs leave behind ----------

  /** Of every run of outbound events: the next client gets nothing meant for
      the previous one exactly if the mailbox was empty. */
  lemma CleanTakeoverAfterRun(cfg: Config, start: U16, evs: seq<Outbound.Event>)
    requires 1 <= start
    ensures var w := Whole(Outbound.Erase(Run(cfg, start, evs)), None);
            (forall more :: Behaviour(TakenOverClean(w, cfg), cfg, more) == Behaviour(Anew(w), cfg, more))
            <==> Run(cfg, start, evs).mailbox == []
  {
    var t := Run(cfg, start, evs);
    forall m | m in t.mailbox
      ensures m.Publish?
    {
      MailboxIdentifiers(cfg, start, evs, m);
    }
    CleanTakeoverStartsAfresh(Whole(Outbound.Erase(t), None), cfg);
  }

  /** A message that was waiting in the mailbox goes to the next client. */
  lemma MailboxSurvives(cfg: Config, start: U16, p: PublishPacket)
    requires 1 <= start
    ensures var t := Run(cfg, start, [Outbound.Arrives(p), Outbound.TakenOver(true)]);
            && t.mailbox == [Outbound.Forwarded(p)]
            && Outbound.Written(Outbound.Erase(t), cfg, Outbound.Delivers(true)) != []
  {
    var evs := [Outbound.Arrives(p), Outbound.TakenOver(true)];
    assert evs[1..] == [Outbound.TakenOver(true)] && evs[1..][1..] == [];
    var t1 := Outbound.TraceStep(Start(start), cfg, Outbound.Arrives(p));
    var t2 := Outbound.TraceStep(t1, cfg, Outbound.TakenOver(true));
    assert RunFrom(t1, cfg, evs[1..]) == RunFrom(t2, cfg, []);
  }

  /** So does the retransmission of a message that the takeover itself has
      struck off: cleared, and written to the next client all the same. */
  lemma ClearedIsSent()
    ensures var t := Run(EVERY_500_MS, 1, [Outbound.Arrives(Example()), Outbound.Delivers(true), Outbound.Waits(500),
                                           Outbound.Ticks, Outbound.TakenOver(true)]);
            && 0 in t.gone && t.gone[0].Left? && t.gone[0].fate == Outbound.Cleared && t.queue == []
            && Outbound.Written(Outbound.Erase(t), EVERY_500_MS, Outbound.Delivers(true)) == [Publish(t.gone[0].last.e.packet)]
  {
    FiveEvents(Start(1), EVERY_500_MS, Outbound.Arrives(Example()), Outbound.Delivers(true), Outbound.Waits(500),
               Outbound.Ticks, Outbound.TakenOver(true));
    SentAndTimedOut();
    var t := Outbound.TraceStep(Outbound.TraceStep(Outbound.TraceStep(Start(1), EVERY_500_MS,
               Outbound.Arrives(Example())), EVERY_500_MS, Outbound.Delivers(true)), EVERY_500_MS, Outbound.Waits(500));
    TickedOnce(t, Tracked(Example(), 1, 0));
    StruckOff(Outbound.TraceStep(t, EVERY_500_MS, Outbound.Ticks), Retried(Tracked(Example(), 1, 0), 500));
  }

  lemma StruckOff(t: Outbound.Traced, e: Entry)
    requires t.queue == [Outbound.Tagged(e, 0, [0, 500], [])] && t.mailbox == [Publish(e.packet)]
    requires e.packet.dup
    ensures var t' := Outbound.TraceStep(t, EVERY_500_MS, Outbound.TakenOver(true));
            && 0 in t'.gone && t'.gone[0] == Outbound.Left(Outbound.Cleared, t.queue[0]) && t'.queue == []
            && t'.mailbox == t.mailbox
            && Outbound.Written(Outbound.Erase(t'), EVERY_500_MS, Outbound.Delivers(true)) == [Publish(e.packet)]
  {
    assert t.queue[..0] == [];
    Outbound.EraseClear(t.queue);
    var f := Outbound.OnClear();
    assert Outbound.Leavers(t.queue, f) == Outbound.Leavers(t.queue[..0], f)[0 := Outbound.Left(Outbound.Cleared, t.queue[0])];
  }

  /** The previous client's will is published when the session ends; a new
      session would publish nothing. */
  lemma WillSurvives(w: Whole, cfg: Config, m: WillMessage)
    requires w.will == Some(m)
    ensures Behaviour(TakenOverClean(w, cfg), cfg, [Ends])
         == [Seen([], Some(PublishPacket(m.topic, None, m.payload, AtMostOnce, m.retain, false)))]
    ensures Behaviour(Anew(w), cfg, [Ends]) == [Seen([], None)]
  {
    OneEvent(TakenOverClean(w, cfg), cfg, Ends);
    OneEvent(Anew(w), cfg, Ends);
  }
}
