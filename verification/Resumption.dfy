/** A persistent session across two connections: the old one saves and goes,
    the new one restores. */
module Resumption {
  import opened Base
  import opened Packets
  import opened Topics
  import opened Storage
  import opened Routing
  import opened Engine
  import opened Persistence
  import opened Session

  lemma {:induction false} AskedAt(filters: seq<(Text, QoS)>, f: Text, i: nat)
    requires i < |filters| && filters[i].0 == f
    requires forall j | i < j < |filters| :: filters[j].0 != f
    ensures LastAsked(filters, f) == Some(filters[i].1)
    decreases |filters|
  {
    if i < |filters| - 1 {
      AskedAt(filters[..|filters| - 1], f, i);
    }
  }

  lemma {:induction false} NotAsked(filters: seq<(Text, QoS)>, f: Text)
    requires forall j | 0 <= j < |filters| :: filters[j].0 != f
    ensures LastAsked(filters, f) == None
    decreases |filters|
  {
    if filters != [] {
      NotAsked(filters[..|filters| - 1], f);
    }
  }

  /** Subscribing again from saved rows asks for exactly what was subscribed. */
  lemma SubscriptionsComeBack(rows: seq<SubscriptionRow>, subs: map<Text, QoS>, clientId: Text, f: Text)
    requires SubscriptionRows(rows, subs, clientId)
    requires forall f <- subs :: ValidFilter(f)
    ensures Requested(Requests(rows), f) == if f in subs then Some(subs[f]) else None
  {
    if f in subs {
      var i :| 0 <= i < |rows| && rows[i] == SubscriptionRow(clientId, f, subs[f]);
      assert rows[i].filter == f;
      AskedAt(Requests(rows), f, i);
    } else {
      NotAsked(Requests(rows), f);
    }
  }

  /** The old session's last steps: its state is saved, and it unsubscribes. */
  method Leave(previous: Runtime, client: Text, now: int) returns (ghost saved: SavedSession)
    requires previous.Valid() && previous.clientId == Some(client)
    modifies previous.router`filters, previous.router`sessions, previous.router.storage
    ensures previous.Valid()
    ensures Saves(saved, old(previous.ToKeep()), client, now)
    ensures previous.router.storage.State() == old(previous.router.storage.State()).Save(saved)
    ensures forall s, f :: previous.router.Lookup(s, f) ==
              if s == previous.id then None else old(previous.router.Lookup(s, f))
  {
    ghost var s := previous.SaveToStorage(now);
    saved := s.value;
    previous.router.UnsubscribeAll(previous.id);
  }

  /** What was just saved for a client is what is found for it. */
  lemma SavedIsFound(m: MemoryState, s: SavedSession)
    ensures var m', c := m.Save(s), s.session.clientId;
            && m'.Session(c) == Some(s.session) && m'.Subscriptions(c) == s.subscriptions
            && m'.Inflight(c) == s.inflight && m'.Inbound(c) == s.inbound
            && m'.Delete(c).Session(c) == None
  {
  }

  /** The new session's first steps, given that `saved` is in storage. */
  method Return(next: Runtime, client: Text, later: nat, ghost saved: SavedSession, ghost m: MemoryState)
    requires next.Valid() && saved.session.clientId == client
    requires next.router.storage.State() == m.Save(saved)
    requires next.State() == Core(1, [], map[])
    modifies next, next.router`filters, next.router`sessions, next.router.storage
    ensures next.Valid()
    ensures next.State() == Restored(saved, later)
    ensures next.keepAlive == saved.session.keepAlive && next.willMessage == saved.session.will
    ensures forall s, f :: next.router.Lookup(s, f) ==
              if s == next.id && Requested(Requests(saved.subscriptions), f).Some?
              then Some(Subscription(next.mailbox, Requested(Requests(saved.subscriptions), f).value))
              else old(next.router.Lookup(s, f))
    ensures next.router.storage.State().Session(client) == None
  {
    SavedIsFound(m, saved);
    var present := next.RestoreFromStorage(client, later);
    assert [] + RestoredInflight(saved.inflight, later) == RestoredInflight(saved.inflight, later);
    assert map[] + RestoredInbound(saved.inbound) == RestoredInbound(saved.inbound);
  }

  /** The new session has all the old one had: the delivery state (clock
      readings and inbound dup bits aside), keep-alive, will, and the
      subscriptions, which now lead to its own mailbox. Nobody else's
      subscriptions are touched, and the saved copy is gone. */
  method DisconnectAndReturn(previous: Runtime, next: Runtime, client: Text, now: int, later: nat)
    requires previous.router == next.router && previous.Valid()
    requires previous != next && previous.id != next.id
    requires previous.clientId == Some(client)
    requires WellKept(previous.State())
    requires next.State() == Core(1, [], map[])
    requires forall f :: next.router.Lookup(next.id, f) == None
    modifies next, next.router`filters, next.router`sessions, next.router.storage
    ensures next.Valid()
    ensures next.State() == Resumed(old(previous.State()), later)
    ensures next.keepAlive == old(previous.keepAlive) && next.willMessage == old(previous.willMessage)
    ensures forall s, f :: next.router.Lookup(s, f) ==
              if s == previous.id then None
              else if s == next.id then
                (match old(previous.router.Lookup(previous.id, f))
                 case None => None
                 case Some(sub) => Some(Subscription(next.mailbox, sub.qos)))
              else old(previous.router.Lookup(s, f))
    ensures next.router.storage.State().Session(client) == None
  {
    ghost var kept, m := previous.ToKeep(), next.router.storage.State();
    ghost var saved := Leave(previous, client, now);
    Return(next, client, later, saved, m);
    SaveRestoreIdentity(saved, kept, client, now, later);
    forall f
      ensures Requested(Requests(saved.subscriptions), f) == if f in kept.subs then Some(kept.subs[f]) else None
    {
      SubscriptionsComeBack(saved.subscriptions, kept.subs, client, f);
    }
  }
}
