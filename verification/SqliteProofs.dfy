/** The two storage backends agree: whatever is saved and deleted, the database
    answers as the memory storage does, up to the order of rows and the time a
    session was first created. */
module SqliteProofs {
  import opened Base
  import opened Packets
  import opened Storage
  import opened Engine
  import opened Persistence
  import opened Sqlite

  // ---------- inserting ----------

  ghost predicate Distinct<K, V>(rows: seq<((Text, K), V)>) {
    forall i, j | 0 <= i < j < |rows| :: rows[i].0 != rows[j].0
  }

  /** What insertions that go through add, and that they add no more. */
  lemma {:induction false} InsertedRows<K, V>(t: Table<K, V>, rows: seq<((Text, K), V)>)
    requires InsertAll(t, rows).Some?
    ensures var t' := InsertAll(t, rows).value;
            && (forall k <- t :: k in t' && t'[k] == t[k])
            && (forall row <- rows :: row.0 in t' && t'[row.0] == row.1)
            && (forall k <- t' :: k in t || exists row :: row in rows && row.0 == k)
    decreases |rows|
  {
    if rows != [] {
      var front, last := rows[..|rows| - 1], rows[|rows| - 1];
      InsertedRows(t, front);
      assert rows == front + [last];
      var t', t'' := InsertAll(t, front).value, InsertAll(t, rows).value;
      forall k | k in t'' && k !in t
        ensures exists row :: row in rows && row.0 == k
      {
        if k in t' {
          var row :| row in front && row.0 == k;
          assert row in rows;
        } else {
          assert last in rows;
        }
      }
    }
  }

  lemma DistinctMore<K, V>(front: seq<((Text, K), V)>, last: ((Text, K), V))
    ensures Distinct(front + [last]) <==> Distinct(front) && !exists row :: row in front && row.0 == last.0
  {
    var rows, n := front + [last], |front|;
    if Distinct(rows) {
      forall i, j | 0 <= i < j < n
        ensures front[i].0 != front[j].0
      {
        assert rows[i].0 != rows[j].0;
      }
      forall row | row in front
        ensures row.0 != last.0
      {
        var i :| 0 <= i < n && front[i] == row;
        assert rows[i].0 != rows[n].0;
      }
    }
    if Distinct(front) && !exists row :: row in front && row.0 == last.0 {
      forall i, j | 0 <= i < j < |rows|
        ensures rows[i].0 != rows[j].0
      {
        assert rows[i] == front[i] && front[i] in front;
        assert j < n ==> rows[j] == front[j];
      }
    }
  }

  /** Insertions of a client's rows into a table without any go through exactly
      when their keys are distinct. */
  lemma {:induction false} InsertAllSucceeds<K, V>(t: Table<K, V>, rows: seq<((Text, K), V)>, c: Text)
    requires forall k <- t :: k.0 != c
    requires forall row <- rows :: row.0.0 == c
    ensures InsertAll(t, rows).Some? <==> Distinct(rows)
    decreases |rows|
  {
    if rows != [] {
      var front, last := rows[..|rows| - 1], rows[|rows| - 1];
      assert rows == front + [last];
      InsertAllSucceeds(t, front, c);
      DistinctMore(front, last);
      if InsertAll(t, front).Some? {
        InsertedRows(t, front);
        assert last in rows && last.0 !in t;
      }
    }
  }

  /** A table's rows for a client are exactly these entries. */
  ghost predicate HoldsClient<K, V>(entries: seq<((Text, K), V)>, t: Table<K, V>, c: Text) {
    && Distinct(entries)
    && (forall i | 0 <= i < |entries| :: entries[i].0.0 == c && entries[i].0 in t && t[entries[i].0] == entries[i].1)
    && (forall k <- t :: k.0 == c ==> exists i | 0 <= i < |entries| :: entries[i].0 == k)
  }

  /** Deleting a client's rows and inserting new ones goes through exactly when
      the new keys are distinct, and touches no other client's rows. */
  lemma Replaced<K, V>(t: Table<K, V>, entries: seq<((Text, K), V)>, c: Text)
    requires forall i | 0 <= i < |entries| :: entries[i].0.0 == c
    ensures var r := InsertAll(DeleteClient(t, c), entries);
            && (r.Some? <==> Distinct(entries))
            && (r.Some? ==> HoldsClient(entries, r.value, c) && SameOthers(t, r.value, c))
  {
    var others := DeleteClient(t, c);
    forall row | row in entries
      ensures row.0.0 == c
    {
      var i :| 0 <= i < |entries| && entries[i] == row;
    }
    InsertAllSucceeds(others, entries, c);
    if InsertAll(others, entries).Some? {
      InsertedRows(others, entries);
      var t' := InsertAll(others, entries).value;
      forall k | k in t' && k.0 == c
        ensures exists i | 0 <= i < |entries| :: entries[i].0 == k
      {
        var row :| row in entries && row.0 == k;
        var i :| 0 <= i < |entries| && entries[i] == row;
        assert entries[i].0 == k;
      }
    }
  }

  // ---------- the two backends ----------

  /** The rows carry the session's client identifier. */
  predicate OwnRows(s: SavedSession) {
    var c := s.session.clientId;
    && (forall r <- s.subscriptions :: r.clientId == c)
    && (forall r <- s.inflight :: r.clientId == c)
    && (forall r <- s.inbound :: r.clientId == c)
  }

  ghost predicate DistinctKeys(s: SavedSession) {
    && (forall i, j | 0 <= i < j < |s.subscriptions| :: s.subscriptions[i].filter != s.subscriptions[j].filter)
    && (forall i, j | 0 <= i < j < |s.inflight| :: s.inflight[i].packetId != s.inflight[j].packetId)
    && (forall i, j | 0 <= i < j < |s.inbound| :: s.inbound[i].packetId != s.inbound[j].packetId)
  }

  ghost predicate SessionAgrees(m: map<Text, SessionRow>, t: map<Text, SessionColumns>, c: Text) {
    && (c in m <==> c in t)
    && (c in m ==> m[c].clientId == c && t[c].(createdAt := 0) == SessionToColumns(m[c]).(createdAt := 0))
  }

  ghost predicate ClientAgrees(m: MemoryState, db: Database, c: Text) {
    && SessionAgrees(m.sessions, db.sessions, c)
    && HoldsClient(Entries(m.Subscriptions(c), SubscriptionEntry), db.subscriptions, c)
    && HoldsClient(Entries(m.Inflight(c), InflightEntry), db.inflight, c)
    && HoldsClient(Entries(m.Inbound(c), InboundEntry), db.inbound, c)
  }

  ghost predicate Agrees(m: MemoryState, db: Database) {
    forall c :: ClientAgrees(m, db, c)
  }

  lemma EntriesDistinct<R, K(!new), V>(rows: seq<R>, entry: R -> ((Text, K), V), key: R -> K, c: Text)
    requires forall i | 0 <= i < |rows| :: entry(rows[i]).0 == (c, key(rows[i]))
    ensures forall i | 0 <= i < |rows| :: Entries(rows, entry)[i].0.0 == c
    ensures Distinct(Entries(rows, entry)) <==> forall i, j | 0 <= i < j < |rows| :: key(rows[i]) != key(rows[j])
  {
    var entries := Entries(rows, entry);
    assert forall i | 0 <= i < |rows| :: entries[i].0 == (c, key(rows[i]));
    if Distinct(entries) {
      forall i, j | 0 <= i < j < |rows|
        ensures key(rows[i]) != key(rows[j])
      {
        assert entries[i].0 != entries[j].0;
      }
    }
  }

  lemma SubscriptionsReplaced(t: Table<Text, Byte>, rows: seq<SubscriptionRow>, c: Text)
    requires forall r <- rows :: r.clientId == c
    ensures var r := InsertAll(DeleteClient(t, c), Entries(rows, SubscriptionEntry));
            && (r.Some? <==> forall i, j | 0 <= i < j < |rows| :: rows[i].filter != rows[j].filter)
            && (r.Some? ==> HoldsClient(Entries(rows, SubscriptionEntry), r.value, c) && SameOthers(t, r.value, c))
  {
    EntriesDistinct(rows, SubscriptionEntry, (r: SubscriptionRow) => r.filter, c);
    Replaced(t, Entries(rows, SubscriptionEntry), c);
  }

  lemma InflightReplaced(t: Table<U16, InflightColumns>, rows: seq<InflightRow>, c: Text)
    requires forall r <- rows :: r.clientId == c
    ensures var r := InsertAll(DeleteClient(t, c), Entries(rows, InflightEntry));
            && (r.Some? <==> forall i, j | 0 <= i < j < |rows| :: rows[i].packetId != rows[j].packetId)
            && (r.Some? ==> HoldsClient(Entries(rows, InflightEntry), r.value, c) && SameOthers(t, r.value, c))
  {
    EntriesDistinct(rows, InflightEntry, (r: InflightRow) => r.packetId, c);
    Replaced(t, Entries(rows, InflightEntry), c);
  }

  lemma InboundReplaced(t: Table<U16, InboundColumns>, rows: seq<InboundRow>, c: Text)
    requires forall r <- rows :: r.clientId == c
    ensures var r := InsertAll(DeleteClient(t, c), Entries(rows, InboundEntry));
            && (r.Some? <==> forall i, j | 0 <= i < j < |rows| :: rows[i].packetId != rows[j].packetId)
            && (r.Some? ==> HoldsClient(Entries(rows, InboundEntry), r.value, c) && SameOthers(t, r.value, c))
  {
    EntriesDistinct(rows, InboundEntry, (r: InboundRow) => r.packetId, c);
    Replaced(t, Entries(rows, InboundEntry), c);
  }

  /** A save goes through exactly when the lists have no key twice; otherwise
      the transaction is rolled back. */
  lemma SaveGoesThrough(db: Database, s: SavedSession)
    requires OwnRows(s)
    ensures SaveResult(db, s).Some? <==> DistinctKeys(s)
  {
    var c := s.session.clientId;
    SubscriptionsReplaced(db.subscriptions, s.subscriptions, c);
    InflightReplaced(db.inflight, s.inflight, c);
    InboundReplaced(db.inbound, s.inbound, c);
  }

  /** A session keeps the time of its first save, until it is deleted. */
  lemma CreationIsKept(db: Database, s: SavedSession)
    requires SaveResult(db, s).Some?
    ensures var c := s.session.clientId;
            var db' := SaveResult(db, s).value;
            && c in db'.sessions && db'.sessions[c].updatedAt == s.session.updatedAt
            && db'.sessions[c].createdAt == if c in db.sessions then db.sessions[c].createdAt else s.session.createdAt
  {
  }

  lemma UpsertOthers(t: map<Text, SessionColumns>, s: SessionRow)
    ensures Upsert(t, s) - {s.clientId} == t - {s.clientId}
  {
  }

  /** What goes through touches no other client's rows. */
  lemma SaveTouchesOneClient(db: Database, s: SavedSession)
    requires OwnRows(s) && SaveResult(db, s).Some?
    ensures OthersKept(db, SaveResult(db, s).value, s.session.clientId)
  {
    var c := s.session.clientId;
    UpsertOthers(db.sessions, s.session);
    SubscriptionsReplaced(db.subscriptions, s.subscriptions, c);
    InflightReplaced(db.inflight, s.inflight, c);
    InboundReplaced(db.inbound, s.inbound, c);
  }

  lemma OtherClient<K, V>(entries: seq<((Text, K), V)>, t: Table<K, V>, t': Table<K, V>, c: Text, other: Text)
    requires HoldsClient(entries, t, other) && SameOthers(t, t', c) && other != c
    ensures HoldsClient(entries, t', other)
  {
  }

  lemma SubscriptionsSaved(m: MemoryState, db: Database, s: SavedSession, other: Text)
    requires HoldsClient(Entries(m.Subscriptions(other), SubscriptionEntry), db.subscriptions, other)
    requires OwnRows(s) && SaveResult(db, s).Some?
    ensures HoldsClient(Entries(m.Save(s).Subscriptions(other), SubscriptionEntry), SaveResult(db, s).value.subscriptions, other)
  {
    var c := s.session.clientId;
    SubscriptionsReplaced(db.subscriptions, s.subscriptions, c);
    if other != c {
      OtherClient(Entries(m.Subscriptions(other), SubscriptionEntry), db.subscriptions, SaveResult(db, s).value.subscriptions, c, other);
    }
  }

  lemma InflightSaved(m: MemoryState, db: Database, s: SavedSession, other: Text)
    requires HoldsClient(Entries(m.Inflight(other), InflightEntry), db.inflight, other)
    requires OwnRows(s) && SaveResult(db, s).Some?
    ensures HoldsClient(Entries(m.Save(s).Inflight(other), InflightEntry), SaveResult(db, s).value.inflight, other)
  {
    var c := s.session.clientId;
    InflightReplaced(db.inflight, s.inflight, c);
    if other != c {
      OtherClient(Entries(m.Inflight(other), InflightEntry), db.inflight, SaveResult(db, s).value.inflight, c, other);
    }
  }

  lemma InboundSaved(m: MemoryState, db: Database, s: SavedSession, other: Text)
    requires HoldsClient(Entries(m.Inbound(other), InboundEntry), db.inbound, other)
    requires OwnRows(s) && SaveResult(db, s).Some?
    ensures HoldsClient(Entries(m.Save(s).Inbound(other), InboundEntry), SaveResult(db, s).value.inbound, other)
  {
    var c := s.session.clientId;
    InboundReplaced(db.inbound, s.inbound, c);
    if other != c {
      OtherClient(Entries(m.Inbound(other), InboundEntry), db.inbound, SaveResult(db, s).value.inbound, c, other);
    }
  }

  lemma SaveAgreesFor(m: MemoryState, db: Database, s: SavedSession, other: Text)
    requires ClientAgrees(m, db, other) && OwnRows(s) && SaveResult(db, s).Some?
    ensures ClientAgrees(m.Save(s), SaveResult(db, s).value, other)
  {
    SubscriptionsSaved(m, db, s, other);
    InflightSaved(m, db, s, other);
    InboundSaved(m, db, s, other);
  }

  lemma SaveAgrees(m: MemoryState, db: Database, s: SavedSession)
    requires Agrees(m, db) && OwnRows(s) && DistinctKeys(s)
    ensures SaveResult(db, s).Some? && Agrees(m.Save(s), SaveResult(db, s).value)
  {
    SaveGoesThrough(db, s);
    forall other
      ensures ClientAgrees(m.Save(s), SaveResult(db, s).value, other)
    {
      assert ClientAgrees(m, db, other);
      SaveAgreesFor(m, db, s, other);
    }
  }

  lemma ClientDeleted<K, V>(entries: seq<((Text, K), V)>, t: Table<K, V>, c: Text, other: Text)
    requires HoldsClient(entries, t, other)
    ensures other != c ==> HoldsClient(entries, DeleteClient(t, c), other)
    ensures other == c ==> HoldsClient([], DeleteClient(t, c), other)
  {
  }

  lemma DeleteAgrees(m: MemoryState, db: Database, c: Text)
    requires Agrees(m, db)
    ensures Agrees(m.Delete(c), DeleteResult(db, c))
  {
    forall other
      ensures ClientAgrees(m.Delete(c), DeleteResult(db, c), other)
    {
      assert ClientAgrees(m, db, other);
      DeleteAgreesFor(m, db, c, other);
    }
  }

  lemma DeleteAgreesFor(m: MemoryState, db: Database, c: Text, other: Text)
    requires ClientAgrees(m, db, other)
    ensures ClientAgrees(m.Delete(c), DeleteResult(db, c), other)
  {
    SubscriptionsDeleted(m, db, c, other);
    InflightDeleted(m, db, c, other);
    InboundDeleted(m, db, c, other);
  }

  lemma SubscriptionsDeleted(m: MemoryState, db: Database, c: Text, other: Text)
    requires HoldsClient(Entries(m.Subscriptions(other), SubscriptionEntry), db.subscriptions, other)
    ensures HoldsClient(Entries(m.Delete(c).Subscriptions(other), SubscriptionEntry), DeleteClient(db.subscriptions, c), other)
  {
    ClientDeleted(Entries(m.Subscriptions(other), SubscriptionEntry), db.subscriptions, c, other);
    assert Entries([], SubscriptionEntry) == [];
  }

  lemma InflightDeleted(m: MemoryState, db: Database, c: Text, other: Text)
    requires HoldsClient(Entries(m.Inflight(other), InflightEntry), db.inflight, other)
    ensures HoldsClient(Entries(m.Delete(c).Inflight(other), InflightEntry), DeleteClient(db.inflight, c), other)
  {
    ClientDeleted(Entries(m.Inflight(other), InflightEntry), db.inflight, c, other);
    assert Entries([], InflightEntry) == [];
  }

  lemma InboundDeleted(m: MemoryState, db: Database, c: Text, other: Text)
    requires HoldsClient(Entries(m.Inbound(other), InboundEntry), db.inbound, other)
    ensures HoldsClient(Entries(m.Delete(c).Inbound(other), InboundEntry), DeleteClient(db.inbound, c), other)
  {
    ClientDeleted(Entries(m.Inbound(other), InboundEntry), db.inbound, c, other);
    assert Entries([], InboundEntry) == [];
  }

  // ---------- whole histories ----------

  datatype Operation = Save(saved: SavedSession) | Delete(clientId: Text)

  function MemoryAfter(ops: seq<Operation>): MemoryState {
    if ops == [] then MemoryState(map[], map[], map[], map[])
    else
      match ops[|ops| - 1]
      case Save(s) => MemoryAfter(ops[..|ops| - 1]).Save(s)
      case Delete(c) => MemoryAfter(ops[..|ops| - 1]).Delete(c)
  }

  function DatabaseAfter(ops: seq<Operation>): Database {
    if ops == [] then Database(map[], map[], map[], map[])
    else
      var before := DatabaseAfter(ops[..|ops| - 1]);
      match ops[|ops| - 1]
      case Save(s) => if SaveResult(before, s).Some? then SaveResult(before, s).value else before
      case Delete(c) => DeleteResult(before, c)
  }

  /** After any sequence of saves of proper lists and deletions the two
      backends hold the same. */
  lemma {:induction false} BackendsAgree(ops: seq<Operation>)
    requires forall op <- ops :: op.Save? ==> OwnRows(op.saved) && DistinctKeys(op.saved)
    ensures Agrees(MemoryAfter(ops), DatabaseAfter(ops))
    decreases |ops|
  {
    if ops != [] {
      var front, last := ops[..|ops| - 1], ops[|ops| - 1];
      assert last in ops && forall op <- front :: op in ops;
      BackendsAgree(front);
      match last {
        case Save(s) => SaveAgrees(MemoryAfter(front), DatabaseAfter(front), s);
        case Delete(c) => DeleteAgrees(MemoryAfter(front), DatabaseAfter(front), c);
      }
    }
  }

  // ---------- loading ----------

  /** Two lists without repetitions that have the same members. */
  ghost predicate SameRows<R>(a: seq<R>, b: seq<R>) {
    && (forall i, j | 0 <= i < j < |a| :: a[i] != a[j])
    && (forall i, j | 0 <= i < j < |b| :: b[i] != b[j])
    && (forall r <- a :: r in b)
    && (forall r <- b :: r in a)
  }

  /** A selection of a client's rows and the entries it holds are the same up
      to order. */
  lemma SelectionIsEntries<K, V>(selected: seq<((Text, K), V)>, entries: seq<((Text, K), V)>, t: Table<K, V>, c: Text,
                                 orderBy: V -> int)
    requires HoldsClient(entries, t, c) && Selects(selected, t, c, orderBy)
    ensures forall i | 0 <= i < |selected| :: selected[i] in entries
    ensures forall j | 0 <= j < |entries| :: entries[j] in selected
    ensures Distinct(selected)
  {
    forall i | 0 <= i < |selected|
      ensures selected[i] in entries
    {
      var k := selected[i].0;
      assert k in t && k.0 == c;
      var j :| 0 <= j < |entries| && entries[j].0 == k;
      assert entries[j] == selected[i];
    }
    forall j | 0 <= j < |entries|
      ensures entries[j] in selected
    {
      assert (entries[j].0, t[entries[j].0]) in selected;
    }
  }

  lemma LoadedRows<R, K, V>(rows: seq<R>, entry: R -> ((Text, K), V), from: ((Text, K), V) -> R,
                            selected: seq<((Text, K), V)>, loaded: seq<R>)
    requires forall i | 0 <= i < |rows| :: from(entry(rows[i]).0, entry(rows[i]).1) == rows[i]
    requires Distinct(selected) && Distinct(Entries(rows, entry))
    requires forall i | 0 <= i < |selected| :: selected[i] in Entries(rows, entry)
    requires forall j | 0 <= j < |rows| :: entry(rows[j]) in selected
    requires |loaded| == |selected| && forall i | 0 <= i < |loaded| :: loaded[i] == from(selected[i].0, selected[i].1)
    ensures SameRows(loaded, rows)
  {
    var entries := Entries(rows, entry);
    forall i | 0 <= i < |selected|
      ensures loaded[i] in rows && entry(loaded[i]) == selected[i]
    {
      var j :| 0 <= j < |entries| && entries[j] == selected[i];
      assert loaded[i] == rows[j];
    }
    forall j | 0 <= j < |rows|
      ensures rows[j] in loaded
    {
      var i :| 0 <= i < |selected| && selected[i] == entry(rows[j]);
      assert loaded[i] == rows[j];
    }
    forall i, j | 0 <= i < j < |loaded|
      ensures loaded[i] != loaded[j]
    {
      assert selected[i].0 != selected[j].0;
    }
    forall i, j | 0 <= i < j < |rows|
      ensures rows[i] != rows[j]
    {
      assert entries[i].0 != entries[j].0;
    }
  }

  lemma SubscriptionRowRoundTrip(r: SubscriptionRow)
    ensures SubscriptionFrom(SubscriptionEntry(r).0, SubscriptionEntry(r).1) == r
  {
  }

  lemma InflightRowRoundTrip(r: InflightRow)
    ensures InflightFrom(InflightEntry(r).0, InflightEntry(r).1) == r
  {
  }

  lemma InboundRowRoundTrip(r: InboundRow)
    ensures InboundFrom(InboundEntry(r).0, InboundEntry(r).1) == r
  {
  }

  lemma SubscriptionsLoad(rows: seq<SubscriptionRow>, selected: seq<((Text, Text), Byte)>, t: Table<Text, Byte>, c: Text)
    requires HoldsClient(Entries(rows, SubscriptionEntry), t, c)
    requires Selects(selected, t, c, _ => 0)
    ensures SameRows(SubscriptionRowsOf(selected), rows)
  {
    var entries := Entries(rows, SubscriptionEntry);
    SelectionIsEntries(selected, entries, t, c, _ => 0);
    forall j | 0 <= j < |rows|
      ensures entries[j] == SubscriptionEntry(rows[j]) && SubscriptionFrom(SubscriptionEntry(rows[j]).0, SubscriptionEntry(rows[j]).1) == rows[j]
    {
      SubscriptionRowRoundTrip(rows[j]);
    }
    LoadedRows(rows, SubscriptionEntry, SubscriptionFrom, selected,
               SubscriptionRowsOf(selected));
  }

  lemma InflightLoads(rows: seq<InflightRow>, selected: seq<((Text, U16), InflightColumns)>,
                      t: Table<U16, InflightColumns>, c: Text, orderBy: InflightColumns -> int)
    requires HoldsClient(Entries(rows, InflightEntry), t, c)
    requires Selects(selected, t, c, orderBy)
    ensures SameRows(InflightRowsOf(selected), rows)
  {
    var entries := Entries(rows, InflightEntry);
    SelectionIsEntries(selected, entries, t, c, orderBy);
    forall j | 0 <= j < |rows|
      ensures entries[j] == InflightEntry(rows[j]) && InflightFrom(InflightEntry(rows[j]).0, InflightEntry(rows[j]).1) == rows[j]
    {
      InflightRowRoundTrip(rows[j]);
    }
    LoadedRows(rows, InflightEntry, InflightFrom, selected, InflightRowsOf(selected));
  }

  lemma InboundLoads(rows: seq<InboundRow>, selected: seq<((Text, U16), InboundColumns)>,
                     t: Table<U16, InboundColumns>, c: Text, orderBy: InboundColumns -> int)
    requires HoldsClient(Entries(rows, InboundEntry), t, c)
    requires Selects(selected, t, c, orderBy)
    ensures SameRows(InboundRowsOf(selected), rows)
  {
    var entries := Entries(rows, InboundEntry);
    SelectionIsEntries(selected, entries, t, c, orderBy);
    forall j | 0 <= j < |rows|
      ensures entries[j] == InboundEntry(rows[j]) && InboundFrom(InboundEntry(rows[j]).0, InboundEntry(rows[j]).1) == rows[j]
    {
      InboundRowRoundTrip(rows[j]);
    }
    LoadedRows(rows, InboundEntry, InboundFrom, selected,
               InboundRowsOf(selected));
  }

  /** The session row the database loads is the saved one, but for its time of
      creation. */
  lemma SessionLoads(m: MemoryState, db: Database, c: Text)
    requires Agrees(m, db)
    ensures c in db.sessions <==> m.Session(c).Some?
    ensures c in db.sessions ==>
              SessionFromColumns(c, db.sessions[c]) == m.Session(c).value.(createdAt := db.sessions[c].createdAt)
  {
    assert ClientAgrees(m, db, c);
    if c in db.sessions {
      var s, t := m.sessions[c], db.sessions[c];
      assert t == t.(createdAt := 0).(createdAt := t.createdAt);
      assert t == SessionToColumns(s).(createdAt := t.createdAt);
      if s.will.Some? {
        assert t.willQos == Some(QosValue(s.will.value.qos));
      }
    }
  }

  /** The in-flight messages can be read back exactly when no retry counter has
      outgrown a signed 32-bit number. */
  lemma InflightReadable(rows: seq<InflightRow>, selected: seq<((Text, U16), InflightColumns)>)
    requires SameRows(InflightRowsOf(selected), rows)
    ensures AllReadable(selected) <==> forall r <- rows :: r.retryCount < I32_LIMIT
  {
    var loaded := InflightRowsOf(selected);
    assert forall i | 0 <= i < |selected| :: loaded[i] in rows && loaded[i].retryCount == selected[i].1.retryCount;
    forall r | r in rows && AllReadable(selected)
      ensures r.retryCount < I32_LIMIT
    {
      var i :| 0 <= i < |loaded| && loaded[i] == r;
      assert Readable(selected[i].1);
    }
  }

  /** The same rows come out of both backends. In-flight messages fail to load
      from the database exactly when a retry counter has outgrown a signed
      32-bit number. */
  lemma LoadsAgree(m: MemoryState, db: Database, c: Text, subs: seq<SubscriptionRow>,
                   inflight: Option<seq<InflightRow>>, inbound: seq<InboundRow>)
    requires Agrees(m, db)
    requires SubscriptionsLoaded(subs, db.subscriptions, c)
    requires InflightLoaded(inflight, db.inflight, c)
    requires InboundLoaded(inbound, db.inbound, c)
    ensures SameRows(subs, m.Subscriptions(c))
    ensures inflight.Some? <==> forall r <- m.Inflight(c) :: r.retryCount < I32_LIMIT
    ensures inflight.Some? ==> SameRows(inflight.value, m.Inflight(c))
    ensures SameRows(inbound, m.Inbound(c))
  {
    assert ClientAgrees(m, db, c);
    var s :| Selects(s, db.subscriptions, c, _ => 0) && subs == SubscriptionRowsOf(s);
    SubscriptionsLoad(m.Subscriptions(c), s, db.subscriptions, c);
    LoadedFromTable(m.Inflight(c), db.inflight, c, inflight);
    var received := (columns: InboundColumns) => columns.receivedAt;
    var b :| Selects(b, db.inbound, c, received) && inbound == InboundRowsOf(b);
    InboundLoads(m.Inbound(c), b, db.inbound, c, received);
  }

  /** What was just saved loads exactly if no retry counter is too large. */
  lemma JustSavedLoads(db: Database, saved: SavedSession, r: Option<seq<InflightRow>>)
    requires OwnRows(saved) && SaveResult(db, saved).Some?
    requires InflightLoaded(r, SaveResult(db, saved).value.inflight, saved.session.clientId)
    ensures r.Some? <==> forall row <- saved.inflight :: row.retryCount < I32_LIMIT
  {
    var table, c := SaveResult(db, saved).value.inflight, saved.session.clientId;
    InflightReplaced(db.inflight, saved.inflight, c);
    LoadedFromTable(saved.inflight, table, c, r);
  }

  lemma LoadedFromTable(rows: seq<InflightRow>, t: Table<U16, InflightColumns>, c: Text, r: Option<seq<InflightRow>>)
    requires HoldsClient(Entries(rows, InflightEntry), t, c) && InflightLoaded(r, t, c)
    ensures r.Some? <==> forall row <- rows :: row.retryCount < I32_LIMIT
    ensures r.Some? ==> SameRows(r.value, rows)
  {
    var created := (columns: InflightColumns) => columns.createdAt;
    var f :| Selects(f, t, c, created) && r == if AllReadable(f) then Some(InflightRowsOf(f)) else None;
    InflightLoads(rows, f, t, c, created);
    InflightReadable(rows, f);
  }

  /** And the received messages load as they were saved, up to order. */
  lemma JustSavedInbound(db: Database, saved: SavedSession, r: seq<InboundRow>)
    requires OwnRows(saved) && SaveResult(db, saved).Some?
    requires InboundLoaded(r, SaveResult(db, saved).value.inbound, saved.session.clientId)
    ensures SameRows(r, saved.inbound)
  {
    var table, c := SaveResult(db, saved).value.inbound, saved.session.clientId;
    InboundReplaced(db.inbound, saved.inbound, c);
    var received := (columns: InboundColumns) => columns.receivedAt;
    var b :| Selects(b, table, c, received) && r == InboundRowsOf(b);
    InboundLoads(saved.inbound, b, table, c, received);
  }

  lemma ReorderedEntries(rows: seq<InflightRow>, saved: seq<InflightRow>, t: Table<U16, InflightColumns>, c: Text)
    requires HoldsClient(Entries(saved, InflightEntry), t, c) && SameRows(rows, saved)
    ensures var entries := Entries(rows, InflightEntry);
            && Distinct(entries)
            && (forall i | 0 <= i < |rows| :: entries[i].0.0 == c && entries[i].0 in t && t[entries[i].0] == entries[i].1)
            && (forall k <- t :: k.0 == c ==> (k, t[k]) in entries)
  {
    var entries, old' := Entries(rows, InflightEntry), Entries(saved, InflightEntry);
    forall i | 0 <= i < |rows|
      ensures entries[i].0.0 == c && entries[i].0 in t && t[entries[i].0] == entries[i].1
    {
      assert rows[i] in rows;
      var j :| 0 <= j < |saved| && saved[j] == rows[i];
      assert old'[j] == entries[i];
    }
    forall i, j | 0 <= i < j < |rows|
      ensures entries[i].0 != entries[j].0
    {
      assert rows[i] in rows && rows[j] in rows;
      var a :| 0 <= a < |saved| && saved[a] == rows[i];
      var b :| 0 <= b < |saved| && saved[b] == rows[j];
      assert a != b && old'[a].0 != old'[b].0;
    }
    forall k | k in t && k.0 == c
      ensures (k, t[k]) in entries
    {
      var j :| 0 <= j < |saved| && old'[j].0 == k;
      assert saved[j] in rows;
      var i :| 0 <= i < |rows| && rows[i] == saved[j];
      assert entries[i] == (k, t[k]);
    }
  }

  lemma ReorderedSelects(rows: seq<InflightRow>, saved: seq<InflightRow>, t: Table<U16, InflightColumns>, c: Text, at: int)
    requires HoldsClient(Entries(saved, InflightEntry), t, c) && SameRows(rows, saved)
    requires forall r <- saved :: r.createdAt == at && r.retryCount < I32_LIMIT
    ensures InflightLoaded(Some(rows), t, c)
  {
    var entries := Entries(rows, InflightEntry);
    ReorderedEntries(rows, saved, t, c);
    assert forall i | 0 <= i < |rows| :: rows[i] in saved && entries[i] == InflightEntry(rows[i]);
    assert InflightRowsOf(entries) == rows by {
      forall i | 0 <= i < |rows|
        ensures InflightRowsOf(entries)[i] == rows[i]
      {
        InflightRowRoundTrip(rows[i]);
      }
    }
    assert AllReadable(entries);
    assert Selects(entries, t, c, (columns: InflightColumns) => columns.createdAt);
  }

  /** The in-flight rows of one save carry one time of creation. What the database
      may give back of them, if it can read them, is exactly the saved rows in any
      order whatever. */
  lemma AnyOrderLoads(db: Database, saved: SavedSession, rows: seq<InflightRow>, at: int)
    requires OwnRows(saved) && SaveResult(db, saved).Some?
    requires forall r <- saved.inflight :: r.createdAt == at && r.retryCount < I32_LIMIT
    ensures InflightLoaded(Some(rows), SaveResult(db, saved).value.inflight, saved.session.clientId)
       <==> SameRows(rows, saved.inflight)
  {
    var t, c := SaveResult(db, saved).value.inflight, saved.session.clientId;
    InflightReplaced(db.inflight, saved.inflight, c);
    if InflightLoaded(Some(rows), t, c) {
      LoadedFromTable(saved.inflight, t, c, Some(rows));
    }
    if SameRows(rows, saved.inflight) {
      ReorderedSelects(rows, saved.inflight, t, c, at);
    }
  }

  lemma SwappedRows(rows: seq<InflightRow>)
    requires |rows| >= 2 && forall i, j | 0 <= i < j < |rows| :: rows[i] != rows[j]
    ensures var swapped := rows[0 := rows[1]][1 := rows[0]]; SameRows(swapped, rows) && swapped != rows
  {
    var swapped := rows[0 := rows[1]][1 := rows[0]];
    forall r | r in rows
      ensures r in swapped
    {
      var i :| 0 <= i < |rows| && rows[i] == r;
      assert swapped[if i == 0 then 1 else if i == 1 then 0 else i] == r;
    }
  }

  /** The order of the saved messages is sure to come back exactly if there are
      fewer than two. */
  lemma OrderIsSure(db: Database, saved: SavedSession, at: int)
    requires OwnRows(saved) && SaveResult(db, saved).Some?
    requires forall r <- saved.inflight :: r.createdAt == at && r.retryCount < I32_LIMIT
    ensures (forall rows | InflightLoaded(Some(rows), SaveResult(db, saved).value.inflight, saved.session.clientId) ::
               rows == saved.inflight)
       <==> |saved.inflight| < 2
  {
    var q := saved.inflight;
    SaveGoesThrough(db, saved);
    assert forall i, j | 0 <= i < j < |q| :: q[i].packetId != q[j].packetId;
    if |q| >= 2 {
      SwappedRows(q);
      AnyOrderLoads(db, saved, q[0 := q[1]][1 := q[0]], at);
    } else {
      forall rows | InflightLoaded(Some(rows), SaveResult(db, saved).value.inflight, saved.session.clientId)
        ensures rows == q
      {
        AnyOrderLoads(db, saved, rows, at);
        ShortListsSame(rows, q);
      }
    }
  }

  lemma OneMember<R>(b: seq<R>, r: R, r': R)
    requires |b| < 2 && r in b && r' in b
    ensures r == r'
  {
  }

  lemma ShortListsSame<R>(a: seq<R>, b: seq<R>)
    requires SameRows(a, b) && |b| < 2
    ensures a == b
  {
    assert forall i | 0 <= i < |a| :: a[i] in a;
    assert |b| == 1 ==> b[0] in b && b[0] in a;
    if |a| >= 2 {
      OneMember(b, a[0], a[1]);
      assert false;
    }
  }

  // ---------- what sessions save ----------

  /** What a session saves is taken by the database exactly when no two of its
      in-flight messages share an identifier. */
  lemma SessionSaveGoesThrough(db: Database, saved: SavedSession, k: Kept, clientId: Text, now: int)
    requires Saves(saved, k, clientId, now)
    requires forall e <- k.core.inflight :: e.packet.packetId.Some?
    ensures SaveResult(db, saved).Some?
       <==> forall i, j | 0 <= i < j < |k.core.inflight| ::
              k.core.inflight[i].packet.packetId != k.core.inflight[j].packet.packetId
  {
    var q := k.core.inflight;
    assert forall i | 0 <= i < |q| :: q[i] in q && saved.inflight[i] == SavedEntry(q[i], clientId, now);
    SaveGoesThrough(db, saved);
  }
}
