/**
 The incremental client cache (dashboard/src/collections/query-collection.ts) fed by collection reads
 (dashboard/src/collections/read.server.ts): reads of any kind, interleaved with transactions and retention
 on the server, keep every key the cursor covers equal to the server's row.
 */
module ChangeCache {
  import opened Common
  import opened ChangeLog

  /** Rows and cursor of one Query entry. */
  datatype Snapshot = Snapshot(rows: Rows, cursor: Option<Xid>)

  /** A read in flight, from the snapshot it started with. */
  datatype Read =
    | Started(previous: Snapshot)
    | Windowed(previous: Snapshot, window: Window)
    | Fetched(previous: Snapshot, window: Window, rows: Rows)

  datatype System = System(server: Server, cache: Snapshot, inFlight: map<nat, Read>)

  datatype Event =
    | Begin
    | Write(xid: Xid, changed: Rows, deleted: set<Key>)
    | WriteElsewhere(xid: Xid, change: Change)
    | Commit(xid: Xid)
    | Abort(xid: Xid)
    | Prune(fence: Xid, after: Server)
    | StartRead(id: nat)
    | ReadWindow(id: nat)
    | ReadRows(id: nat)
    | FinishRead(id: nat)
    | CancelRead(id: nat)

  /** What a window leads the server to select: everything, or the keys it names. */
  function Selected(rows: Rows, window: Window): Rows
  {
    if window.Full? then rows else map key | key in rows && (key in window.changed || key in window.deleted) :: rows[key]
  }

  /** A full read replaces the rows; otherwise drop the deleted keys, then upsert. */
  function Merged(previous: Rows, window: Window, rows: Rows): Rows
  {
    if window.Full? then rows else (previous - window.deleted) + rows
  }

  predicate Enabled(s: System, event: Event)
  {
    match event
    case Begin => true
    case Write(xid, _, _) => xid in s.server.active
    case WriteElsewhere(xid, _) => xid in s.server.active
    case Commit(xid) => xid in s.server.active
    case Abort(xid) => true
    case Prune(_, _) => true
    case StartRead(id) => id !in s.inFlight
    case ReadWindow(id) => id in s.inFlight && s.inFlight[id].Started?
    case ReadRows(id) => id in s.inFlight && s.inFlight[id].Windowed?
    case FinishRead(id) => id in s.inFlight && s.inFlight[id].Fetched?
    case CancelRead(id) => true
  }

  ghost predicate Step(s: System, event: Event, t: System)
  {
    Enabled(s, event) &&
    match event
    case Begin => t == s.(server := ChangeLog.Begin(s.server))
    case Write(xid, changed, deleted) => t == s.(server := ChangeLog.Write(s.server, xid, changed, deleted))
    case WriteElsewhere(xid, change) => t == s.(server := ChangeLog.WriteElsewhere(s.server, xid, change))
    case Commit(xid) => t == s.(server := ChangeLog.Commit(s.server, xid))
    case Abort(xid) => t == s.(server := ChangeLog.Abort(s.server, xid))
    case Prune(fence, after) => ChangeLog.Prune(s.server, fence, after) && t == s.(server := after)
    case StartRead(id) => t == s.(inFlight := s.inFlight[id := Started(s.cache)])
    case ReadWindow(id) =>
      var previous := s.inFlight[id].previous;
      t == s.(inFlight := s.inFlight[id := Windowed(previous, ChangeLog.ReadWindow(s.server, previous.cursor))])
    case ReadRows(id) =>
      var read := s.inFlight[id];
      t == s.(inFlight := s.inFlight[id := Fetched(read.previous, read.window, Selected(s.server.rows, read.window))])
    case FinishRead(id) =>
      var read := s.inFlight[id];
      t == s.(cache := Snapshot(Merged(read.previous.rows, read.window, read.rows), Some(read.window.cursor)), inFlight := s.inFlight - {id})
    case CancelRead(id) => t == s.(inFlight := s.inFlight - {id})
  }

  // ---- What holds below a cursor ----

  /** The cursor covers the key: its last change is older. */
  predicate Covers(server: Server, cursor: Xid, key: Key)
  {
    LastChange(server, key) < cursor
  }

  predicate SameRow(server: Server, rows: Rows, key: Key)
  {
    Get(rows, key) == Get(server.rows, key)
  }

  ghost predicate Agrees(server: Server, cursor: Xid, rows: Rows)
  {
    forall key {:trigger SameRow(server, rows, key)} :: Covers(server, cursor, key) ==> SameRow(server, rows, key)
  }

  ghost predicate SnapshotOk(server: Server, snapshot: Snapshot)
  {
    snapshot.cursor.Some? ==>
      0 < snapshot.cursor.value <= HorizonOf(server) && Agrees(server, snapshot.cursor.value, snapshot.rows)
  }

  predicate Named(window: Window, key: Key)
  {
    window.Full? || key in window.changed || key in window.deleted
  }

  /** The window names what changed between the two cursors, as deleted if it is gone. */
  predicate TellsOf(server: Server, since: Option<Xid>, window: Window, key: Key)
  {
    Covers(server, window.cursor, key) && window.Delta? && since.Some? && since.value <= LastChange(server, key) ==>
      Named(window, key) && (key !in server.rows ==> key in window.deleted)
  }

  ghost predicate WindowOk(server: Server, since: Option<Xid>, window: Window)
  {
    && 0 < window.cursor <= HorizonOf(server)
    && (window.Delta? ==> since.Some?)
    && forall key {:trigger Named(window, key)} :: TellsOf(server, since, window, key)
  }

  predicate FetchedRow(server: Server, window: Window, rows: Rows, key: Key)
  {
    && (Covers(server, window.cursor, key) && Named(window, key) ==> SameRow(server, rows, key))
    && (key in rows ==> Named(window, key))
  }

  ghost predicate RowsOk(server: Server, window: Window, rows: Rows)
  {
    forall key {:trigger Named(window, key)} :: FetchedRow(server, window, rows, key)
  }

  ghost predicate ReadOk(server: Server, read: Read)
  {
    && SnapshotOk(server, read.previous)
    && (!read.Started? ==> WindowOk(server, read.previous.cursor, read.window))
    && (read.Fetched? ==> RowsOk(server, read.window, read.rows))
  }

  ghost predicate Good(s: System)
  {
    Valid(s.server) && SnapshotOk(s.server, s.cache) && forall id :: id in s.inFlight ==> ReadOk(s.server, s.inFlight[id])
  }

  // ---- Server steps ----

  /** Below the old horizon the server only stays as it is. */
  ghost predicate Settled(server: Server, after: Server)
  {
    && HorizonOf(server) <= HorizonOf(after)
    && forall key {:trigger LastChange(after, key)} :: LastChange(after, key) < HorizonOf(server) ==>
         LastChange(after, key) == LastChange(server, key) && Get(after.rows, key) == Get(server.rows, key)
  }

  lemma {:induction false} SnapshotStays(server: Server, after: Server, snapshot: Snapshot)
    requires SnapshotOk(server, snapshot) && Settled(server, after)
    ensures SnapshotOk(after, snapshot)
  {
    hide HorizonOf;
    if snapshot.cursor.Some? {
      forall key | Covers(after, snapshot.cursor.value, key)
        ensures SameRow(after, snapshot.rows, key)
      {
        assert SameRow(server, snapshot.rows, key);
      }
    }
  }

  lemma {:induction false} ReadStays(server: Server, after: Server, read: Read)
    requires ReadOk(server, read) && Settled(server, after)
    ensures ReadOk(after, read)
  {
    hide HorizonOf;
    SnapshotStays(server, after, read.previous);
    if !read.Started? {
      forall key
        ensures TellsOf(after, read.previous.cursor, read.window, key)
      {
        assert Named(read.window, key) || !Named(read.window, key);
        assert TellsOf(server, read.previous.cursor, read.window, key);
        assert LastChange(after, key) == LastChange(after, key);
      }
    }
    if read.Fetched? {
      forall key
        ensures FetchedRow(after, read.window, read.rows, key)
      {
        assert FetchedRow(server, read.window, read.rows, key);
        assert LastChange(after, key) == LastChange(after, key);
      }
    }
  }

  lemma {:induction false} CommitSettles(server: Server, xid: Xid)
    requires Valid(server) && xid in server.active
    ensures Settled(server, ChangeLog.Commit(server, xid))
  {
    var after := ChangeLog.Commit(server, xid);
    HorizonGrows(server, after);
    assert HorizonOf(server) <= xid;
  }

  /** Steps that change no row. */
  lemma {:induction false} QuietSettles(server: Server, after: Server)
    requires Valid(server) && after.rows == server.rows && after.lastChange == server.lastChange && server.next <= after.next
    requires forall xid :: xid in after.active ==> xid in server.active || server.next <= xid
    ensures Settled(server, after)
  {
    HorizonGrows(server, after);
  }

  lemma {:induction false} ServerStep(s: System, event: Event, t: System)
    requires Good(s) && Step(s, event, t) && t.server != s.server
    ensures Valid(t.server) && Settled(s.server, t.server) && t.cache == s.cache && t.inFlight == s.inFlight
  {
    hide Valid, Settled, SnapshotOk, ReadOk, TxLogged;
    match event {
      case Begin =>
        BeginKeepsValid(s.server);
        QuietSettles(s.server, t.server);
      case Write(xid, changed, deleted) =>
        ValidMeans(s.server);
        WriteKeepsLogged(xid, s.server.active[xid], changed, deleted);
        OpenTxKeepsValid(s.server, xid, WriteTx(xid, s.server.active[xid], changed, deleted));
        QuietSettles(s.server, t.server);
      case WriteElsewhere(xid, change) =>
        ValidMeans(s.server);
        ElsewhereKeepsLogged(xid, s.server.active[xid], change.(xid := xid, mine := false));
        OpenTxKeepsValid(s.server, xid, t.server.active[xid]);
        QuietSettles(s.server, t.server);
      case Commit(xid) =>
        CommitKeepsValid(s.server, xid);
        CommitSettles(s.server, xid);
      case Abort(xid) =>
        AbortKeepsValid(s.server, xid);
        QuietSettles(s.server, t.server);
      case Prune(fence, after) =>
        PruneKeepsValid(s.server, fence, after);
        QuietSettles(s.server, t.server);
      case _ =>
    }
  }

  lemma {:induction false} ValidMeans(server: Server)
    requires Valid(server)
    ensures 0 < HorizonOf(server) && forall xid :: xid in server.active ==> TxLogged(xid, server.active[xid])
  {
  }

  // ---- Reads ----

  lemma {:induction false} WindowIsOk(server: Server, previous: Snapshot)
    requires Valid(server) && SnapshotOk(server, previous)
    ensures WindowOk(server, previous.cursor, ChangeLog.ReadWindow(server, previous.cursor))
  {
    hide Valid, Agrees;
    var window := ChangeLog.ReadWindow(server, previous.cursor);
    ValidMeans(server);
    forall key
      ensures TellsOf(server, previous.cursor, window, key)
    {
      if Covers(server, window.cursor, key) && window.Delta? && previous.cursor.value <= LastChange(server, key) {
        WindowTells(server, previous.cursor, key);
      }
    }
  }

  lemma {:induction false} RowsAreOk(server: Server, window: Window)
    ensures RowsOk(server, window, Selected(server.rows, window))
  {
    forall key
      ensures FetchedRow(server, window, Selected(server.rows, window), key)
    {
    }
  }

  /** Merging a read gives rows that agree with the server up to the read's cursor. */
  lemma {:induction false} MergeAgrees(server: Server, previous: Snapshot, window: Window, rows: Rows)
    requires SnapshotOk(server, previous) && WindowOk(server, previous.cursor, window) && RowsOk(server, window, rows)
    ensures SnapshotOk(server, Snapshot(Merged(previous.rows, window, rows), Some(window.cursor)))
  {
    hide HorizonOf;
    var merged := Merged(previous.rows, window, rows);
    forall key | Covers(server, window.cursor, key)
      ensures SameRow(server, merged, key)
    {
      assert TellsOf(server, previous.cursor, window, key) && FetchedRow(server, window, rows, key) by {
        assert Named(window, key) || !Named(window, key);
      }
      if window.Delta? {
        assert Covers(server, previous.cursor.value, key) ==> SameRow(server, previous.rows, key);
      }
    }
  }

  lemma {:induction false} ReadStep(s: System, event: Event, t: System)
    requires Good(s) && Step(s, event, t) && t.server == s.server
    ensures Good(t)
  {
    hide Valid, WindowOk, RowsOk, Agrees, SnapshotOk, HorizonOf;
    match event {
      case ReadWindow(id) => WindowIsOk(s.server, s.inFlight[id].previous);
      case ReadRows(id) => RowsAreOk(s.server, s.inFlight[id].window);
      case FinishRead(id) => MergeAgrees(s.server, s.inFlight[id].previous, s.inFlight[id].window, s.inFlight[id].rows);
      case _ =>
    }
  }

  lemma {:induction false} StepKeepsGood(s: System, event: Event, t: System)
    requires Good(s) && Step(s, event, t)
    ensures Good(t)
  {
    hide Step, Valid, SnapshotOk, ReadOk;
    if t.server == s.server {
      ReadStep(s, event, t);
    } else {
      ServerStep(s, event, t);
      SnapshotStays(s.server, t.server, s.cache);
      forall id | id in t.inFlight
        ensures ReadOk(t.server, t.inFlight[id])
      {
        ReadStays(s.server, t.server, s.inFlight[id]);
      }
    }
  }

  // ---- Runs ----

  /** A run is the states it goes through, one more than its events. */
  ghost predicate IsRun(states: seq<System>, events: seq<Event>)
  {
    |states| == |events| + 1 && forall i :: 0 <= i < |events| ==> Step(states[i], events[i], states[i + 1])
  }

  /** A database with any rows and an empty log, and a client that has read nothing. */
  predicate Initial(s: System)
  {
    s.server == Server(s.server.rows, {}, map[], 1, map[], 0) && s.cache == Snapshot(map[], None) && s.inFlight == map[]
  }

  lemma {:induction false} RunIsGood(states: seq<System>, events: seq<Event>, n: nat)
    requires IsRun(states, events) && Initial(states[0]) && n < |states|
    ensures Good(states[n])
    decreases n
  {
    hide Step, Good;
    if n == 0 {
      InitialIsGood(states[0]);
    } else {
      RunIsGood(states, events, n - 1);
      StepKeepsGood(states[n - 1], events[n - 1], states[n]);
    }
  }

  lemma {:induction false} InitialIsGood(s: System)
    requires Initial(s)
    ensures Good(s)
  {
    forall key
      ensures KeyTold(s.server, key)
    {
    }
  }

  /**
   After any run of transactions, retention and reads, the client's row of every key whose last change is
   older than the cursor is the server's row, or both have none.
   */
  lemma {:induction false} CacheAgrees(states: seq<System>, events: seq<Event>, n: nat, key: Key)
    requires IsRun(states, events) && Initial(states[0]) && n < |states|
    requires states[n].cache.cursor.Some? && LastChange(states[n].server, key) < states[n].cache.cursor.value
    ensures Get(states[n].cache.rows, key) == Get(states[n].server.rows, key)
  {
    hide Step;
    RunIsGood(states, events, n);
    assert SameRow(states[n].server, states[n].cache.rows, key);
  }

  /** The window of a read in flight was taken when nothing was open, and nothing has begun since. */
  predicate QuietSince(s: System, id: nat)
  {
    id in s.inFlight && s.inFlight[id].Fetched? && s.server.active == map[] && s.inFlight[id].window.cursor == s.server.next
  }

  /**
   Once the server is quiet, finishing any read whose window was taken since makes the cache equal a full
   read, whatever other reads are in flight and however the ones before ended.
   */
  lemma {:induction false} QuietReadIsFull(states: seq<System>, events: seq<Event>, n: nat, id: nat)
    requires IsRun(states, events) && Initial(states[0]) && n < |events|
    requires events[n] == FinishRead(id) && QuietSince(states[n], id)
    ensures states[n + 1].cache.rows == states[n + 1].server.rows
  {
    hide Good, Initial;
    RunIsGood(states, events, n + 1);
    assert Step(states[n], events[n], states[n + 1]);
    QuietCache(states[n + 1]);
  }

  /** In particular a read from start to end on a quiet server. */
  lemma {:induction false} WholeQuietRead(states: seq<System>, events: seq<Event>, n: nat, id: nat)
    requires IsRun(states, events) && Initial(states[0]) && n + 4 < |states|
    requires events[n..n + 4] == [StartRead(id), ReadWindow(id), ReadRows(id), FinishRead(id)]
    requires states[n].server.active == map[]
    ensures states[n + 4].cache.rows == states[n + 4].server.rows
  {
    hide Initial, Valid, SnapshotOk, ReadOk;
    FourSteps(states, events, n, id);
    RunIsGood(states, events, n);
    QuietReadIsFull(states, events, n + 3, id);
  }

  /** A window's cursor stays put while the read goes on: a read stays quiet while the server does. */
  lemma {:induction false} StaysQuiet(s: System, event: Event, t: System, id: nat)
    requires Step(s, event, t) && QuietSince(s, id) && t.server == s.server && event != FinishRead(id) && event != CancelRead(id)
    ensures QuietSince(t, id)
  {
    hide ChangeLog.ReadWindow;
  }

  lemma {:induction false} FourSteps(states: seq<System>, events: seq<Event>, n: nat, id: nat)
    requires IsRun(states, events) && n + 4 < |states|
    requires events[n..n + 4] == [StartRead(id), ReadWindow(id), ReadRows(id), FinishRead(id)]
    ensures var (s, t) := (states[n], states[n + 4]);
      && t.server == s.server
      && events[n + 3] == FinishRead(id) && states[n + 3].server == s.server
      && id in states[n + 3].inFlight && states[n + 3].inFlight[id].Fetched?
      && states[n + 3].inFlight[id].window == ChangeLog.ReadWindow(s.server, s.cache.cursor)
  {
    hide ChangeLog.ReadWindow;
    var four := events[n..n + 4];
    assert events[n + 0] == four[0] && events[n + 1] == four[1] && events[n + 2] == four[2] && events[n + 3] == four[3];
    assert events[n + 0] == StartRead(id) && events[n + 1] == ReadWindow(id) && events[n + 2] == ReadRows(id)
      && events[n + 3] == FinishRead(id);
    assert Step(states[n], events[n], states[n + 1]);
    assert Step(states[n + 1], events[n + 1], states[n + 2]);
    assert Step(states[n + 2], events[n + 2], states[n + 3]);
    assert Step(states[n + 3], events[n + 3], states[n + 4]);
  }

  lemma {:induction false} QuietCache(t: System)
    requires Good(t) && t.server.active == map[] && t.cache.cursor == Some(t.server.next)
    ensures t.cache.rows == t.server.rows
  {
    forall key
      ensures key in t.cache.rows <==> key in t.server.rows
      ensures key in t.cache.rows ==> t.cache.rows[key] == t.server.rows[key]
    {
      assert LastChange(t.server, key) < t.server.next;
      assert SameRow(t.server, t.cache.rows, key);
    }
  }

  // ---- The client's merge ----

  /** The rows of a read by key; a later row replaces an earlier one. */
  function ByKey(read: seq<(Key, Value)>): Rows
  {
    if read == [] then map[] else ByKey(read[..|read| - 1])[read[|read| - 1].0 := read[|read| - 1].1]
  }

  function KeySet(keys: seq<Key>): (r: set<Key>)
    ensures forall key :: key in r <==> key in keys
  {
    if keys == [] then {}
    else
      assert keys == keys[..|keys| - 1] + [keys[|keys| - 1]];
      KeySet(keys[..|keys| - 1]) + {keys[|keys| - 1]}
  }

  /**
   The merge of `queryFn`: a table of the cached rows from which the deleted keys are dropped and into which
   the rows read are set, one by one.
   */
  method MergeRead(previous: Rows, read: seq<(Key, Value)>, deleted: seq<Key>) returns (rows: Rows)
    ensures forall window: Window :: window.Delta? && window.deleted == KeySet(deleted) ==> rows == Merged(previous, window, ByKey(read))
  {
    rows := previous;
    for i := 0 to |deleted|
      invariant rows == previous - KeySet(deleted[..i])
    {
      assert deleted[..i + 1][..i] == deleted[..i];
      rows := rows - {deleted[i]};
    }
    assert deleted[..|deleted|] == deleted;
    var kept := rows;
    for i := 0 to |read|
      invariant rows == kept + ByKey(read[..i])
    {
      assert read[..i + 1][..i] == read[..i];
      rows := rows[read[i].0 := read[i].1];
    }
    assert read[..|read|] == read;
  }
}
