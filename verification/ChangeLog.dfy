/**
 The organization change log (dashboard/src/modules/organization/change-log.server.ts and the trigger in
 dashboard/drizzle/20260930055138_baseline/migration.sql): which keys of a collection changed between two
 transaction horizons, under concurrent transactions and retention.
 */
module ChangeLog {
  import opened Common

  type Key = string
  type Value = string
  type Xid = nat

  type Rows = map<Key, Value>

  /** One logged statement; `mine` tells whether its table feeds the collection. */
  datatype Change = Change(xid: Xid, mine: bool, changed: set<Key>, deleted: set<Key>, allRows: bool)

  /** An open transaction: its writes so far (`None` deletes) and the changes it logged. */
  datatype Tx = Tx(writes: map<Key, Option<Value>>, log: set<Change>)

  /** The database, the transaction that last changed each key, and the newest transaction lost to retention. */
  datatype Server = Server(rows: Rows, log: set<Change>, active: map<Xid, Tx>, next: Xid, lastChange: map<Key, Xid>, pruned: Xid)

  datatype Window = Full(cursor: Xid) | Delta(cursor: Xid, changed: set<Key>, deleted: set<Key>)

  function Get(rows: Rows, key: Key): Option<Value>
  {
    if key in rows then Some(rows[key]) else None
  }

  function LastChange(s: Server, key: Key): Xid
  {
    if key in s.lastChange then s.lastChange[key] else 0
  }

  /** `pg_snapshot_xmin`: the oldest transaction still open, or the next one. */
  ghost function Horizon(active: set<Xid>, next: Xid): (h: Xid)
    ensures h <= next && forall xid :: xid in active ==> h <= xid
    ensures h == next || h in active
  {
    if active == {} then next
    else
      var xid :| xid in active;
      var rest := active - {xid};
      assert active == rest + {xid};
      var h := Horizon(rest, next);
      if xid < h then xid else h
  }

  ghost function HorizonOf(s: Server): Xid
  {
    Horizon(s.active.Keys, s.next)
  }

  // ---- Transactions ----

  /** The trigger names up to a hundred keys of a statement and otherwise says "all rows"; no rows, no entry. */
  function Logged(xid: Xid, changed: set<Key>, deleted: set<Key>): (r: set<Change>)
    ensures forall change :: change in r ==> change.xid == xid
  {
    if changed + deleted == {} then {}
    else if |changed| + |deleted| > 100 then {Change(xid, true, {}, {}, true)}
    else {Change(xid, true, changed, deleted, false)}
  }

  function Begin(s: Server): Server
  {
    s.(active := s.active[s.next := Tx(map[], {})], next := s.next + 1)
  }

  /** A statement that writes rows and removes others. */
  function WriteTx(xid: Xid, tx: Tx, changed: Rows, deleted: set<Key>): Tx
  {
    var keys := tx.writes.Keys + changed.Keys + deleted;
    Tx((map key | key in keys ::
          if key in changed then Some(changed[key]) else if key in deleted then None else tx.writes[key]),
       tx.log + Logged(xid, changed.Keys, deleted - changed.Keys))
  }

  function Write(s: Server, xid: Xid, changed: Rows, deleted: set<Key>): Server
    requires xid in s.active
  {
    s.(active := s.active[xid := WriteTx(xid, s.active[xid], changed, deleted)])
  }

  /** A statement on a table the collection does not show. */
  function WriteElsewhere(s: Server, xid: Xid, change: Change): Server
    requires xid in s.active
  {
    s.(active := s.active[xid := s.active[xid].(log := s.active[xid].log + {change.(xid := xid, mine := false)})])
  }

  function Applied(rows: Rows, writes: map<Key, Option<Value>>): Rows
  {
    var keys := rows.Keys + writes.Keys;
    map key | key in keys && (key in writes ==> writes[key].Some?) ::
      if key in writes then writes[key].value else rows[key]
  }

  function Commit(s: Server, xid: Xid): Server
    requires xid in s.active
  {
    var tx := s.active[xid];
    var keys := s.lastChange.Keys + tx.writes.Keys;
    s.(rows := Applied(s.rows, tx.writes),
       log := s.log + tx.log,
       active := s.active - {xid},
       lastChange := (map key | key in keys ::
         if key in tx.writes then xid else s.lastChange[key]))
  }

  function Abort(s: Server, xid: Xid): Server
  {
    s.(active := s.active - {xid})
  }

  /** Retention deletes what is at or below some transaction, but never the newest or what is at or past the horizon. */
  ghost predicate Prunes(s: Server, fence: Xid, change: Change)
  {
    change.xid <= fence && (exists newer :: newer in s.log && change.xid < newer.xid) && change.xid < HorizonOf(s)
  }

  ghost function Pruned(s: Server, fence: Xid): set<Change>
  {
    set change | change in s.log && Prunes(s, fence, change)
  }

  ghost predicate IsNewest(log: set<Change>, xid: Xid)
  {
    (exists change :: change in log && change.xid == xid) && forall change :: change in log ==> change.xid <= xid
  }

  /** The prune, with the newest transaction it lost. */
  ghost predicate Prune(s: Server, fence: Xid, after: Server)
  {
    var lost := Pruned(s, fence);
    if lost == {} then after == s
    else IsNewest(lost, after.pruned) && after == s.(log := s.log - lost, pruned := after.pruned)
  }

  // ---- Windows ----

  predicate InWindow(change: Change, since: Xid, horizon: Xid)
  {
    change.mine && since <= change.xid < horizon
  }

  /** The cursor is below everything retained, so changes it needs may be lost. */
  predicate Expired(log: set<Change>, since: Xid)
  {
    log != {} && forall change :: change in log ==> since < change.xid
  }

  ghost function ReadWindow(s: Server, since: Option<Xid>): Window
  {
    var horizon := HorizonOf(s);
    if since.None? || Expired(s.log, since.value)
      || exists change :: change in s.log && InWindow(change, since.value, horizon) && change.allRows
    then Full(horizon)
    else
      Delta(horizon,
        (set change, key | change in s.log && InWindow(change, since.value, horizon) && key in change.changed :: key),
        (set change, key | change in s.log && InWindow(change, since.value, horizon) && key in change.deleted :: key))
  }

  // ---- What the log always holds ----

  /** A log entry that tells of a key, and as deleted if nothing is there now. */
  predicate Tells(change: Change, key: Key, xid: Xid, now: Option<Value>)
  {
    change.mine && change.xid == xid && (change.allRows || key in change.deleted || (now.Some? && key in change.changed))
  }

  ghost predicate Told(log: set<Change>, key: Key, xid: Xid, now: Option<Value>)
  {
    exists change :: change in log && Tells(change, key, xid, now)
  }

  /** Every write of an open transaction is in its log. */
  ghost predicate WriteTold(xid: Xid, tx: Tx, key: Key)
  {
    key in tx.writes ==> Told(tx.log, key, xid, tx.writes[key])
  }

  ghost predicate TxLogged(xid: Xid, tx: Tx)
  {
    (forall key :: WriteTold(xid, tx, key)) && forall change :: change in tx.log ==> change.xid == xid
  }

  /** The last change of a key is in the log unless retention took its transaction. */
  ghost predicate KeyTold(s: Server, key: Key)
  {
    s.pruned < LastChange(s, key) ==> Told(s.log, key, LastChange(s, key), Get(s.rows, key))
  }

  ghost predicate ChangesTold(s: Server)
  {
    forall key :: KeyTold(s, key)
  }

  /** Everything retained or still to come is newer than what retention took. */
  ghost predicate Fenced(s: Server)
  {
    && s.pruned < s.next
    && (forall xid :: xid in s.active ==> s.pruned < xid < s.next)
    && (forall change :: change in s.log ==> s.pruned < change.xid < s.next)
    && (s.pruned > 0 ==> s.log != {})
    && (forall key :: key in s.lastChange ==> s.lastChange[key] < s.next)
  }

  ghost predicate Valid(s: Server)
  {
    Fenced(s) && ChangesTold(s) && forall xid :: xid in s.active ==> TxLogged(xid, s.active[xid])
  }

  lemma {:induction false} BeginKeepsValid(s: Server)
    requires Valid(s)
    ensures Valid(Begin(s))
  {
    hide Told;
    var t := Begin(s);
    forall key
      ensures KeyTold(t, key)
    {
      assert KeyTold(s, key);
    }
  }

  lemma {:induction false} LoggedTells(xid: Xid, changed: set<Key>, deleted: set<Key>, key: Key, now: Option<Value>)
    requires key in changed + deleted && changed !! deleted && (now.Some? <==> key in changed)
    ensures Told(Logged(xid, changed, deleted), key, xid, now)
  {
    var logged := Logged(xid, changed, deleted);
    var change :| change in logged;
    assert Tells(change, key, xid, now);
  }

  lemma {:induction false} ToldStays(log: set<Change>, more: set<Change>, key: Key, xid: Xid, now: Option<Value>)
    requires Told(log, key, xid, now) && log <= more
    ensures Told(more, key, xid, now)
  {
    var change :| change in log && Tells(change, key, xid, now);
    assert change in more;
  }

  lemma {:induction false} WriteKeepsLogged(xid: Xid, tx: Tx, changed: Rows, deleted: set<Key>)
    requires TxLogged(xid, tx)
    ensures TxLogged(xid, WriteTx(xid, tx, changed, deleted))
  {
    hide Told, Logged;
    var after := WriteTx(xid, tx, changed, deleted);
    var logged := Logged(xid, changed.Keys, deleted - changed.Keys);
    forall key
      ensures WriteTold(xid, after, key)
    {
      if key in changed.Keys + deleted {
        LoggedTells(xid, changed.Keys, deleted - changed.Keys, key, after.writes[key]);
        ToldStays(logged, after.log, key, xid, after.writes[key]);
      } else if key in tx.writes {
        assert WriteTold(xid, tx, key);
        ToldStays(tx.log, after.log, key, xid, tx.writes[key]);
      }
    }
  }

  /** A transaction that stays open may write anything it logs. */
  lemma {:induction false} OpenTxKeepsValid(s: Server, xid: Xid, tx: Tx)
    requires Valid(s) && xid in s.active && TxLogged(xid, tx)
    ensures Valid(s.(active := s.active[xid := tx]))
  {
    hide Told, TxLogged;
    var t := s.(active := s.active[xid := tx]);
    forall key
      ensures KeyTold(t, key)
    {
      assert KeyTold(s, key);
    }
  }

  lemma {:induction false} ElsewhereKeepsLogged(xid: Xid, tx: Tx, change: Change)
    requires TxLogged(xid, tx) && change.xid == xid
    ensures TxLogged(xid, tx.(log := tx.log + {change}))
  {
    hide Told;
    var after := tx.(log := tx.log + {change});
    forall key
      ensures WriteTold(xid, after, key)
    {
      assert WriteTold(xid, tx, key);
      if key in tx.writes {
        ToldStays(tx.log, after.log, key, xid, tx.writes[key]);
      }
    }
  }

  lemma {:induction false} CommitKeepsValid(s: Server, xid: Xid)
    requires Valid(s) && xid in s.active
    ensures Valid(Commit(s, xid))
  {
    hide Told;
    var t, tx := Commit(s, xid), s.active[xid];
    assert TxLogged(xid, tx);
    forall key
      ensures KeyTold(t, key)
    {
      if key in tx.writes {
        assert WriteTold(xid, tx, key);
        ToldStays(tx.log, t.log, key, xid, tx.writes[key]);
      } else {
        assert KeyTold(s, key);
        if s.pruned < LastChange(s, key) {
          ToldStays(s.log, t.log, key, LastChange(s, key), Get(s.rows, key));
        }
      }
    }
  }

  lemma {:induction false} AbortKeepsValid(s: Server, xid: Xid)
    requires Valid(s)
    ensures Valid(Abort(s, xid))
  {
    hide Told;
    var t := Abort(s, xid);
    forall key
      ensures KeyTold(t, key)
    {
      assert KeyTold(s, key);
    }
  }

  /** Retention takes whole transactions, and only ones older than everything left. */
  lemma {:induction false} PruneFences(s: Server, fence: Xid, after: Server)
    requires Fenced(s) && Prune(s, fence, after)
    ensures Fenced(after) && s.pruned <= after.pruned
    ensures forall change :: change in s.log && after.pruned < change.xid ==> change in after.log
  {
    var lost := Pruned(s, fence);
    if lost != {} {
      var last :| last in lost && last.xid == after.pruned;
      assert Prunes(s, fence, last);
      forall change | change in after.log
        ensures after.pruned < change.xid
      {
        assert change.xid <= last.xid ==> Prunes(s, fence, change);
      }
      var newer :| newer in s.log && last.xid < newer.xid;
      assert newer in after.log by {
        assert newer in lost ==> newer.xid <= last.xid;
      }
    }
  }

  lemma {:induction false} PruneKeepsValid(s: Server, fence: Xid, after: Server)
    requires Valid(s) && Prune(s, fence, after)
    ensures Valid(after)
  {
    hide Prunes, IsNewest, TxLogged;
    PruneFences(s, fence, after);
    forall key
      ensures KeyTold(after, key)
    {
      assert KeyTold(s, key);
      if after.pruned < LastChange(after, key) {
        var xid, now := LastChange(s, key), Get(s.rows, key);
        var change :| change in s.log && Tells(change, key, xid, now);
        assert change in after.log;
      }
    }
  }

  // ---- What a window tells ----

  /** Below the horizon, a delta names every key changed since the cursor, and as deleted if it is gone. */
  lemma {:induction false} WindowTells(s: Server, since: Option<Xid>, key: Key)
    requires Valid(s) && ReadWindow(s, since).Delta?
    requires since.value <= LastChange(s, key) < HorizonOf(s) && 0 < since.value
    ensures key in ReadWindow(s, since).changed || key in ReadWindow(s, since).deleted
    ensures key !in s.rows ==> key in ReadWindow(s, since).deleted
  {
    assert KeyTold(s, key);
    assert !Expired(s.log, since.value);
    if s.pruned > 0 {
      var oldest :| oldest in s.log && oldest.xid <= since.value;
      assert s.pruned < since.value;
    }
    var xid, now := LastChange(s, key), Get(s.rows, key);
    var change :| change in s.log && Tells(change, key, xid, now);
    assert InWindow(change, since.value, HorizonOf(s));
  }

  /** The horizon never moves back. */
  lemma {:induction false} HorizonGrows(s: Server, t: Server)
    requires Fenced(s) && s.next <= t.next && forall xid :: xid in t.active ==> xid in s.active || s.next <= xid
    ensures HorizonOf(s) <= HorizonOf(t)
  {
  }

  /** Retention takes exactly what is at or below the fence, below the horizon, and not of the newest transaction. */
  lemma {:induction false} PruneTakes(s: Server, fence: Xid, after: Server, change: Change)
    requires Prune(s, fence, after) && change in s.log
    ensures change in after.log <==>
      fence < change.xid || HorizonOf(s) <= change.xid || forall other :: other in s.log ==> other.xid <= change.xid
  {
    hide HorizonOf, IsNewest;
    assert change in after.log <==> !Prunes(s, fence, change);
    if other :| other in s.log && change.xid < other.xid {
      assert Prunes(s, fence, change) <==> change.xid <= fence && change.xid < HorizonOf(s);
    }
  }

  // ---- How much a window tells ----

  /** A transaction of one statement on the collection's table and one on some other table. */
  function Committed(s: Server, changed: Rows, deleted: set<Key>, elsewhere: Change): Server
  {
    var xid := s.next;
    Commit(WriteElsewhere(Write(Begin(s), xid, changed, deleted), xid, elsewhere), xid)
  }

  lemma {:induction false} CommittedLog(s: Server, changed: Rows, deleted: set<Key>, elsewhere: Change)
    ensures var t := Committed(s, changed, deleted, elsewhere);
      && t.log == s.log + Logged(s.next, changed.Keys, deleted - changed.Keys) + {elsewhere.(xid := s.next, mine := false)}
      && t.active == s.active - {s.next} && t.next == s.next + 1
  {
    hide Logged, Applied;
    var begun := Begin(s);
    assert begun.active[s.next] == Tx(map[], {});
    var written := Write(begun, s.next, changed, deleted);
    assert written.active[s.next].log == {} + Logged(s.next, changed.Keys, deleted - changed.Keys);
    var more := WriteElsewhere(written, s.next, elsewhere);
    assert more.active[s.next].log == written.active[s.next].log + {elsewhere.(xid := s.next, mine := false)};
    assert more.active - {s.next} == s.active - {s.next};
  }

  /**
   A reader that was up to date with a quiet server and reads again after one such transaction is told exactly
   the keys its statement changed and those it removed, up to a hundred together; of more it is told to read
   everything. Other tables never show.
   */
  lemma {:induction false} WindowOfOneWrite(s: Server, changed: Rows, deleted: set<Key>, elsewhere: Change)
    requires Fenced(s) && s.active == map[]
    ensures var (window, gone) := (ReadWindow(Committed(s, changed, deleted, elsewhere), Some(HorizonOf(s))), deleted - changed.Keys);
      window == if |changed.Keys| + |gone| <= 100 then Delta(s.next + 1, changed.Keys, gone) else Full(s.next + 1)
  {
    hide Committed, Fenced, Logged, ReadWindow, InWindow;
    var t, gone := Committed(s, changed, deleted, elsewhere), deleted - changed.Keys;
    CommittedLog(s, changed, deleted, elsewhere);
    var logged, other := Logged(s.next, changed.Keys, gone), elsewhere.(xid := s.next, mine := false);
    assert HorizonOf(s) == s.next && HorizonOf(t) == s.next + 1;
    assert other in t.log && !Expired(t.log, s.next);
    LoggedIs(s.next, changed.Keys, gone);
    OnlyNew(s, t, logged, other);
    WindowFrom(t, s.next, logged, changed.Keys, gone);
  }

  lemma {:induction false} OnlyNew(s: Server, t: Server, logged: set<Change>, other: Change)
    requires Fenced(s) && t.log == s.log + logged + {other} && !other.mine && forall change :: change in logged ==> change.mine && change.xid == s.next
    ensures forall change :: change in t.log && InWindow(change, s.next, s.next + 1) <==> change in logged
  {
  }

  lemma {:induction false} LoggedIs(xid: Xid, changed: set<Key>, deleted: set<Key>)
    ensures var logged := Logged(xid, changed, deleted);
      && (forall change :: change in logged ==> change.mine && change.xid == xid)
      && (|changed| + |deleted| > 100 <==> exists change :: change in logged && change.allRows)
      && (|changed| + |deleted| <= 100 ==> forall key ::
            && (key in changed <==> exists change :: change in logged && key in change.changed)
            && (key in deleted <==> exists change :: change in logged && key in change.deleted))
  {
    var logged := Logged(xid, changed, deleted);
    if changed + deleted != {} && |changed| + |deleted| <= 100 {
      assert Change(xid, true, changed, deleted, false) in logged;
    } else if changed + deleted != {} {
      assert Change(xid, true, {}, {}, true) in logged;
    } else {
      assert changed == {} && deleted == {};
    }
  }

  lemma {:induction false} WindowFrom(t: Server, since: Xid, logged: set<Change>, changed: set<Key>, deleted: set<Key>)
    requires !Expired(t.log, since) && HorizonOf(t) == since + 1
    requires forall change :: change in t.log && InWindow(change, since, since + 1) <==> change in logged
    requires |changed| + |deleted| > 100 <==> exists change :: change in logged && change.allRows
    requires |changed| + |deleted| <= 100 ==> forall key ::
      && (key in changed <==> exists change :: change in logged && key in change.changed)
      && (key in deleted <==> exists change :: change in logged && key in change.deleted)
    ensures ReadWindow(t, Some(since)) ==
      if |changed| + |deleted| <= 100 then Delta(since + 1, changed, deleted) else Full(since + 1)
  {
    hide HorizonOf, Expired, InWindow;
    var window := ReadWindow(t, Some(since));
    if |changed| + |deleted| <= 100 {
      assert window.Delta?;
      assert window.changed == changed;
      assert window.deleted == deleted;
    }
  }
}
