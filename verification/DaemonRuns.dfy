/** Whole runs of the daemon: starts, stops, heartbeats, idle edges, deletes and merges from
    outside, crashes at any step and recovery, with any database operation allowed to fail. */
module DaemonRuns {
  import opened Types
  import opened Ledger
  import opened SessionManager
  import Idle

  /** Heartbeat cadence in seconds. */
  const HEARTBEAT_SECONDS: nat := 60

  /** `clock.now` runs on across restarts; the idle tracker starts empty with every daemon.

      The last four fields record what really happened, session by session: when it began, when
      its runtime was last written, when the daemon stopped observing it (at a stop or a crash),
      and which sessions were deleted. No step reads them. */
  datatype World = World(
    s: State, clock: Idle.Timeline, grace: nat, blocked: set<GameKey>, up: bool,
    born: map<nat, nat>, sampled: map<nat, nat>, gone: map<nat, nat>, deleted: set<nat>)

  datatype Step =
    | Start(key: GameKey, at: int, start: StartIo)
    | Stop(key: GameKey, at: int, io: bool)
    | Beat(key: GameKey, at: int, io: bool)
    | Pass(ns: nat)
    | IdleEdge(idle: bool)
    | SetGrace(grace: nat)
    | SetBlocked(blocked: set<GameKey>)
    | DeleteRows(ids: seq<nat>, io: bool)
    | MergeApps(src: nat, dst: nat, io: bool)   // the command refuses to run beside the daemon
    | Crash
    | Recover(id: nat, io: bool)
    | Boot                                      // recovery has finished; events are accepted

  const INIT := World(State(EMPTY, map[]), Idle.Fresh(0), 0, {}, false, map[], map[], map[], {})

  function Tracked(open: map<GameKey, OpenSession>): set<nat> {
    set k | k in open :: open[k].id
  }

  ghost function Next(w: World, step: Step): (w': World)
    requires Idle.Readable(w.clock)
    ensures Idle.Readable(w'.clock)
  {
    match step
    case Start(key, at, io) =>
      if !w.up then w
      else
        var s' := AfterStarted(w.s, key in w.blocked, key, at, w.clock, io);
        if s'.open == w.s.open then w.(s := s')
        else w.(s := s', born := w.born[s'.open[key].id := w.clock.now],
                sampled := w.sampled[s'.open[key].id := w.clock.now])
    case Stop(key, at, io) =>
      if !w.up || key !in w.s.open then w
      else
        var id := w.s.open[key].id;
        w.(s := AfterStopped(w.s, key, at, w.clock, w.grace, io),
           gone := w.gone[id := w.clock.now],
           sampled := if io then w.sampled[id := w.clock.now] else w.sampled)
    case Beat(key, at, io) =>
      if !w.up || key !in w.s.open then w
      else
        var id := w.s.open[key].id;
        w.(s := AfterBeat(w.s, key, at, w.clock, w.grace, io),
           sampled := if io then w.sampled[id := w.clock.now] else w.sampled)
    case Pass(ns) => w.(clock := Idle.Step(w.clock, Idle.Advance(ns)))
    case IdleEdge(idle) => if w.up then w.(clock := Idle.Step(w.clock, Idle.Edge(idle))) else w
    case SetGrace(grace) => w.(grace := grace)
    case SetBlocked(blocked) => w.(blocked := blocked)
    case DeleteRows(ids, io) =>
      if !io then w
      else
        var db' := AfterDelete(w.s.db, ids);
        w.(s := w.s.(db := db'), deleted := w.deleted + (w.s.db.sessions.Keys - db'.sessions.Keys))
    case MergeApps(src, dst, io) =>
      if w.up || !io then w else w.(s := w.s.(db := AfterMerge(w.s.db, src, dst)))
    case Crash =>
      w.(s := w.s.(open := map[]), up := false, clock := Idle.Fresh(w.clock.now),
         gone := w.gone + map id | id in Tracked(w.s.open) :: w.clock.now)
    case Recover(id, io) =>
      if w.up then w else w.(s := w.s.(db := AfterRecovering(w.s.db, id, io)))
    case Boot =>
      if w.up || !NoOpenRow(w.s.db) then w else w.(up := true)
  }

  // ---- The invariant of every run ---------------------------------------------------------

  /** Each map entry names an open row of the application that carries its key. */
  ghost predicate EntriesOpen(s: State) {
    forall k :: k in s.open ==>
      var o := s.open[k];
      && IsOpen(s.db.sessions, o.id)
      && s.db.sessions[o.id].app == o.app
      && o.app in s.db.apps && s.db.apps[o.app].key == k
      && o.baseline.open >= 0
  }

  /** What is recorded of session `id` against what really happened. */
  ghost predicate Truthful(w: World, id: nat)
    requires id in w.s.db.sessions
  {
    && id in w.born && id in w.sampled
    && w.born[id] <= w.sampled[id] <= w.clock.now
    && w.s.db.sessions[id].full == Idle.SecondsBetween(w.born[id], w.sampled[id])
    && (id in Tracked(w.s.open) <==> id !in w.gone)
    && (id in w.gone ==> w.sampled[id] <= w.gone[id] <= w.clock.now)
    && (w.s.db.sessions[id].endedAt.Some? ==> id in w.gone)
  }

  ghost predicate Records(w: World) {
    && (forall k :: k in w.s.open ==> w.s.open[k].id in w.born && w.born[w.s.open[k].id] == w.s.open[k].started)
    && (forall id :: id in w.s.db.sessions ==> Truthful(w, id))
    && w.s.db.sessions.Keys == w.born.Keys - w.deleted && w.deleted <= w.born.Keys
    && (forall id :: id in w.born || id in w.gone ==> id < w.s.db.nextSession)
  }

  ghost predicate Inv(w: World) {
    && Idle.WellTimed(w.clock)
    && Sound(w.s.db)
    && EntriesOpen(w.s)
    && (!w.up ==> w.s.open == map[])
    && Records(w)
  }

  /** Two keys never share a session. */
  lemma EntriesDistinct(s: State, k1: GameKey, k2: GameKey)
    requires EntriesOpen(s) && k1 in s.open && k2 in s.open && s.open[k1].id == s.open[k2].id
    ensures k1 == k2
  {
    assert s.db.apps[s.open[k1].app].key == s.db.apps[s.open[k2].app].key;
  }

  // ---- Starting ---------------------------------------------------------------------------

  /** `db'` is `db`, possibly with one more application. */
  ghost predicate MoreApps(db: Db, db': Db) {
    && db'.sessions == db.sessions && db'.nextSession == db.nextSession
    && (forall a :: a in db.apps ==> a in db'.apps && db'.apps[a] == db.apps[a])
  }

  /** `s'` is `s` with one more session, open under `key`. */
  ghost predicate Opened(s: State, s': State, key: GameKey, clock: Idle.Timeline) {
    var id := s.db.nextSession;
    && key !in s.open && key in s'.open && s'.open - {key} == s.open
    && s'.open[key].id == id && s'.open[key].started == clock.now && s'.open[key].baseline.open >= 0
    && s'.db.sessions.Keys == s.db.sessions.Keys + {id} && s'.db.nextSession == id + 1
    && s'.db.sessions[id].endedAt.None? && s'.db.sessions[id].full == 0
    && s'.db.sessions[id].app == s'.open[key].app
    && s'.open[key].app in s'.db.apps && s'.db.apps[s'.open[key].app].key == key
    && (forall i :: i in s.db.sessions ==> i < id && s'.db.sessions[i] == s.db.sessions[i])
    && (forall a :: a in s.db.apps ==> a in s'.db.apps && s'.db.apps[a].key == s.db.apps[a].key)
  }

  lemma OpeningOpens(s: State, db: Db, app: nat, key: GameKey, at: int, clock: Idle.Timeline, io: bool)
    requires Idle.WellTimed(clock) && key !in s.open && Sound(db) && MoreApps(s.db, db)
    requires app in db.apps && db.apps[app].key == key
    ensures var s' := AfterOpening(State(db, s.open), app, key, at, clock, io);
            && Sound(s'.db)
            && (s' == State(db, s.open) || Opened(s, s', key, clock))
  {
    BeginKeepsSound(db, app, at);
    var s' := AfterOpening(State(db, s.open), app, key, at, clock, io);
    if s'.db != db {
      assert s'.open - {key} == s.open;
    }
  }

  lemma OpenedKeepsEntries(s: State, s': State, key: GameKey, clock: Idle.Timeline)
    requires EntriesOpen(s) && Opened(s, s', key, clock)
    ensures EntriesOpen(s') && Tracked(s'.open) == Tracked(s.open) + {s.db.nextSession}
    ensures s'.open != s.open
  {
    forall k | k in s.open
      ensures k in s'.open && s'.open[k] == s.open[k]
    {
      assert k in s'.open - {key};
    }
    forall k | k in s'.open && k != key
      ensures k in s.open && s'.open[k] == s.open[k]
    {
      assert k in s'.open - {key};
    }
    forall i | i in Tracked(s.open)
      ensures i in Tracked(s'.open)
    {
      var k :| k in s.open && s.open[k].id == i;
      assert s'.open[k].id == i;
    }
  }

  ghost function Recording(w: World, s': State, id: nat): World {
    w.(s := s', born := w.born[id := w.clock.now], sampled := w.sampled[id := w.clock.now])
  }

  lemma OpenedTruthful(w: World, s': State, key: GameKey, i: nat)
    requires EntriesOpen(w.s) && Records(w) && Opened(w.s, s', key, w.clock) && i in s'.db.sessions
    ensures Truthful(Recording(w, s', w.s.db.nextSession), i)
  {
    OpenedKeepsEntries(w.s, s', key, w.clock);
    if i == w.s.db.nextSession {
      assert s'.open[key].id in Tracked(s'.open);
    } else {
      assert Truthful(w, i);
    }
  }

  lemma OpenedKeepsStarts(w: World, s': State, key: GameKey)
    requires EntriesOpen(w.s) && Records(w) && Opened(w.s, s', key, w.clock)
    ensures var w' := Recording(w, s', w.s.db.nextSession);
            forall k :: k in s'.open ==> s'.open[k].id in w'.born && w'.born[s'.open[k].id] == s'.open[k].started
  {
    forall k | k in s'.open && k != key
      ensures k in w.s.open && s'.open[k] == w.s.open[k] && w.s.open[k].id != w.s.db.nextSession
    {
      assert k in s'.open - {key};
      assert IsOpen(w.s.db.sessions, w.s.open[k].id);
    }
  }

  lemma OpenedKeepsRecords(w: World, s': State, key: GameKey)
    requires EntriesOpen(w.s) && Records(w) && Opened(w.s, s', key, w.clock)
    ensures Records(Recording(w, s', w.s.db.nextSession))
  {
    OpenedKeepsStarts(w, s', key);
    forall i | i in s'.db.sessions
      ensures Truthful(Recording(w, s', w.s.db.nextSession), i)
    {
      OpenedTruthful(w, s', key, i);
    }
  }

  /** A start changes nothing but perhaps adds an application, or opens a session. */
  lemma StartOutcome(w: World, key: GameKey, at: int, io: StartIo)
    requires Inv(w) && key !in w.s.open
    ensures var s' := AfterStarted(w.s, key in w.blocked, key, at, w.clock, io);
            && Sound(s'.db)
            && ((s'.open == w.s.open && MoreApps(w.s.db, s'.db)) || Opened(w.s, s', key, w.clock))
  {
    if key !in w.blocked && io.find {
      var found := FindByKey(w.s.db.apps, key, w.s.db.nextApp);
      if found.Some? {
        OpeningOpens(w.s, w.s.db, found.value, key, at, w.clock, io.begin);
      } else if io.create {
        CreateKeepsSound(w.s.db, key, at);
        OpeningOpens(w.s, AfterCreate(w.s.db, key, at), w.s.db.nextApp, key, at, w.clock, io.begin);
      }
    }
  }

  lemma StartKeepsInv(w: World, key: GameKey, at: int, io: StartIo)
    requires Inv(w)
    ensures Inv(Next(w, Start(key, at, io)))
  {
    var s' := AfterStarted(w.s, key in w.blocked, key, at, w.clock, io);
    if w.up && key !in w.s.open {
      StartOutcome(w, key, at, io);
      if Opened(w.s, s', key, w.clock) {
        OpenedKeepsEntries(w.s, s', key, w.clock);
        OpenedKeepsRecords(w, s', key);
      } else {
        SameRowsKeepInv(w, s'.db);
      }
    }
  }

  lemma SameRowsKeepInv(w: World, db: Db)
    requires EntriesOpen(w.s) && Records(w) && MoreApps(w.s.db, db)
    ensures EntriesOpen(State(db, w.s.open)) && Records(w.(s := State(db, w.s.open)))
  {
    forall i | i in db.sessions
      ensures Truthful(w.(s := State(db, w.s.open)), i)
    {
      assert Truthful(w, i);
    }
  }

  // ---- Stopping and heartbeats ------------------------------------------------------------

  /** `db'` is `db` with the runtimes of the session of `o` written again at `now`. */
  ghost predicate Rewritten(db: Db, db': Db, o: OpenSession, now: nat, ends: bool) {
    && db'.sessions.Keys == db.sessions.Keys && db'.nextSession == db.nextSession
    && o.id in db'.sessions
    && (forall i :: i in db.sessions && i != o.id ==> db'.sessions[i] == db.sessions[i])
    && db'.sessions[o.id].app == db.sessions[o.id].app
    && db'.sessions[o.id].full == FullRuntime(o, now)
    && db'.sessions[o.id].endedAt.Some? == ends
    && db'.apps.Keys == db.apps.Keys
    && (forall a :: a in db.apps ==> db'.apps[a].key == db.apps[a].key)
  }

  lemma SampleChecked(o: OpenSession, clock: Idle.Timeline, grace: nat, at: int)
    requires Idle.Readable(clock)
    ensures var snap := Sample(o, clock, grace, at);
            CheckedRuntimes(snap.full, snap.interactive) && snap.full == FullRuntime(o, clock.now)
  {
  }

  lemma CloseRewrites(db: Db, o: OpenSession, snap: Snapshot, now: nat)
    requires Sound(db) && IsOpen(db.sessions, o.id) && db.sessions[o.id].app == o.app
    requires CheckedRuntimes(snap.full, snap.interactive) && snap.full == FullRuntime(o, now)
    ensures var db' := AfterClose(db, o.id, o.app, snap, Terminated);
            Sound(db') && Rewritten(db, db', o, now, true)
  {
    CloseKeepsSoundIffOwner(db, o.id, o.app, snap, Terminated);
  }

  lemma HeartbeatRewrites(db: Db, o: OpenSession, snap: Snapshot, now: nat)
    requires Sound(db) && IsOpen(db.sessions, o.id)
    requires CheckedRuntimes(snap.full, snap.interactive) && snap.full == FullRuntime(o, now)
    ensures var db' := AfterHeartbeat(db, o.id, snap);
            Sound(db') && Rewritten(db, db', o, now, false)
  {
    HeartbeatKeepsSound(db, o.id, snap);
  }

  lemma TrackedWithout(s: State, key: GameKey)
    requires EntriesOpen(s) && key in s.open
    ensures Tracked(s.open - {key}) == Tracked(s.open) - {s.open[key].id}
  {
    forall i | i in Tracked(s.open) - {s.open[key].id}
      ensures i in Tracked(s.open - {key})
    {
      var k :| k in s.open && s.open[k].id == i;
      assert (s.open - {key})[k].id == i;
    }
    forall k | k in s.open && k != key
      ensures s.open[k].id != s.open[key].id
    {
      if s.open[k].id == s.open[key].id {
        EntriesDistinct(s, k, key);
      }
    }
  }

  ghost function Stopping(w: World, db: Db, key: GameKey, io: bool): World
    requires key in w.s.open
  {
    var id := w.s.open[key].id;
    w.(s := State(db, w.s.open - {key}), gone := w.gone[id := w.clock.now],
       sampled := if io then w.sampled[id := w.clock.now] else w.sampled)
  }

  lemma StopTruthful(w: World, db: Db, key: GameKey, io: bool, i: nat)
    requires EntriesOpen(w.s) && key in w.s.open && i in w.s.db.sessions && i in db.sessions
    requires Truthful(w, i) && Truthful(w, w.s.open[key].id)
    requires w.s.open[key].id in w.born ==> w.born[w.s.open[key].id] == w.s.open[key].started
    requires if io then Rewritten(w.s.db, db, w.s.open[key], w.clock.now, true) else db == w.s.db
    ensures Truthful(Stopping(w, db, key, io), i)
  {
    TrackedWithout(w.s, key);
  }

  lemma StopKeepsRecords(w: World, db: Db, key: GameKey, io: bool)
    requires EntriesOpen(w.s) && Records(w) && key in w.s.open
    requires if io then Rewritten(w.s.db, db, w.s.open[key], w.clock.now, true) else db == w.s.db
    ensures Records(Stopping(w, db, key, io))
  {
    StoppedRowsTruthful(w, db, key, io);
  }

  lemma StoppedRowsTruthful(w: World, db: Db, key: GameKey, io: bool)
    requires EntriesOpen(w.s) && Records(w) && key in w.s.open
    requires if io then Rewritten(w.s.db, db, w.s.open[key], w.clock.now, true) else db == w.s.db
    ensures forall i :: i in db.sessions ==> Truthful(Stopping(w, db, key, io), i)
  {
    assert w.s.open[key].id in w.s.db.sessions;
    forall i | i in db.sessions
      ensures Truthful(Stopping(w, db, key, io), i)
    {
      assert Truthful(w, i) && Truthful(w, w.s.open[key].id);
      StopTruthful(w, db, key, io, i);
    }
  }

  lemma RewrittenKeepsEntries(s: State, db: Db, key: GameKey, ends: bool, now: nat)
    requires EntriesOpen(s) && key in s.open && Rewritten(s.db, db, s.open[key], now, ends)
    ensures EntriesOpen(State(db, s.open - {key}))
    ensures !ends ==> EntriesOpen(State(db, s.open))
  {
    forall k | k in s.open && k != key
      ensures s.open[k].id != s.open[key].id
    {
      if s.open[k].id == s.open[key].id {
        EntriesDistinct(s, k, key);
      }
    }
  }

  lemma StopKeepsInv(w: World, key: GameKey, at: int, io: bool)
    requires Inv(w)
    ensures Inv(Next(w, Stop(key, at, io)))
  {
    if w.up && key in w.s.open {
      var o := w.s.open[key];
      var db' := AfterStopped(w.s, key, at, w.clock, w.grace, io).db;
      if io {
        SampleChecked(o, w.clock, w.grace, at);
        CloseRewrites(w.s.db, o, Sample(o, w.clock, w.grace, at), w.clock.now);
        RewrittenKeepsEntries(w.s, db', key, true, w.clock.now);
      }
      StopKeepsRecords(w, db', key, io);
    }
  }

  lemma BeatKeepsRecords(w: World, db: Db, key: GameKey)
    requires EntriesOpen(w.s) && Records(w) && key in w.s.open
    requires Rewritten(w.s.db, db, w.s.open[key], w.clock.now, false)
    ensures Records(w.(s := State(db, w.s.open), sampled := w.sampled[w.s.open[key].id := w.clock.now]))
  {
    var id := w.s.open[key].id;
    var w' := w.(s := State(db, w.s.open), sampled := w.sampled[id := w.clock.now]);
    assert id in w.s.db.sessions && Truthful(w, id) && id in Tracked(w.s.open);
    forall i | i in db.sessions
      ensures Truthful(w', i)
    {
      assert Truthful(w, i);
    }
  }

  lemma BeatKeepsInv(w: World, key: GameKey, at: int, io: bool)
    requires Inv(w)
    ensures Inv(Next(w, Beat(key, at, io)))
  {
    if w.up && key in w.s.open && io {
      var o := w.s.open[key];
      var db' := AfterBeat(w.s, key, at, w.clock, w.grace, io).db;
      SampleChecked(o, w.clock, w.grace, at);
      HeartbeatRewrites(w.s.db, o, Sample(o, w.clock, w.grace, at), w.clock.now);
      RewrittenKeepsEntries(w.s, db', key, false, w.clock.now);
      BeatKeepsRecords(w, db', key);
    }
  }

  // ---- Crashes and changes from outside ---------------------------------------------------

  lemma CrashTruthful(w: World, i: nat)
    requires Idle.Readable(w.clock) && i in w.s.db.sessions && Truthful(w, i)
    ensures Truthful(Next(w, Crash), i)
  {
  }

  lemma CrashKeepsInv(w: World)
    requires Inv(w)
    ensures Inv(Next(w, Crash))
  {
    var w' := Next(w, Crash);
    forall i | i in w'.s.db.sessions
      ensures Truthful(w', i)
    {
      CrashTruthful(w, i);
    }
    forall i | i in Tracked(w.s.open)
      ensures i < w.s.db.nextSession
    {
      var k :| k in w.s.open && w.s.open[k].id == i;
    }
  }

  /** Rows of `db'` are rows of `db` with the same runtime, ended only if already given up. */
  ghost predicate KeepsRuntimes(w: World, db': Db) {
    && db'.nextSession == w.s.db.nextSession
    && (forall i :: i in db'.sessions ==>
          && i in w.s.db.sessions && db'.sessions[i].full == w.s.db.sessions[i].full
          && (db'.sessions[i].endedAt.Some? ==> w.s.db.sessions[i].endedAt.Some? || i in w.gone))
  }

  lemma OutsideKeepsRecords(w: World, db: Db)
    requires Records(w) && KeepsRuntimes(w, db)
    ensures Records(w.(s := w.s.(db := db), deleted := w.deleted + (w.s.db.sessions.Keys - db.sessions.Keys)))
  {
    var w' := w.(s := w.s.(db := db), deleted := w.deleted + (w.s.db.sessions.Keys - db.sessions.Keys));
    forall i | i in db.sessions
      ensures Truthful(w', i)
    {
      assert Truthful(w, i);
    }
  }

  lemma DeleteKeepsEntries(s: State, ids: seq<nat>)
    requires EntriesOpen(s)
    ensures EntriesOpen(s.(db := AfterDelete(s.db, ids)))
  {
    forall k | k in s.open && !NamesOpenRow(s.db, ids)
      ensures s.open[k].id !in ids
    {
      assert IsOpen(s.db.sessions, s.open[k].id);
    }
  }

  lemma DeleteKeepsInv(w: World, ids: seq<nat>, io: bool)
    requires Inv(w)
    ensures Inv(Next(w, DeleteRows(ids, io)))
  {
    if io {
      var db' := AfterDelete(w.s.db, ids);
      DeleteKeepsSound(w.s.db, ids);
      OutsideKeepsRecords(w, db');
      DeleteKeepsEntries(w.s, ids);
    }
  }

  lemma SameRowsKeepRecords(w: World, db: Db)
    requires Records(w) && KeepsRuntimes(w, db) && db.sessions.Keys == w.s.db.sessions.Keys
    ensures Records(w.(s := w.s.(db := db)))
  {
    OutsideKeepsRecords(w, db);
    assert w.deleted + (w.s.db.sessions.Keys - db.sessions.Keys) == w.deleted;
  }

  lemma MergeKeepsRuntimes(w: World, src: nat, dst: nat)
    ensures KeepsRuntimes(w, AfterMerge(w.s.db, src, dst))
    ensures AfterMerge(w.s.db, src, dst).sessions.Keys == w.s.db.sessions.Keys
  {
  }

  lemma MergeKeepsInv(w: World, src: nat, dst: nat, io: bool)
    requires Inv(w)
    ensures Inv(Next(w, MergeApps(src, dst, io)))
  {
    if !w.up && io {
      MergeKeepsSound(w.s.db, src, dst);
      MergeKeepsRuntimes(w, src, dst);
      SameRowsKeepRecords(w, AfterMerge(w.s.db, src, dst));
    }
  }

  lemma RecoverKeepsSound(db: Db, id: nat, io: bool)
    requires Sound(db)
    ensures Sound(AfterRecovering(db, id, io))
  {
    if io && id in db.sessions {
      var r := db.sessions[id];
      CloseKeepsSoundIffOwner(db, id, r.app, Snapshot(r.full, r.interactive, r.heartbeatAt), Recovered);
    }
  }

  lemma RecoverKeepsRuntimes(w: World, id: nat, io: bool)
    requires Records(w) && w.s.open == map[]
    ensures KeepsRuntimes(w, AfterRecovering(w.s.db, id, io))
    ensures AfterRecovering(w.s.db, id, io).sessions.Keys == w.s.db.sessions.Keys
  {
    if id in w.s.db.sessions {
      assert Truthful(w, id);
    }
  }

  lemma RecoverKeepsInv(w: World, id: nat, io: bool)
    requires Inv(w)
    ensures Inv(Next(w, Recover(id, io)))
  {
    if !w.up {
      var db' := AfterRecovering(w.s.db, id, io);
      RecoverKeepsSound(w.s.db, id, io);
      RecoverKeepsRuntimes(w, id, io);
      SameRowsKeepRecords(w, db');
    }
  }

  lemma ClockKeepsInv(w: World, step: Step)
    requires Inv(w) && (step.Pass? || step.IdleEdge? || step.SetGrace? || step.SetBlocked? || step.Boot?)
    ensures Inv(Next(w, step))
  {
    var w' := Next(w, step);
    forall i | i in w'.s.db.sessions
      ensures Truthful(w', i)
    {
      assert Truthful(w, i);
    }
  }

  lemma NextKeepsInv(w: World, step: Step)
    requires Inv(w)
    ensures Inv(Next(w, step))
  {
    match step {
      case Start(key, at, io) => StartKeepsInv(w, key, at, io);
      case Stop(key, at, io) => StopKeepsInv(w, key, at, io);
      case Beat(key, at, io) => BeatKeepsInv(w, key, at, io);
      case Crash => CrashKeepsInv(w);
      case DeleteRows(ids, io) => DeleteKeepsInv(w, ids, io);
      case MergeApps(src, dst, io) => MergeKeepsInv(w, src, dst, io);
      case Recover(id, io) => RecoverKeepsInv(w, id, io);
      case _ => ClockKeepsInv(w, step);
    }
  }

  ghost function RunFrom(w: World, steps: seq<Step>): (w': World)
    requires Idle.Readable(w.clock)
    ensures Idle.Readable(w'.clock)
  {
    if steps == [] then w else Next(RunFrom(w, steps[..|steps| - 1]), steps[|steps| - 1])
  }

  /** The world after `steps` of a run from a new installation. */
  ghost function After(steps: seq<Step>): (w: World)
    ensures Idle.Readable(w.clock)
  {
    RunFrom(INIT, steps)
  }

  lemma {:induction false} RunKeepsInv(w: World, steps: seq<Step>)
    requires Inv(w)
    ensures Inv(RunFrom(w, steps))
  {
    if steps != [] {
      RunKeepsInv(w, steps[..|steps| - 1]);
      NextKeepsInv(RunFrom(w, steps[..|steps| - 1]), steps[|steps| - 1]);
    }
  }

  /** Every run keeps the invariant, whatever fails and wherever it crashes. */
  lemma EveryRunKeepsInv(steps: seq<Step>)
    ensures Inv(After(steps))
  {
    RunKeepsInv(INIT, steps);
  }

  // ---- What a start and a stop record -----------------------------------------------------

  /** A tracked game's stop that the database carries out ends its row then, as terminated, and the
      game was last played then. */
  lemma StopRecordsEnd(w: World, key: GameKey, at: int)
    requires Inv(w) && w.up && key in w.s.open
    ensures var o, db' := w.s.open[key], Next(w, Stop(key, at, true)).s.db;
            && o.id in db'.sessions && o.app in db'.apps
            && db'.sessions[o.id].endedAt == Some(at) && db'.sessions[o.id].heartbeatAt == at
            && db'.sessions[o.id].exit == Some(Terminated) && db'.apps[o.app].lastPlayed == Some(at)
  {
    var o := w.s.open[key];
    var snap := Sample(o, w.clock, w.grace, at);
    SampleChecked(o, w.clock, w.grace, at);
    CloseRecords(w.s.db, o.id, o.app, snap, Terminated);
  }

  /** A heartbeat that the database carries out is the row's latest sign of life, and ends nothing. */
  lemma BeatRecordsLife(w: World, key: GameKey, at: int)
    requires Inv(w) && w.up && key in w.s.open
    ensures var id, db' := w.s.open[key].id, Next(w, Beat(key, at, true)).s.db;
            && id in db'.sessions
            && db'.sessions[id].heartbeatAt == at && db'.sessions[id].endedAt.None?
            && db'.sessions[id].exit == w.s.db.sessions[id].exit
            && db'.apps == w.s.db.apps
  {
    SampleChecked(w.s.open[key], w.clock, w.grace, at);
  }

  /** Whether the database carries a step out is all that decides what it may change: a refused
      statement writes nothing, though a start may have added its application before. */
  lemma RefusedStatementsWriteNothing(w: World, step: Step)
    requires Inv(w)
    ensures (step.Stop? || step.Beat? || step.DeleteRows? || step.MergeApps? || step.Recover?) && !step.io ==>
              Next(w, step).s.db == w.s.db
    ensures step.Start? ==> RefusedStart(w, step.key, step.start, Next(w, step).s)
  {
    if step.Start? {
      RefusedStartOpensNothing(w, step.key, step.at, step.start);
    }
  }

  ghost predicate RefusedStart(w: World, key: GameKey, io: StartIo, s': State) {
    && (!io.find ==> s' == w.s)
    && (!io.create && FindByKey(w.s.db.apps, key, w.s.db.nextApp).None? ==> s' == w.s)
    && (!io.begin ==> s'.open == w.s.open && MoreApps(w.s.db, s'.db))
  }

  lemma RefusedStartOpensNothing(w: World, key: GameKey, at: int, io: StartIo)
    requires Inv(w)
    ensures RefusedStart(w, key, io, Next(w, Start(key, at, io)).s)
  {
  }

  /** What reaches the database and the settings from outside takes effect as it is; the command
      that merges does nothing while the daemon is up. */
  lemma OutsideStepsTakeEffect(w: World, step: Step)
    requires Idle.Readable(w.clock)
    ensures step.DeleteRows? && step.io ==> Next(w, step).s.db == Apply(w.s.db, Delete(step.ids))
    ensures step.MergeApps? && step.io ==>
              Next(w, step).s.db == if w.up then w.s.db else Apply(w.s.db, Merge(step.src, step.dst))
    ensures Next(w, step).grace == (if step.SetGrace? then step.grace else w.grace)
    ensures Next(w, step).blocked == (if step.SetBlocked? then step.blocked else w.blocked)
  {
  }

  /** The idle acts of a run. */
  function ActsOf(steps: seq<Step>): seq<Idle.Act> {
    if steps == [] then []
    else
      ActsOf(steps[..|steps| - 1]) + match steps[|steps| - 1]
                                     case Pass(ns) => [Idle.Advance(ns)]
                                     case IdleEdge(idle) => [Idle.Edge(idle)]
                                     case _ => []
  }

  /** Between two crashes the tracker and its clock go through exactly the idle history of the run,
      so that what is proved of idle histories is true of runs. */
  lemma {:induction false} RunPlaysIdleHistory(w: World, steps: seq<Step>)
    requires Idle.Readable(w.clock) && w.up && forall i :: 0 <= i < |steps| ==> !steps[i].Crash?
    ensures RunFrom(w, steps).up && RunFrom(w, steps).clock == Idle.Run(w.clock, ActsOf(steps))
  {
    if steps != [] {
      var init, last := steps[..|steps| - 1], steps[|steps| - 1];
      RunPlaysIdleHistory(w, init);
      NextPlaysAct(RunFrom(w, init), last);
      if last.Pass? {
        Idle.RunSnoc(w.clock, ActsOf(init), Idle.Advance(last.ns));
      } else if last.IdleEdge? {
        Idle.RunSnoc(w.clock, ActsOf(init), Idle.Edge(last.idle));
      } else {
        assert ActsOf(steps) == ActsOf(init);
      }
    }
  }

  lemma NextPlaysAct(w: World, step: Step)
    requires Idle.Readable(w.clock) && w.up && !step.Crash?
    ensures Next(w, step).up
    ensures Next(w, step).clock == match step
                                   case Pass(ns) => Idle.Step(w.clock, Idle.Advance(ns))
                                   case IdleEdge(idle) => Idle.Step(w.clock, Idle.Edge(idle))
                                   case _ => w.clock
  {
  }

  /** A crash leaves the time, and a tracker that has seen nothing. */
  lemma CrashForgetsIdling(w: World)
    requires Idle.Readable(w.clock)
    ensures var w' := Next(w, Crash);
            && !w'.up && w'.s.open == map[] && w'.s.db == w.s.db
            && w'.clock.now == w.clock.now && w'.clock.tracker.sealed == [] && w'.clock.tracker.since.None?
  {
  }

  // ---- The manager's batches are runs -----------------------------------------------------

  function BeatSteps(keys: seq<GameKey>, at: int, failing: set<GameKey>): seq<Step> {
    seq(|keys|, i requires 0 <= i < |keys| => Beat(keys[i], at, keys[i] !in failing))
  }

  function StopSteps(keys: seq<GameKey>, at: int, failing: set<GameKey>): seq<Step> {
    seq(|keys|, i requires 0 <= i < |keys| => Stop(keys[i], at, keys[i] !in failing))
  }

  function RecoverSteps(ids: seq<nat>, failing: set<nat>): seq<Step> {
    seq(|ids|, i requires 0 <= i < |ids| => Recover(ids[i], ids[i] !in failing))
  }

  /** A heartbeat batch is a run of single heartbeats. */
  lemma {:induction false} BeatAllIsRun(w: World, keys: seq<GameKey>, at: int, failing: set<GameKey>)
    requires Idle.Readable(w.clock) && w.up
    ensures var w' := RunFrom(w, BeatSteps(keys, at, failing));
            && w'.s == BeatAll(w.s, keys, at, w.clock, w.grace, failing)
            && w'.up && w'.clock == w.clock && w'.grace == w.grace
  {
    if keys != [] {
      var init := keys[..|keys| - 1];
      BeatAllIsRun(w, init, at, failing);
      assert BeatSteps(keys, at, failing)[..|keys| - 1] == BeatSteps(init, at, failing);
    }
  }

  /** Shutdown is a run of single stops. */
  lemma {:induction false} StopAllIsRun(w: World, keys: seq<GameKey>, at: int, failing: set<GameKey>)
    requires Idle.Readable(w.clock) && w.up
    ensures var w' := RunFrom(w, StopSteps(keys, at, failing));
            && w'.s == StopAll(w.s, keys, at, w.clock, w.grace, failing)
            && w'.up && w'.clock == w.clock && w'.grace == w.grace
  {
    if keys != [] {
      var init := keys[..|keys| - 1];
      StopAllIsRun(w, init, at, failing);
      assert StopSteps(keys, at, failing)[..|keys| - 1] == StopSteps(init, at, failing);
    }
  }

  /** Recovery is a run of single closes, and of nothing else. */
  lemma {:induction false} RecoverAllIsRun(w: World, ids: seq<nat>, failing: set<nat>)
    requires Idle.Readable(w.clock) && !w.up
    ensures RunFrom(w, RecoverSteps(ids, failing)) == w.(s := w.s.(db := RecoverAll(w.s.db, ids, failing)))
  {
    if ids != [] {
      var init := ids[..|ids| - 1];
      RecoverAllIsRun(w, init, failing);
      assert RecoverSteps(ids, failing)[..|ids| - 1] == RecoverSteps(init, failing);
    }
  }

  /** Nothing is tracked and no row is open. */
  ghost predicate JustBooted(w: World) {
    w.up && w.s.open == map[] && NoOpenRow(w.s.db)
  }

  /** Only the end of recovery brings a daemon up. */
  lemma BootLeavesNothingOpen(w: World, step: Step)
    requires Inv(w) && !w.up && Next(w, step).up
    ensures step.Boot? && JustBooted(Next(w, step))
  {
  }

  /** A daemon comes up after its recovery exactly when that closed every open row, and then with
      nothing open; otherwise it stays down. */
  lemma RecoveryBootsIff(w: World, ids: seq<nat>, failing: set<nat>)
    requires Inv(w) && !w.up
    ensures var w' := RunFrom(w, RecoverSteps(ids, failing) + [Boot]);
            && (w'.up <==> forall id :: IsOpen(w.s.db.sessions, id) ==> id in ids && id !in failing)
            && (w'.up ==> JustBooted(w'))
  {
    var recovery := RecoverSteps(ids, failing);
    RunOneMore(w, recovery, Boot);
    RecoverAllIsRun(w, ids, failing);
    RecoverAllLeavesNoneIff(w.s.db, ids, failing);
    RunKeepsInv(w, recovery);
    BootsIffNoneOpen(RunFrom(w, recovery));
  }

  lemma RunOneMore(w: World, steps: seq<Step>, step: Step)
    requires Idle.Readable(w.clock)
    ensures RunFrom(w, steps + [step]) == Next(RunFrom(w, steps), step)
  {
    assert (steps + [step])[..|steps|] == steps;
  }

  lemma BootsIffNoneOpen(w: World)
    requires Inv(w) && !w.up
    ensures Next(w, Boot).up <==> NoOpenRow(w.s.db)
    ensures Next(w, Boot).up ==> JustBooted(Next(w, Boot))
  {
    if Next(w, Boot).up {
      BootLeavesNothingOpen(w, Boot);
    }
  }

  // ---- The open map mirrors the open rows -------------------------------------------------

  ghost predicate OpenRowsTracked(s: State) {
    forall id :: IsOpen(s.db.sessions, id) ==> id in Tracked(s.open)
  }

  /** A stop whose close the database refuses: the entry is gone, the row stays open. */
  ghost predicate CloseFails(w: World, step: Step) {
    w.up && step.Stop? && !step.io && step.key in w.s.open
  }

  lemma CloseFailureUntracks(w: World, step: Step)
    requires Inv(w) && CloseFails(w, step)
    ensures !OpenRowsTracked(Next(w, step).s)
  {
    TrackedWithout(w.s, step.key);
    assert IsOpen(Next(w, step).s.db.sessions, w.s.open[step.key].id);
  }

  lemma StartKeepsTracking(w: World, key: GameKey, at: int, io: StartIo)
    requires Inv(w) && w.up && OpenRowsTracked(w.s)
    ensures OpenRowsTracked(Next(w, Start(key, at, io)).s)
  {
    var s' := AfterStarted(w.s, key in w.blocked, key, at, w.clock, io);
    if key !in w.s.open {
      StartOutcome(w, key, at, io);
      if Opened(w.s, s', key, w.clock) {
        OpenedKeepsEntries(w.s, s', key, w.clock);
        forall id | IsOpen(s'.db.sessions, id)
          ensures id in Tracked(s'.open)
        {
          assert id == w.s.db.nextSession || IsOpen(w.s.db.sessions, id);
        }
      }
    }
  }

  lemma EndedKeepsTracking(s: State, db: Db, key: GameKey, now: nat)
    requires EntriesOpen(s) && OpenRowsTracked(s) && key in s.open
    requires Rewritten(s.db, db, s.open[key], now, true)
    ensures OpenRowsTracked(State(db, s.open - {key}))
  {
    TrackedWithout(s, key);
    forall id | IsOpen(db.sessions, id)
      ensures id in Tracked(s.open - {key})
    {
      assert IsOpen(s.db.sessions, id);
    }
  }

  lemma StopKeepsTracking(w: World, key: GameKey, at: int)
    requires Inv(w) && w.up && OpenRowsTracked(w.s)
    ensures OpenRowsTracked(Next(w, Stop(key, at, true)).s)
  {
    if key in w.s.open {
      var o := w.s.open[key];
      var s' := AfterStopped(w.s, key, at, w.clock, w.grace, true);
      SampleChecked(o, w.clock, w.grace, at);
      CloseRewrites(w.s.db, o, Sample(o, w.clock, w.grace, at), w.clock.now);
      EndedKeepsTracking(w.s, s'.db, key, w.clock.now);
    }
  }

  /** While the daemon is up, a step keeps every open row in the map exactly when it is not a
      failed close: failed finds, inserts, heartbeats and deletes do no harm. */
  lemma TrackingLostIffCloseFails(w: World, step: Step)
    requires Inv(w) && w.up && OpenRowsTracked(w.s) && !step.Crash?
    ensures Next(w, step).up
    ensures OpenRowsTracked(Next(w, step).s) <==> !CloseFails(w, step)
  {
    StaysUp(w, step);
    match step {
      case Start(key, at, io) => StartKeepsTracking(w, key, at, io);
      case Stop(key, at, io) =>
        if io {
          StopKeepsTracking(w, key, at);
        } else if key in w.s.open {
          CloseFailureUntracks(w, step);
        }
      case Beat(key, at, io) => BeatKeepsTracking(w, key, at, io);
      case DeleteRows(ids, io) => SameOpenRows(w.s.db, Next(w, step).s.db, w.s.open);
      case _ =>
    }
  }

  lemma StaysUp(w: World, step: Step)
    requires Idle.Readable(w.clock) && w.up && !step.Crash?
    ensures Next(w, step).up
  {
  }

  lemma BeatKeepsTracking(w: World, key: GameKey, at: int, io: bool)
    requires Inv(w) && w.up && OpenRowsTracked(w.s)
    ensures OpenRowsTracked(Next(w, Beat(key, at, io)).s)
  {
    if key in w.s.open && io {
      HeartbeatEndsNone(w.s.db, w.s.open[key].id, Sample(w.s.open[key], w.clock, w.grace, at));
      SameOpenRows(w.s.db, AfterBeat(w.s, key, at, w.clock, w.grace, io).db, w.s.open);
    }
  }

  lemma HeartbeatEndsNone(db: Db, id: nat, snap: Snapshot)
    ensures var db' := AfterHeartbeat(db, id, snap);
            forall i :: i in db'.sessions ==> i in db.sessions && db'.sessions[i].endedAt == db.sessions[i].endedAt
  {
  }

  lemma SameOpenRows(db: Db, db': Db, open: map<GameKey, OpenSession>)
    requires OpenRowsTracked(State(db, open))
    requires forall id :: id in db'.sessions ==> id in db.sessions && db'.sessions[id].endedAt == db.sessions[id].endedAt
    ensures OpenRowsTracked(State(db', open))
  {
    forall id | IsOpen(db'.sessions, id)
      ensures id in Tracked(open)
    {
      assert IsOpen(db.sessions, id);
    }
  }

  /** A close has failed since recovery last finished. */
  ghost predicate CloseFailedSinceBoot(steps: seq<Step>) {
    && steps != [] && !steps[|steps| - 1].Crash?
    && var init := steps[..|steps| - 1];
       CloseFails(After(init), steps[|steps| - 1]) || CloseFailedSinceBoot(init)
  }

  lemma LastStep(steps: seq<Step>)
    requires steps != []
    ensures After(steps) == Next(After(steps[..|steps| - 1]), steps[|steps| - 1])
  {
  }

  /** One step: what is tracked depends on what was tracked and on whether a close failed. */
  lemma NextTracks(w: World, step: Step)
    requires Inv(w) && Next(w, step).up
    ensures OpenRowsTracked(Next(w, step).s) <==> !CloseFails(w, step) && (w.up ==> OpenRowsTracked(w.s))
  {
    if !w.up {
      assert step.Boot?;
    } else if OpenRowsTracked(w.s) {
      TrackingLostIffCloseFails(w, step);
    } else {
      var id: nat :| IsOpen(w.s.db.sessions, id) && id !in Tracked(w.s.open);
      UntrackedUntilRecovered(w, step, id);
    }
  }

  lemma {:induction false} DownHasNoFailedClose(steps: seq<Step>)
    requires !After(steps).up
    ensures !CloseFailedSinceBoot(steps)
  {
    if steps != [] && !steps[|steps| - 1].Crash? {
      var init := steps[..|steps| - 1];
      LastStep(steps);
      if After(init).up {
        StaysUp(After(init), steps[|steps| - 1]);
      } else {
        DownHasNoFailedClose(init);
      }
    }
  }

  /** In every run, while the daemon is up, each open row is tracked exactly when no close has
      failed since recovery last finished: a crash and a recovery make good for the failure. */
  lemma {:induction false} TrackedIffNoCloseFailedSinceBoot(steps: seq<Step>)
    requires After(steps).up
    ensures OpenRowsTracked(After(steps).s) <==> !CloseFailedSinceBoot(steps)
  {
    if steps != [] {
      var init, last := steps[..|steps| - 1], steps[|steps| - 1];
      EveryRunKeepsInv(init);
      LastStep(steps);
      NextTracks(After(init), last);
      if After(init).up {
        TrackedIffNoCloseFailedSinceBoot(init);
      } else {
        DownHasNoFailedClose(init);
      }
    }
  }

  // ---- A row nobody tracks ----------------------------------------------------------------

  ghost predicate Untracked(w: World, id: nat) {
    IsOpen(w.s.db.sessions, id) && id !in Tracked(w.s.open)
  }

  /** It stays open and untracked through every step, crashes included, until it is recovered. */
  lemma UntrackedUntilRecovered(w: World, step: Step, id: nat)
    requires Inv(w) && Untracked(w, id)
    ensures Untracked(Next(w, step), id) <==> w.up || step != Recover(id, true)
  {
    match step {
      case Start(key, at, io) => StartKeepsUntracked(w, key, at, io, id);
      case Stop(key, at, io) => StopKeepsUntracked(w, key, at, io, id);
      case Beat(key, at, io) => BeatKeepsUntracked(w, key, at, io, id);
      case Recover(other, io) => RecoverUntracks(w, other, io, id);
      case DeleteRows(ids, io) => DeleteKeepsUntracked(w, ids, io, id);
      case MergeApps(src, dst, io) => MergeKeepsUntracked(w, src, dst, io, id);
      case _ => OthersKeepUntracked(w, step, id);
    }
  }

  lemma OthersKeepUntracked(w: World, step: Step, id: nat)
    requires Inv(w) && Untracked(w, id)
    requires step.Pass? || step.IdleEdge? || step.SetGrace? || step.SetBlocked? || step.Crash? || step.Boot?
    ensures Untracked(Next(w, step), id)
  {
  }

  lemma DeleteKeepsUntracked(w: World, ids: seq<nat>, io: bool, id: nat)
    requires Inv(w) && Untracked(w, id)
    ensures Untracked(Next(w, DeleteRows(ids, io)), id)
  {
    assert id in ids ==> NamesOpenRow(w.s.db, ids);
  }

  lemma MergeKeepsUntracked(w: World, src: nat, dst: nat, io: bool, id: nat)
    requires Inv(w) && Untracked(w, id)
    ensures Untracked(Next(w, MergeApps(src, dst, io)), id)
  {
  }

  lemma StartKeepsUntracked(w: World, key: GameKey, at: int, io: StartIo, id: nat)
    requires Inv(w) && Untracked(w, id)
    ensures Untracked(Next(w, Start(key, at, io)), id)
  {
    if w.up && key !in w.s.open {
      var s' := AfterStarted(w.s, key in w.blocked, key, at, w.clock, io);
      StartOutcome(w, key, at, io);
      if Opened(w.s, s', key, w.clock) {
        OpenedKeepsUntracked(w, s', key, id);
      }
    }
  }

  lemma OpenedKeepsUntracked(w: World, s': State, key: GameKey, id: nat)
    requires EntriesOpen(w.s) && Opened(w.s, s', key, w.clock) && Untracked(w, id)
    ensures IsOpen(s'.db.sessions, id) && id !in Tracked(s'.open)
  {
    OpenedKeepsEntries(w.s, s', key, w.clock);
  }

  lemma StopKeepsUntracked(w: World, key: GameKey, at: int, io: bool, id: nat)
    requires Inv(w) && Untracked(w, id)
    ensures Untracked(Next(w, Stop(key, at, io)), id)
  {
    if w.up && key in w.s.open {
      TrackedWithout(w.s, key);
      assert w.s.open[key].id in Tracked(w.s.open);
    }
  }

  lemma BeatKeepsUntracked(w: World, key: GameKey, at: int, io: bool, id: nat)
    requires Inv(w) && Untracked(w, id)
    ensures Untracked(Next(w, Beat(key, at, io)), id)
  {
    if w.up && key in w.s.open {
      assert w.s.open[key].id in Tracked(w.s.open);
    }
  }

  lemma RecoverUntracks(w: World, other: nat, io: bool, id: nat)
    requires Inv(w) && Untracked(w, id)
    ensures Untracked(Next(w, Recover(other, io)), id) <==> w.up || other != id || !io
  {
  }

  /** The map and the open rows correspond one to one, agreeing on session, application and key. */
  ghost predicate Mirrors(s: State) {
    && (forall k :: k in s.open ==>
          && IsOpen(s.db.sessions, s.open[k].id)
          && s.db.sessions[s.open[k].id].app == s.open[k].app
          && s.open[k].app in s.db.apps && s.db.apps[s.open[k].app].key == k)
    && (forall id :: IsOpen(s.db.sessions, id) ==> exists k :: k in s.open && s.open[k].id == id)
    && (forall k1, k2 :: k1 in s.open && k2 in s.open && s.open[k1].id == s.open[k2].id ==> k1 == k2)
  }

  /** They do in a run, while the daemon is up, if and only if no close has failed since recovery
      last finished. */
  lemma OpenMapMirrorsOpenRows(steps: seq<Step>)
    requires After(steps).up
    ensures Mirrors(After(steps).s) <==> !CloseFailedSinceBoot(steps)
  {
    TrackedIffNoCloseFailedSinceBoot(steps);
    EveryRunKeepsInv(steps);
    TrackedMirrors(After(steps).s);
  }

  lemma TrackedMirrors(s: State)
    requires EntriesOpen(s)
    ensures Mirrors(s) <==> OpenRowsTracked(s)
  {
    forall k1, k2 | k1 in s.open && k2 in s.open && s.open[k1].id == s.open[k2].id
      ensures k1 == k2
    {
      EntriesDistinct(s, k1, k2);
    }
    forall id | IsOpen(s.db.sessions, id)
      ensures id in Tracked(s.open) <==> exists k :: k in s.open && s.open[k].id == id
    {
    }
  }

  /** Whatever fails, each map entry still names its own open row. */
  lemma EntriesNameOpenRows(steps: seq<Step>)
    ensures EntriesOpen(After(steps).s)
  {
    EveryRunKeepsInv(steps);
  }

  /** The application a start of `key` finds has an open row. */
  ghost predicate MeetsOpenRow(db: Db, key: GameKey) {
    var found := FindByKey(db.apps, key, db.nextApp);
    found.Some? && HasOpenRow(db.sessions, found.value)
  }

  /** A start of `key` gets past the map and then meets an open row. */
  ghost predicate Collides(s: State, key: GameKey) {
    key !in s.open && MeetsOpenRow(s.db, key)
  }

  /** `OpenSessionExists` can be returned to the manager, in any run, exactly when a close has
      failed since recovery last finished. */
  lemma OpenSessionExistsReachableIff(steps: seq<Step>)
    requires After(steps).up
    ensures (exists key :: Collides(After(steps).s, key)) <==> CloseFailedSinceBoot(steps)
  {
    TrackedIffNoCloseFailedSinceBoot(steps);
    EveryRunKeepsInv(steps);
    CollidesIffUntracked(After(steps));
  }

  lemma CollidesIffUntracked(w: World)
    requires Inv(w)
    ensures (exists key :: Collides(w.s, key)) <==> !OpenRowsTracked(w.s)
  {
    if OpenRowsTracked(w.s) {
      forall key | key !in w.s.open
        ensures !Collides(w.s, key)
      {
        UntrackedKeyHasNoOpenRow(w.s, key);
      }
    } else {
      var id: nat :| IsOpen(w.s.db.sessions, id) && id !in Tracked(w.s.open);
      OpenRowDropsStarts(w, id);
      assert Collides(w.s, w.s.db.apps[w.s.db.sessions[id].app].key);
    }
  }

  lemma UntrackedKeyHasNoOpenRow(s: State, key: GameKey)
    requires EntriesOpen(s) && OpenRowsTracked(s) && key !in s.open
    ensures forall app :: app in s.db.apps && s.db.apps[app].key == key ==> !HasOpenRow(s.db.sessions, app)
  {
    forall id | IsOpen(s.db.sessions, id)
      ensures s.db.sessions[id].app in s.db.apps && s.db.apps[s.db.sessions[id].app].key != key
    {
      assert id in Tracked(s.open);
      var k :| k in s.open && s.open[k].id == id;
      assert s.db.apps[s.open[k].app].key == k;
    }
  }

  /** Every start of the game of an open row meets that row and is dropped; it gets past the map
      exactly when the row is untracked. */
  lemma OpenRowDropsStarts(w: World, id: nat)
    requires Inv(w) && IsOpen(w.s.db.sessions, id)
    ensures var key := w.s.db.apps[w.s.db.sessions[id].app].key;
            && MeetsOpenRow(w.s.db, key)
            && (key !in w.s.open <==> Untracked(w, id))
            && forall at, io :: AfterStarted(w.s, key in w.blocked, key, at, w.clock, io) == w.s
  {
    var app := w.s.db.sessions[id].app;
    var key := w.s.db.apps[app].key;
    assert HasOpenRow(w.s.db.sessions, app);
    assert FindByKey(w.s.db.apps, key, w.s.db.nextApp) == Some(app);
    if id in Tracked(w.s.open) {
      var k :| k in w.s.open && w.s.open[k].id == id;
      assert w.s.db.apps[w.s.open[k].app].key == k;
    }
    if key in w.s.open {
      assert IsOpen(w.s.db.sessions, w.s.open[key].id);
      assert w.s.open[key].id == id;
    }
  }

  /** It happens: one game starts, its close fails, and its next start is lost. */
  lemma FailedCloseLosesNextStart(key: GameKey)
    ensures var start := Start(key, 0, StartIo(true, true, true));
            var lost := [Boot, start, Stop(key, 0, false)];
            && After(lost).up && CloseFailedSinceBoot(lost) && Collides(After(lost).s, key)
            && After(lost + [start]) == After(lost)
  {
    var start := Start(key, 0, StartIo(true, true, true));
    var up, open, lost := [Boot], [Boot, start], [Boot, start, Stop(key, 0, false)];
    assert up[..0] == [] && open[..1] == up && lost[..2] == open && (lost + [start])[..3] == lost;
    assert After([]) == INIT;
    assert After(up) == INIT.(up := true);
    var created := AfterCreate(EMPTY, key, 0);
    assert FindByKey(EMPTY.apps, key, EMPTY.nextApp) == None;
    assert !HasOpenRow(created.sessions, 1);
    assert key in After(open).s.open;
    EveryRunKeepsInv(lost);
    LastStep(lost);
    var id := After(open).s.open[key].id;
    EveryRunKeepsInv(open);
    assert IsOpen(After(lost).s.db.sessions, id);
    OpenRowDropsStarts(After(lost), id);
    LastStep(lost + [start]);
  }

  // ---- Crash safety -----------------------------------------------------------------------

  /** True elapsed seconds of a session the daemon has stopped observing. */
  ghost function TrueSeconds(w: World, id: nat): nat
    requires id in w.born && id in w.gone && w.born[id] <= w.gone[id]
  {
    Idle.SecondsBetween(w.born[id], w.gone[id])
  }

  /** Time passes only while every open session was written within the last heartbeat interval. */
  ghost predicate OnPace(w: World, step: Step) {
    step.Pass? ==>
      forall k :: k in w.s.open && w.s.open[k].id in w.sampled ==>
        w.clock.now + step.ns <= w.sampled[w.s.open[k].id] + HEARTBEAT_SECONDS * Idle.NANOS
  }

  ghost predicate RunOnPace(steps: seq<Step>) {
    steps != [] ==>
      RunOnPace(steps[..|steps| - 1]) && OnPace(After(steps[..|steps| - 1]), steps[|steps| - 1])
  }

  ghost predicate WithinInterval(w: World, id: nat)
    requires id in w.sampled
  {
    (if id in w.gone then w.gone[id] else w.clock.now) <= w.sampled[id] + HEARTBEAT_SECONDS * Idle.NANOS
  }

  /** A step leaves the time stamps of a session alone or sets them to the present. */
  lemma StartStamps(w: World, key: GameKey, at: int, io: StartIo)
    requires Inv(w)
    ensures var w' := Next(w, Start(key, at, io));
            && w'.gone == w.gone && w'.clock == w.clock
            && (w'.sampled == w.sampled || w'.sampled == w.sampled[w.s.db.nextSession := w.clock.now])
            && (w'.s.db.sessions.Keys <= w.s.db.sessions.Keys + {w.s.db.nextSession})
            && (w.s.db.nextSession in w'.s.db.sessions ==> w'.sampled == w.sampled[w.s.db.nextSession := w.clock.now])
  {
    var s' := AfterStarted(w.s, key in w.blocked, key, at, w.clock, io);
    if w.up && key !in w.s.open {
      StartOutcome(w, key, at, io);
      if Opened(w.s, s', key, w.clock) {
        OpenedKeepsEntries(w.s, s', key, w.clock);
      }
    }
  }

  lemma NoNewRows(w: World, step: Step)
    requires Idle.Readable(w.clock) && !step.Start?
    ensures Next(w, step).s.db.sessions.Keys <= w.s.db.sessions.Keys
  {
  }

  lemma NextWithinInterval(w: World, step: Step, id: nat)
    requires Inv(w) && OnPace(w, step)
    requires forall i :: i in w.s.db.sessions && i in w.sampled ==> WithinInterval(w, i)
    requires id in Next(w, step).s.db.sessions
    ensures id in Next(w, step).sampled && WithinInterval(Next(w, step), id)
  {
    if step.Start? {
      StartWithinInterval(w, step, id);
    } else {
      NoNewRows(w, step);
      OldRowWithinInterval(w, step, id);
    }
  }

  lemma StartWithinInterval(w: World, step: Step, id: nat)
    requires Inv(w) && step.Start? && id in Next(w, step).s.db.sessions
    requires forall i :: i in w.s.db.sessions && i in w.sampled ==> WithinInterval(w, i)
    ensures id in Next(w, step).sampled && WithinInterval(Next(w, step), id)
  {
    StartStamps(w, step.key, step.at, step.start);
    if id != w.s.db.nextSession {
      assert Truthful(w, id);
    }
  }

  lemma OldRowWithinInterval(w: World, step: Step, id: nat)
    requires Idle.Readable(w.clock) && OnPace(w, step) && !step.Start?
    requires id in w.s.db.sessions && Truthful(w, id) && WithinInterval(w, id)
    ensures id in Next(w, step).sampled && WithinInterval(Next(w, step), id)
  {
    if step.Pass? && id in Tracked(w.s.open) {
      var k :| k in w.s.open && w.s.open[k].id == id;
    }
  }

  ghost predicate AllWithinInterval(w: World) {
    forall id :: id in w.s.db.sessions && id in w.sampled ==> WithinInterval(w, id)
  }

  lemma NextAllWithinInterval(w: World, step: Step)
    requires Inv(w) && OnPace(w, step) && AllWithinInterval(w)
    ensures AllWithinInterval(Next(w, step))
  {
    forall id | id in Next(w, step).s.db.sessions && id in Next(w, step).sampled
      ensures WithinInterval(Next(w, step), id)
    {
      NextWithinInterval(w, step, id);
    }
  }

  lemma {:induction false} RunWithinInterval(steps: seq<Step>)
    requires RunOnPace(steps)
    ensures AllWithinInterval(After(steps))
  {
    if steps != [] {
      var init := steps[..|steps| - 1];
      RunWithinInterval(init);
      EveryRunKeepsInv(init);
      LastStep(steps);
      NextAllWithinInterval(After(init), steps[|steps| - 1]);
    }
  }

  lemma FloorShortfall(a: nat, b: nat)
    requires a <= b <= a + HEARTBEAT_SECONDS * Idle.NANOS
    ensures a / Idle.NANOS <= b / Idle.NANOS <= a / Idle.NANOS + HEARTBEAT_SECONDS
  {
  }

  /** Over any run, with crashes anywhere and any operation failing: every session begun and
      not deleted still has its row; a closed one never claims more than its true elapsed
      seconds; and with heartbeats on pace it claims at most 60 seconds less. */
  lemma CrashLosesAtMostOneInterval(steps: seq<Step>, id: nat)
    ensures var w := After(steps);
            && (id in w.born && id !in w.deleted <==> id in w.s.db.sessions)
            && (IsClosed(w.s.db.sessions, id) ==>
                  && id in w.born && id in w.gone && w.born[id] <= w.gone[id]
                  && w.s.db.sessions[id].full <= TrueSeconds(w, id)
                  && (RunOnPace(steps) ==> TrueSeconds(w, id) <= w.s.db.sessions[id].full + HEARTBEAT_SECONDS))
  {
    var w := After(steps);
    EveryRunKeepsInv(steps);
    if IsClosed(w.s.db.sessions, id) {
      assert Truthful(w, id);
      FloorsMonotone(w.sampled[id] - w.born[id], w.gone[id] - w.born[id]);
      if RunOnPace(steps) {
        RunWithinInterval(steps);
        assert WithinInterval(w, id);
        FloorShortfall(w.sampled[id] - w.born[id], w.gone[id] - w.born[id]);
      }
    }
  }

  lemma FloorsMonotone(a: nat, b: nat)
    requires a <= b
    ensures a / Idle.NANOS <= b / Idle.NANOS
  {
  }

  /** Each session is counted exactly once: once nothing is open, as after recovery, the run
      counts of all applications add up to the sessions begun and not deleted. */
  lemma EachSessionCountedOnce(steps: seq<Step>)
    requires NoOpenRow(After(steps).s.db)
    ensures var w := After(steps);
            Totals(w.s.db.apps, w.s.db.nextApp).runs == |w.born.Keys - w.deleted|
  {
    var w := After(steps);
    EveryRunKeepsInv(steps);
    EachClosedRowCountedOnce(w.s.db);
    forall id | id in w.s.db.sessions
      ensures IsClosed(w.s.db.sessions, id)
    {
      assert !IsOpen(w.s.db.sessions, id);
    }
    assert AllClosedIds(w.s.db.sessions, w.s.db.nextSession) == w.s.db.sessions.Keys;
  }

  /** Whatever happens, the cached statistics are the recomputed ones. */
  lemma LedgerStaysSound(steps: seq<Step>)
    ensures Sound(After(steps).s.db) && StatsDescribeRows(After(steps).s.db)
  {
    EveryRunKeepsInv(steps);
    CachedStatsDescribeRows(After(steps).s.db);
  }
}
