/** The session manager: what each event, heartbeat and recovery does to the in-memory map of
    open sessions and to the database, and the object that carries it out. */
module SessionManager {
  import opened Types
  import opened Ledger
  import Idle

  /** In-memory record of a session the manager has opened. */
  datatype OpenSession = OpenSession(id: nat, app: nat, baseline: Idle.Baseline, started: nat)

  datatype State = State(db: Db, open: map<GameKey, OpenSession>)

  /** Which of the statements a start issues are carried out by the database. */
  datatype StartIo = StartIo(find: bool, create: bool, begin: bool)

  function FullRuntime(o: OpenSession, now: nat): nat {
    if o.started <= now then Idle.SecondsBetween(o.started, now) else 0
  }

  function Sample(o: OpenSession, clock: Idle.Timeline, grace: nat, at: int): Snapshot
    requires Idle.Readable(clock)
  {
    var full := FullRuntime(o, clock.now);
    Snapshot(full, Idle.Interactive(full, Idle.Billable(clock, o.baseline, grace)), at)
  }

  /** `begin` and the insertion into the map, for an application that exists. */
  ghost function AfterOpening(s: State, app: nat, key: GameKey, at: int, clock: Idle.Timeline, io: bool): State
    requires Idle.Readable(clock)
  {
    if !io || app !in s.db.apps || HasOpenRow(s.db.sessions, app) then s
    else State(AfterBegin(s.db, app, at),
               s.open[key := OpenSession(s.db.nextSession, app, Idle.BaselineOf(clock), clock.now)])
  }

  ghost function AfterStarted(s: State, blocked: bool, key: GameKey, at: int, clock: Idle.Timeline, io: StartIo): State
    requires Idle.Readable(clock)
  {
    if blocked || key in s.open || !io.find then s
    else
      match FindByKey(s.db.apps, key, s.db.nextApp)
      case Some(app) => AfterOpening(s, app, key, at, clock, io.begin)
      case None =>
        if !io.create then s
        else AfterOpening(s.(db := AfterCreate(s.db, key, at)), s.db.nextApp, key, at, clock, io.begin)
  }

  function AfterStopped(s: State, key: GameKey, at: int, clock: Idle.Timeline, grace: nat, io: bool): State
    requires Idle.Readable(clock)
  {
    if key !in s.open then s
    else
      var o := s.open[key];
      State(if io then AfterClose(s.db, o.id, o.app, Sample(o, clock, grace, at), Terminated) else s.db,
            s.open - {key})
  }

  function AfterBeat(s: State, key: GameKey, at: int, clock: Idle.Timeline, grace: nat, io: bool): State
    requires Idle.Readable(clock)
  {
    if key !in s.open || !io then s
    else s.(db := AfterHeartbeat(s.db, s.open[key].id, Sample(s.open[key], clock, grace, at)))
  }

  /** Closes orphan `id` with the runtimes of its last heartbeat. */
  function AfterRecovering(db: Db, id: nat, io: bool): Db {
    if !io || id !in db.sessions then db
    else
      var r := db.sessions[id];
      AfterClose(db, id, r.app, Snapshot(r.full, r.interactive, r.heartbeatAt), Recovered)
  }

  // ---- Batches: the same step for several sessions at one instant -------------------------

  function BeatAll(s: State, keys: seq<GameKey>, at: int, clock: Idle.Timeline, grace: nat, failing: set<GameKey>): State
    requires Idle.Readable(clock)
  {
    if keys == [] then s
    else
      var last := keys[|keys| - 1];
      AfterBeat(BeatAll(s, keys[..|keys| - 1], at, clock, grace, failing), last, at, clock, grace, last !in failing)
  }

  function StopAll(s: State, keys: seq<GameKey>, at: int, clock: Idle.Timeline, grace: nat, failing: set<GameKey>): State
    requires Idle.Readable(clock)
  {
    if keys == [] then s
    else
      var last := keys[|keys| - 1];
      AfterStopped(StopAll(s, keys[..|keys| - 1], at, clock, grace, failing), last, at, clock, grace, last !in failing)
  }

  function RecoverAll(db: Db, ids: seq<nat>, failing: set<nat>): Db {
    if ids == [] then db
    else AfterRecovering(RecoverAll(db, ids[..|ids| - 1], failing), ids[|ids| - 1], ids[|ids| - 1] !in failing)
  }

  lemma {:induction false} BeatAllKeepsOpen(s: State, keys: seq<GameKey>, at: int, clock: Idle.Timeline, grace: nat,
                                            failing: set<GameKey>)
    requires Idle.Readable(clock)
    ensures BeatAll(s, keys, at, clock, grace, failing).open == s.open
  {
    if keys != [] {
      BeatAllKeepsOpen(s, keys[..|keys| - 1], at, clock, grace, failing);
    }
  }

  lemma {:induction false} StopAllEmpties(s: State, keys: seq<GameKey>, at: int, clock: Idle.Timeline, grace: nat,
                                          failing: set<GameKey>)
    requires Idle.Readable(clock)
    ensures StopAll(s, keys, at, clock, grace, failing).open == s.open - (set k | k in keys)
  {
    if keys != [] {
      StopAllEmpties(s, keys[..|keys| - 1], at, clock, grace, failing);
    }
  }

  /** A recovered row ends at its last heartbeat with the runtimes it had then; other rows stay. */
  lemma {:induction false} RecoverAllCloses(db: Db, ids: seq<nat>, failing: set<nat>)
    requires Schema(db)
    ensures RecoverAll(db, ids, failing).sessions.Keys == db.sessions.Keys
    ensures forall id :: id in db.sessions ==>
              var row := db.sessions[id];
              RecoverAll(db, ids, failing).sessions[id]
              == if row.endedAt.None? && id in ids && id !in failing
                 then row.(endedAt := Some(row.heartbeatAt), exit := Some(Recovered))
                 else row
  {
    if ids != [] {
      RecoverAllCloses(db, ids[..|ids| - 1], failing);
    }
  }

  /** Recovery leaves a row open exactly when it is not listed or its close fails. */
  lemma {:induction false} RecoverAllLeavesNoneIff(db: Db, ids: seq<nat>, failing: set<nat>)
    requires Schema(db)
    ensures NoOpenRow(RecoverAll(db, ids, failing))
            <==> forall id :: IsOpen(db.sessions, id) ==> id in ids && id !in failing
  {
    var db' := RecoverAll(db, ids, failing);
    RecoverAllCloses(db, ids, failing);
    if NoOpenRow(db') {
      forall id | IsOpen(db.sessions, id)
        ensures id in ids && id !in failing
      {
        assert !IsOpen(db'.sessions, id);
      }
    }
  }

  lemma {:induction false} RecoverAllSnoc(db: Db, ids: seq<nat>, id: nat, failing: set<nat>)
    ensures RecoverAll(db, ids + [id], failing)
            == AfterRecovering(RecoverAll(db, ids, failing), id, id !in failing)
  {
    assert (ids + [id])[..|ids|] == ids;
  }

  // ---- The object -------------------------------------------------------------------------

  class Manager {
    const db: Database
    const idle: Idle.IdleTracker
    var open: map<GameKey, OpenSession>
    var blocked: set<GameKey>
    var grace: nat

    ghost function View(): State
      reads this, db
    {
      State(db.Value(), open)
    }

    /** The clock reads `now`, no earlier than the tracker's last edge. */
    ghost predicate Sampling(now: nat)
      reads this, idle
    {
      && idle.Valid() && idle.Moment().now <= now <= Idle.CLOCK_LIMIT
      && (forall k :: k in open ==> open[k].baseline.open >= 0)
    }

    constructor (db: Database, idle: Idle.IdleTracker, blocked: set<GameKey>, grace: nat)
      ensures View() == State(db.Value(), map[]) && this.db == db && this.idle == idle
      ensures this.blocked == blocked && this.grace == grace
    {
      this.db, this.idle := db, idle;
      open := map[];
      this.blocked, this.grace := blocked, grace;
    }

    method RuntimesFor(o: OpenSession, now: nat, at: int) returns (s: Snapshot)
      requires Sampling(now) && o.baseline.open >= 0
      ensures Idle.Readable(idle.At(now)) && s == Sample(o, idle.At(now), grace, at)
    {
      var full := 0;
      if o.started <= now {
        full := Idle.SecondsBetween(o.started, now);
      }
      var billed := idle.BillableIdleSecondsSince(o.baseline, grace, now);
      s := Snapshot(full, Idle.Interactive(full, billed), at);
    }

    method RecoverOrphans(listed: bool, failing: set<nat>) returns (r: Result<nat>, ghost ids: seq<nat>)
      requires Schema(db.Value())
      modifies db
      ensures open == old(open)
      ensures db.Value() == RecoverAll(old(db.Value()), ids, failing)
      ensures forall id :: id in ids ==> IsOpen(old(db.sessions), id)
      ensures r.Ok? ==> (forall id :: IsOpen(old(db.sessions), id) ==> id in ids && id !in failing) && r.value == |ids|
      ensures r.Ok? ==> NoOpenRow(db.Value())
      ensures r.Err? ==> !listed || exists id :: id in ids && id in failing
    {
      ids := [];
      if !listed {
        return Err(Sql), ids;
      }
      var before := db.sessions;
      var todo := set id | id in db.sessions && IsOpen(db.sessions, id);
      var count := |todo|;
      while todo != {}
        invariant open == old(open)
        invariant db.Value() == RecoverAll(old(db.Value()), ids, failing)
        invariant forall id :: IsOpen(before, id) ==> id in todo || (id in ids && id !in failing)
        invariant forall id :: id in todo ==> id in db.sessions && db.sessions[id] == before[id] && id !in ids
        invariant todo <= before.Keys
        invariant forall id :: id in ids ==> IsOpen(before, id)
        invariant |ids| + |todo| == count
        decreases todo
      {
        var id :| id in todo;
        var orphan := before[id];
        ghost var was := ids;
        var closed := db.CloseAndRollup(id, orphan.app, Snapshot(orphan.full, orphan.interactive, orphan.heartbeatAt),
                                        Recovered, id !in failing);
        ids := was + [id];
        RecoverAllSnoc(old(db.Value()), was, id, failing);
        todo := todo - {id};
        if closed.Err? {
          return Err(Sql), ids;
        }
      }
      RecoverAllLeavesNoneIff(old(db.Value()), ids, failing);
      r := Ok(count);
    }

    method HandleStarted(key: GameKey, at: int, now: nat, io: StartIo) returns (r: Result<()>)
      requires Sampling(now)
      modifies this`open, db
      ensures Idle.Readable(idle.At(now))
      ensures View() == AfterStarted(old(View()), key in blocked, key, at, idle.At(now), io)
      ensures Sampling(now)
    {
      if key in blocked {
        return Ok(());
      }
      if key in open {
        return Ok(());
      }
      var found := db.FindApplication(key, io.find);
      if found.Err? {
        return Err(found.error);
      }
      var app := 0;
      if found.value.Some? {
        app := found.value.value;
      } else {
        var created := db.CreateApplication(key, at, io.create);
        if created.Err? {
          return Err(created.error);
        }
        app := created.value;
      }
      var begun := db.BeginSession(app, at, io.begin);
      if begun.Err? {
        if begun.error.OpenSessionExists? {
          return Ok(());
        }
        return Err(begun.error);
      }
      var baseline := idle.SessionStartBaseline(now);
      open := open[key := OpenSession(begun.value, app, baseline, now)];
      r := Ok(());
    }

    method HandleStopped(key: GameKey, at: int, now: nat, io: bool) returns (r: Result<()>)
      requires Sampling(now)
      modifies this`open, db
      ensures Idle.Readable(idle.At(now)) && Sampling(now)
      ensures View() == AfterStopped(old(View()), key, at, idle.At(now), grace, io)
    {
      if key !in open {
        return Ok(());
      }
      var o := open[key];
      open := open - {key};
      r := CloseSession(o, at, now, Terminated, io);
    }

    method CloseSession(o: OpenSession, at: int, now: nat, reason: ExitReason, io: bool) returns (r: Result<()>)
      requires Sampling(now) && o.baseline.open >= 0
      modifies db
      ensures Idle.Readable(idle.At(now)) && Sampling(now) && open == old(open)
      ensures db.Value() == if io then AfterClose(old(db.Value()), o.id, o.app, Sample(o, idle.At(now), grace, at), reason)
                            else old(db.Value())
    {
      var s := RuntimesFor(o, now, at);
      r := db.CloseAndRollup(o.id, o.app, s, reason, io);
    }

    /** Sessions are visited in no particular order; the first failure ends the batch. */
    method HeartbeatOpenSessions(at: int, now: nat, failing: set<GameKey>)
      returns (r: Result<()>, ghost beaten: seq<GameKey>)
      requires Sampling(now)
      modifies db
      ensures Idle.Readable(idle.At(now)) && Sampling(now)
      ensures View() == BeatAll(old(View()), beaten, at, idle.At(now), grace, failing)
      ensures forall k :: k in beaten ==> k in open
      ensures r.Ok? ==> forall k :: k in open ==> k in beaten
      ensures forall i :: 0 <= i < |beaten| - 1 ==> beaten[i] !in failing
    {
      beaten := [];
      var todo := open.Keys;
      while todo != {}
        invariant todo <= open.Keys && open == old(open) && Sampling(now)
        invariant View() == BeatAll(old(View()), beaten, at, idle.At(now), grace, failing)
        invariant forall k :: k in beaten ==> k in open && k !in failing
        invariant forall k :: k in open ==> k in todo || k in beaten
        decreases todo
      {
        var k :| k in todo;
        todo := todo - {k};
        var s := RuntimesFor(open[k], now, at);
        var beat := db.HeartbeatSession(open[k].id, s, k !in failing);
        ghost var was := beaten;
        BeatAllKeepsOpen(old(View()), was, at, idle.At(now), grace, failing);
        beaten := beaten + [k];
        assert beaten[..|beaten| - 1] == was;
        if beat.Err? {
          return beat, beaten;
        }
      }
      r := Ok(());
    }

    /** Shutdown: a session that cannot be closed is left for the next start to recover. */
    method CloseAllOpen(at: int, now: nat, failing: set<GameKey>) returns (ghost closed: seq<GameKey>)
      requires Sampling(now)
      modifies this`open, db
      ensures Idle.Readable(idle.At(now)) && Sampling(now)
      ensures View() == StopAll(old(View()), closed, at, idle.At(now), grace, failing)
      ensures open == map[] && forall k :: k in closed <==> k in old(open)
    {
      closed := [];
      var drained := open;
      open := map[];
      var todo := drained.Keys;
      while todo != {}
        invariant todo <= drained.Keys && open == map[] && Sampling(now)
        invariant db.Value() == StopAll(old(View()), closed, at, idle.At(now), grace, failing).db
        invariant forall k :: k in drained <==> k in todo || k in closed
        invariant forall k :: k in todo ==> k !in closed
        decreases todo
      {
        var k :| k in todo;
        todo := todo - {k};
        StopAllEmpties(old(View()), closed, at, idle.At(now), grace, failing);
        var r := CloseSession(drained[k], at, now, Terminated, k !in failing);
        ghost var was := closed;
        closed := closed + [k];
        assert closed[..|closed| - 1] == was;
      }
      StopAllEmpties(old(View()), closed, at, idle.At(now), grace, failing);
    }
  }
}
