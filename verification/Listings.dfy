/** What the daemon leaves for an application to list: sessions that follow one another, so that
    deleting a displayed span never changes another. */
module Listings {
  import opened Types
  import opened Ledger
  import opened SessionManager
  import opened DaemonRuns
  import DisplayFold
  import Idle

  /** The wall-clock time a step carries. */
  function AtOf(step: Step): Option<int> {
    match step
    case Start(_, at, _) => Some(at)
    case Stop(_, at, _) => Some(at)
    case Beat(_, at, _) => Some(at)
    case _ => None
  }

  /** The wall clock does not step back, and two starts of one game do not share an instant. */
  predicate InOrder(a: Step, b: Step) {
    AtOf(a).Some? && AtOf(b).Some? ==>
      && AtOf(a).value <= AtOf(b).value
      && (a.Start? && b.Start? && a.key == b.key ==> a.at < b.at)
  }

  ghost predicate Chronological(steps: seq<Step>) {
    forall i, j :: 0 <= i < j < |steps| ==> InOrder(steps[i], steps[j])
  }

  ghost predicate NoMerges(steps: seq<Step>) {
    forall i :: 0 <= i < |steps| ==> !steps[i].MergeApps?
  }

  ghost predicate AllBy(steps: seq<Step>, t: int) {
    forall i :: 0 <= i < |steps| && AtOf(steps[i]).Some? ==> AtOf(steps[i]).value <= t
  }

  // ---- The invariant ----------------------------------------------------------------------

  ghost predicate RowTimes(r: Row, t: int) {
    r.startedAt <= r.heartbeatAt <= t && (r.endedAt.Some? ==> r.startedAt <= r.endedAt.value <= t)
  }

  ghost predicate Precedes(r: Row, later: Row) {
    r.endedAt.Some? && r.endedAt.value <= later.startedAt && r.startedAt < later.startedAt
  }

  /** Sessions of one application follow one another in the order of their ids. */
  ghost predicate InSuccession(rows: map<nat, Row>) {
    forall i, j :: i in rows && j in rows && i < j && rows[i].app == rows[j].app ==> Precedes(rows[i], rows[j])
  }

  ghost predicate Timed(rows: map<nat, Row>, t: int) {
    (forall id :: id in rows ==> RowTimes(rows[id], t)) && InSuccession(rows)
  }

  ghost predicate WasStarted(steps: seq<Step>, key: GameKey, at: int) {
    exists i :: 0 <= i < |steps| && steps[i].Start? && steps[i].key == key && steps[i].at == at
  }

  /** Each row was begun by a start of its game. */
  ghost predicate Begun(steps: seq<Step>, db: Db) {
    forall id :: id in db.sessions ==>
      && db.sessions[id].app in db.apps
      && WasStarted(steps, db.apps[db.sessions[id].app].key, db.sessions[id].startedAt)
  }

  // ---- Each step --------------------------------------------------------------------------

  lemma OpenedRow(s: State, blocked: bool, key: GameKey, at: int, clock: Idle.Timeline, io: StartIo)
    requires Idle.Readable(clock) && key !in s.open
    ensures var s' := AfterStarted(s, blocked, key, at, clock, io);
            key in s'.open ==> var r := s'.db.sessions[s'.open[key].id];
                               r.startedAt == at && r.heartbeatAt == at && r.endedAt.None?
  {
  }

  lemma OpenedKeepsTimed(s: State, s': State, key: GameKey, clock: Idle.Timeline, steps: seq<Step>, at: int)
    requires Timed(s.db.sessions, at) && Begun(steps, s.db)
    requires Opened(s, s', key, clock) && Schema(s'.db)
    requires s'.db.sessions[s'.open[key].id].startedAt == s'.db.sessions[s'.open[key].id].heartbeatAt == at
    requires forall a :: WasStarted(steps, key, a) ==> a < at
    ensures Timed(s'.db.sessions, at)
  {
    var rows, rows', id := s.db.sessions, s'.db.sessions, s.db.nextSession;
    forall i | i in rows && rows[i].app == rows'[id].app
      ensures Precedes(rows[i], rows'[id])
    {
      assert WasStarted(steps, key, rows[i].startedAt);
      assert RowTimes(rows[i], at);
      OtherRowsClosed(s'.db, id, i);
    }
  }

  lemma OtherRowsClosed(db: Db, id: nat, i: nat)
    requires Schema(db) && IsOpen(db.sessions, id) && i in db.sessions && i != id
    requires db.sessions[i].app == db.sessions[id].app
    ensures db.sessions[i].endedAt.Some?
  {
    assert IsOpen(db.sessions, i) <==> db.sessions[i].endedAt.None?;
  }

  lemma StartKeepsTimed(w: World, key: GameKey, at: int, io: StartIo, steps: seq<Step>, t: int)
    requires Inv(w) && Timed(w.s.db.sessions, t) && t <= at && Begun(steps, w.s.db)
    requires forall a :: WasStarted(steps, key, a) ==> a < at
    ensures Timed(Next(w, Start(key, at, io)).s.db.sessions, at)
  {
    if w.up && key !in w.s.open {
      var s' := AfterStarted(w.s, key in w.blocked, key, at, w.clock, io);
      StartOutcome(w, key, at, io);
      OpenedRow(w.s, key in w.blocked, key, at, w.clock, io);
      if Opened(w.s, s', key, w.clock) {
        OpenedKeepsTimed(w.s, s', key, w.clock, steps, at);
      }
    }
  }

  /** `rows'` is `rows` with the open row `id` written, or ended, at `at`. */
  ghost predicate WrittenAt(rows: map<nat, Row>, rows': map<nat, Row>, id: nat, at: int) {
    && IsOpen(rows, id) && rows'.Keys == rows.Keys
    && (forall i :: i in rows && i != id ==> rows'[i] == rows[i])
    && rows'[id].app == rows[id].app && rows'[id].startedAt == rows[id].startedAt
    && rows'[id].heartbeatAt == at && rows'[id].endedAt in {None, Some(at)}
  }

  lemma WrittenKeepsTimed(rows: map<nat, Row>, rows': map<nat, Row>, id: nat, at: int, t: int)
    requires Timed(rows, t) && WrittenAt(rows, rows', id, at)
    requires rows[id].startedAt <= at
    ensures Timed(rows', Max(t, at))
  {
    forall i, j | i in rows' && j in rows' && i < j && rows'[i].app == rows'[j].app
      ensures Precedes(rows'[i], rows'[j])
    {
      assert Precedes(rows[i], rows[j]);
    }
    forall i | i in rows'
      ensures RowTimes(rows'[i], Max(t, at))
    {
      assert RowTimes(rows[i], t);
    }
  }

  lemma WritesAt(db: Db, id: nat, app: nat, snap: Snapshot, reason: ExitReason)
    ensures Accepts(db, id, snap) ==>
              && WrittenAt(db.sessions, AfterClose(db, id, app, snap, reason).sessions, id, snap.at)
              && WrittenAt(db.sessions, AfterHeartbeat(db, id, snap).sessions, id, snap.at)
    ensures !Accepts(db, id, snap) ==> AfterClose(db, id, app, snap, reason) == db && AfterHeartbeat(db, id, snap) == db
  {
  }

  lemma SampleKeepsTimed(w: World, key: GameKey, at: int, t: int)
    requires Inv(w) && key in w.s.open && Timed(w.s.db.sessions, t) && t <= at
    ensures Timed(AfterStopped(w.s, key, at, w.clock, w.grace, true).db.sessions, at)
    ensures Timed(AfterBeat(w.s, key, at, w.clock, w.grace, true).db.sessions, at)
  {
    var o := w.s.open[key];
    SnapshotKeepsTimed(w.s.db, o.id, o.app, Sample(o, w.clock, w.grace, at), t);
  }

  lemma SnapshotKeepsTimed(db: Db, id: nat, app: nat, snap: Snapshot, t: int)
    requires id in db.sessions && Timed(db.sessions, t) && t <= snap.at
    ensures Timed(AfterClose(db, id, app, snap, Terminated).sessions, snap.at)
    ensures Timed(AfterHeartbeat(db, id, snap).sessions, snap.at)
  {
    WritesAt(db, id, app, snap, Terminated);
    assert RowTimes(db.sessions[id], t);
    LaterBound(db.sessions, t, snap.at);
    if Accepts(db, id, snap) {
      WrittenKeepsTimed(db.sessions, AfterClose(db, id, app, snap, Terminated).sessions, id, snap.at, t);
      WrittenKeepsTimed(db.sessions, AfterHeartbeat(db, id, snap).sessions, id, snap.at, t);
    }
  }

  lemma RecoverKeepsTimed(db: Db, id: nat, io: bool, t: int)
    requires Timed(db.sessions, t)
    ensures Timed(AfterRecovering(db, id, io).sessions, t)
  {
    if io && id in db.sessions {
      var r := db.sessions[id];
      var snap := Snapshot(r.full, r.interactive, r.heartbeatAt);
      WritesAt(db, id, r.app, snap, Recovered);
      assert RowTimes(r, t);
      if Accepts(db, id, snap) {
        WrittenKeepsTimed(db.sessions, AfterClose(db, id, r.app, snap, Recovered).sessions, id, r.heartbeatAt, t);
      }
    }
  }

  lemma LaterBound(rows: map<nat, Row>, t: int, t': int)
    requires Timed(rows, t) && t <= t'
    ensures Timed(rows, t')
  {
  }

  lemma NextKeepsTimed(w: World, step: Step, steps: seq<Step>, t: int, t': int)
    requires Inv(w) && Timed(w.s.db.sessions, t) && Begun(steps, w.s.db) && !step.MergeApps?
    requires if AtOf(step).Some? then t <= AtOf(step).value <= t' else t <= t'
    requires forall a :: step.Start? && WasStarted(steps, step.key, a) ==> a < step.at
    ensures Timed(Next(w, step).s.db.sessions, t')
  {
    LaterBound(w.s.db.sessions, t, t');
    match step {
      case Start(key, at, io) =>
        StartKeepsTimed(w, key, at, io, steps, t);
        LaterBound(Next(w, step).s.db.sessions, at, t');
      case Stop(key, at, io) => WriteKeepsTimed(w, step, key, at, t, t');
      case Beat(key, at, io) => WriteKeepsTimed(w, step, key, at, t, t');
      case Recover(id, io) => RecoverKeepsTimed(w.s.db, id, io, t');
      case _ => OthersKeepTimed(w, step, t');
    }
  }

  lemma WriteKeepsTimed(w: World, step: Step, key: GameKey, at: int, t: int, t': int)
    requires Inv(w) && Timed(w.s.db.sessions, t) && t <= at <= t'
    requires step in {Stop(key, at, true), Stop(key, at, false), Beat(key, at, true), Beat(key, at, false)}
    ensures Timed(Next(w, step).s.db.sessions, t')
  {
    if w.up && key in w.s.open && step.io {
      SampleKeepsTimed(w, key, at, t);
      LaterBound(Next(w, step).s.db.sessions, at, t');
    } else {
      LaterBound(w.s.db.sessions, t, t');
    }
  }

  lemma OthersKeepTimed(w: World, step: Step, t: int)
    requires Idle.Readable(w.clock) && Timed(w.s.db.sessions, t)
    requires !step.Start? && !step.Stop? && !step.Beat? && !step.Recover? && !step.MergeApps?
    ensures Timed(Next(w, step).s.db.sessions, t)
  {
  }

  /** A row that is not new has the application and start it had, and its game keeps its key. */
  ghost predicate SameBeginnings(db: Db, db': Db) {
    forall id :: id in db'.sessions ==>
      && id in db.sessions && db'.sessions[id].app == db.sessions[id].app
      && db'.sessions[id].startedAt == db.sessions[id].startedAt
      && (db.sessions[id].app in db.apps ==>
            db.sessions[id].app in db'.apps && db'.apps[db.sessions[id].app].key == db.apps[db.sessions[id].app].key)
  }

  lemma OtherStepsKeepBeginnings(w: World, step: Step)
    requires Idle.Readable(w.clock) && !step.Start? && !step.MergeApps?
    ensures SameBeginnings(w.s.db, Next(w, step).s.db)
  {
    match step {
      case Stop(key, at, io) => StopKeepsBeginnings(w, step);
      case DeleteRows(ids, io) => DeleteKeepsBeginnings(w.s.db, ids);
      case _ =>
    }
  }

  lemma StopKeepsBeginnings(w: World, step: Step)
    requires Idle.Readable(w.clock) && step.Stop?
    ensures SameBeginnings(w.s.db, Next(w, step).s.db)
  {
  }

  lemma DeleteKeepsBeginnings(db: Db, ids: seq<nat>)
    ensures SameBeginnings(db, AfterDelete(db, ids))
  {
  }

  lemma StartKeepsBegun(w: World, key: GameKey, at: int, io: StartIo, steps: seq<Step>)
    requires Inv(w) && Begun(steps, w.s.db) && WasStarted(steps, key, at)
    ensures Begun(steps, Next(w, Start(key, at, io)).s.db)
  {
    if w.up && key !in w.s.open {
      StartOutcome(w, key, at, io);
      OpenedRow(w.s, key in w.blocked, key, at, w.clock, io);
    }
  }

  lemma BegunLonger(steps: seq<Step>, db: Db)
    requires steps != [] && Begun(steps[..|steps| - 1], db)
    ensures Begun(steps, db)
  {
    var init := steps[..|steps| - 1];
    forall key, at | WasStarted(init, key, at)
      ensures WasStarted(steps, key, at)
    {
      var i :| 0 <= i < |init| && init[i].Start? && init[i].key == key && init[i].at == at;
      assert steps[i] == init[i];
    }
  }

  lemma NextKeepsBegun(w: World, steps: seq<Step>)
    requires Inv(w) && steps != [] && Begun(steps[..|steps| - 1], w.s.db) && !steps[|steps| - 1].MergeApps?
    ensures Begun(steps, Next(w, steps[|steps| - 1]).s.db)
  {
    var last := steps[|steps| - 1];
    BegunLonger(steps, w.s.db);
    if last.Start? {
      assert WasStarted(steps, last.key, last.at);
      StartKeepsBegun(w, last.key, last.at, last.start, steps);
    } else {
      OtherStepsKeepBeginnings(w, last);
    }
  }

  // ---- Whole runs -------------------------------------------------------------------------

  lemma FrontInOrder(steps: seq<Step>)
    requires steps != [] && Chronological(steps) && NoMerges(steps)
    ensures var init, last := steps[..|steps| - 1], steps[|steps| - 1];
            && Chronological(init) && NoMerges(init) && !last.MergeApps?
            && (AtOf(last).Some? ==> AllBy(init, AtOf(last).value))
            && forall a :: last.Start? && WasStarted(init, last.key, a) ==> a < last.at
  {
    var init, last := steps[..|steps| - 1], steps[|steps| - 1];
    forall i, j | 0 <= i < j < |init|
      ensures InOrder(init[i], init[j])
    {
      assert InOrder(steps[i], steps[j]);
    }
    forall i | 0 <= i < |init|
      ensures InOrder(init[i], last)
    {
      assert InOrder(steps[i], steps[|steps| - 1]);
    }
  }

  lemma {:induction false} RunsAreTimed(steps: seq<Step>, t: int)
    requires Chronological(steps) && NoMerges(steps) && AllBy(steps, t)
    ensures Timed(After(steps).s.db.sessions, t) && Begun(steps, After(steps).s.db)
  {
    if steps != [] {
      var init, last := steps[..|steps| - 1], steps[|steps| - 1];
      FrontInOrder(steps);
      EveryRunKeepsInv(init);
      LastStep(steps);
      var before := if AtOf(last).Some? then AtOf(last).value else t;
      RunsAreTimed(init, before);
      NextKeepsTimed(After(init), last, init, before, t);
      NextKeepsBegun(After(init), steps);
    }
  }

  lemma BoundOf(steps: seq<Step>) returns (t: int)
    ensures AllBy(steps, t)
  {
    t := 0;
    for i := 0 to |steps|
      invariant AllBy(steps[..i], t)
    {
      assert steps[..i + 1] == steps[..i] + [steps[i]];
      if AtOf(steps[i]).Some? {
        t := Max(t, AtOf(steps[i]).value);
      }
    }
    assert steps[..|steps|] == steps;
  }

  lemma SuccessionLists(db: Db, app: nat, rows: seq<DisplayFold.Row<Row>>, t: int)
    requires Timed(db.sessions, t) && DisplayFold.IsListing(db, app, rows)
    ensures DisplayFold.Sequential(rows)
  {
    forall i, j | 0 <= i < j < |rows|
      ensures rows[j].endedAt.Some? && rows[j].endedAt.value <= rows[i].startedAt
    {
      var a, b := rows[i].id, rows[j].id;
      assert rows[j].startedAt <= rows[i].startedAt;
      assert a < b ==> Precedes(db.sessions[a], db.sessions[b]);
      assert Precedes(db.sessions[b], db.sessions[a]);
    }
    forall i | 0 <= i < |rows| && rows[i].endedAt.Some?
      ensures rows[i].startedAt <= rows[i].endedAt.value
    {
      assert RowTimes(db.sessions[rows[i].id], t);
    }
  }

  /** In every run without merges whose wall clock does not step back, with crashes, recoveries,
      deletes and failures, the sessions of an application are listed one after the other. */
  lemma RunsListSequentially(steps: seq<Step>, app: nat, rows: seq<DisplayFold.Row<Row>>)
    requires Chronological(steps) && NoMerges(steps)
    requires DisplayFold.IsListing(After(steps).s.db, app, rows)
    ensures DisplayFold.Sequential(rows)
  {
    var t := BoundOf(steps);
    RunsAreTimed(steps, t);
    SuccessionLists(After(steps).s.db, app, rows, t);
  }

  /** So in every such run, whatever the row limit, deleting a displayed closed span of an
      application leaves the other displayed spans as they were. */
  lemma RunsDeleteWhatYouSee(steps: seq<Step>, app: nat, rows: seq<DisplayFold.Row<Row>>, n: nat, gap: int, i: nat)
    requires Chronological(steps) && NoMerges(steps)
    requires DisplayFold.IsListing(After(steps).s.db, app, rows)
    requires i < |DisplayFold.Folded(DisplayFold.Newest(rows, n), gap)|
    requires DisplayFold.Folded(DisplayFold.Newest(rows, n), gap)[i].row.endedAt.Some?
    ensures var spans := DisplayFold.Folded(DisplayFold.Newest(rows, n), gap);
            var left := DisplayFold.Filter(rows, spans[i].ids);
            && DisplayFold.IsListing(AfterDelete(After(steps).s.db, spans[i].ids), app, left)
            && DisplayFold.Prolongs(DisplayFold.Dropped(spans, i),
                                    DisplayFold.Folded(DisplayFold.Newest(left, n), gap))
  {
    EveryRunKeepsInv(steps);
    RunsListSequentially(steps, app, rows);
    DisplayFold.DeleteWhatYouSeeUnderLimit(After(steps).s.db, app, rows, n, gap, i);
  }
}
