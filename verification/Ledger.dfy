/** The database: session rows, application rows with cached statistics, and the
    transactions that change them.

    Each transaction is given twice: as a function from database value to database value,
    which the lemmas are about, and as a method of `Database` that carries it out statement
    by statement and is proved to leave exactly that value, or, when the database refuses
    the transaction, exactly the old one. */
module Ledger {
  import opened Types

  datatype Stats = Stats(runs: int, full: int, interactive: int, longest: int)

  datatype App = App(key: GameKey, stats: Stats, firstSeen: int, lastPlayed: Option<int>)

  datatype Row = Row(app: nat, startedAt: int, endedAt: Option<int>, heartbeatAt: int,
                     full: int, interactive: int, exit: Option<ExitReason>)

  datatype Snapshot = Snapshot(full: int, interactive: int, at: int)

  /** Row ids are handed out in increasing order and never reused. */
  datatype Db = Db(apps: map<nat, App>, sessions: map<nat, Row>, nextApp: nat, nextSession: nat)

  const EMPTY := Db(map[], map[], 1, 1)

  const NO_STATS: Stats := Stats(0, 0, 0, 0)

  // ---- Statistics recomputed from rows ----------------------------------------------------

  predicate Counted(rows: map<nat, Row>, app: nat, id: nat) {
    id in rows && rows[id].app == app && rows[id].endedAt.Some?
  }

  function AddRow(s: Stats, r: Row): Stats {
    Stats(s.runs + 1, s.full + r.full, s.interactive + r.interactive, Max(s.longest, r.full))
  }

  /** COUNT, SUM, SUM and MAX over the closed rows of `app` with ids below `n`. */
  function Recompute(rows: map<nat, Row>, app: nat, n: nat): Stats {
    if n == 0 then NO_STATS
    else
      var s := Recompute(rows, app, n - 1);
      if Counted(rows, app, n - 1) then AddRow(s, rows[n - 1]) else s
  }

  function LatestEnd(rows: map<nat, Row>, app: nat, n: nat): Option<int> {
    if n == 0 then None
    else
      var e := LatestEnd(rows, app, n - 1);
      if !Counted(rows, app, n - 1) then e
      else if e.None? then rows[n - 1].endedAt
      else Some(Max(e.value, rows[n - 1].endedAt.value))
  }

  predicate IsOpen(rows: map<nat, Row>, id: nat) {
    id in rows && rows[id].endedAt.None?
  }

  ghost predicate NoOpenRow(db: Db) {
    forall id :: !IsOpen(db.sessions, id)
  }

  ghost predicate HasOpenRow(rows: map<nat, Row>, app: nat) {
    exists id :: IsOpen(rows, id) && rows[id].app == app
  }

  // ---- What the schema enforces and what the application keeps ----------------------------

  predicate CheckedRuntimes(full: int, interactive: int) {
    0 <= interactive <= full
  }

  ghost predicate Schema(db: Db) {
    && (forall id :: id in db.sessions ==>
          && id < db.nextSession
          && db.sessions[id].app in db.apps
          && CheckedRuntimes(db.sessions[id].full, db.sessions[id].interactive))
    && (forall a :: a in db.apps ==> a < db.nextApp)
    && (forall a, b :: a in db.apps && b in db.apps && db.apps[a].key == db.apps[b].key ==> a == b)
    && (forall s, t :: (IsOpen(db.sessions, s) && IsOpen(db.sessions, t)
                        && db.sessions[s].app == db.sessions[t].app) ==> s == t)
  }

  /** Every cached statistic equals the one recomputed from the closed rows. */
  ghost predicate Balanced(db: Db) {
    forall a :: a in db.apps ==> db.apps[a].stats == Recompute(db.sessions, a, db.nextSession)
  }

  ghost predicate Sound(db: Db) {
    Schema(db) && Balanced(db)
  }

  // ---- Transactions -----------------------------------------------------------------------

  /** The application with `key` among ids below `n`. */
  function FindByKey(apps: map<nat, App>, key: GameKey, n: nat): (r: Option<nat>)
    ensures r.Some? ==> r.value < n && r.value in apps && apps[r.value].key == key
    ensures r.None? ==> forall a :: a < n && a in apps ==> apps[a].key != key
  {
    if n == 0 then None
    else if n - 1 in apps && apps[n - 1].key == key then Some(n - 1)
    else FindByKey(apps, key, n - 1)
  }

  function AfterCreate(db: Db, key: GameKey, at: int): Db {
    if FindByKey(db.apps, key, db.nextApp).Some? then db  // UNIQUE (launcher_type, launcher_id)
    else db.(apps := db.apps[db.nextApp := App(key, NO_STATS, at, None)], nextApp := db.nextApp + 1)
  }

  ghost function AfterBegin(db: Db, app: nat, at: int): Db {
    if app !in db.apps || HasOpenRow(db.sessions, app) then db
    else db.(sessions := db.sessions[db.nextSession := Row(app, at, None, at, 0, 0, None)],
             nextSession := db.nextSession + 1)
  }

  predicate Accepts(db: Db, id: nat, s: Snapshot) {
    IsOpen(db.sessions, id) && CheckedRuntimes(s.full, s.interactive)
  }

  function AfterHeartbeat(db: Db, id: nat, s: Snapshot): Db {
    if !Accepts(db, id, s) then db
    else db.(sessions := db.sessions[id := db.sessions[id].(heartbeatAt := s.at, full := s.full,
                                                            interactive := s.interactive)])
  }

  function Closed(r: Row, s: Snapshot, reason: ExitReason): Row {
    r.(endedAt := Some(s.at), heartbeatAt := s.at, full := s.full, interactive := s.interactive,
       exit := Some(reason))
  }

  function AfterClose(db: Db, id: nat, app: nat, s: Snapshot, reason: ExitReason): Db {
    if !Accepts(db, id, s) then db
    else
      var row := Closed(db.sessions[id], s, reason);
      db.(sessions := db.sessions[id := row],
          apps := if app in db.apps
                  then db.apps[app := db.apps[app].(stats := AddRow(db.apps[app].stats, row),
                                                    lastPlayed := Some(s.at))]
                  else db.apps)
  }

  ghost predicate NamesOpenRow(db: Db, ids: seq<nat>) {
    exists id :: id in ids && IsOpen(db.sessions, id)
  }

  function Without(rows: map<nat, Row>, ids: seq<nat>): map<nat, Row> {
    map id | id in rows && id !in ids :: rows[id]
  }

  function Owners(rows: map<nat, Row>, ids: seq<nat>): set<nat> {
    set id | id in ids && id in rows :: rows[id].app
  }

  function Rebuilt(a: App, rows: map<nat, Row>, id: nat, n: nat): App {
    a.(stats := Recompute(rows, id, n), lastPlayed := LatestEnd(rows, id, n))
  }

  ghost function AfterDelete(db: Db, ids: seq<nat>): Db {
    if NamesOpenRow(db, ids) then db
    else
      var rows := Without(db.sessions, ids);
      db.(sessions := rows,
          apps := map a | a in db.apps ::
                    if a in Owners(db.sessions, ids) then Rebuilt(db.apps[a], rows, a, db.nextSession) else db.apps[a])
  }

  ghost predicate CanMerge(db: Db, src: nat, dst: nat) {
    && src != dst && src in db.apps && dst in db.apps
    && !(HasOpenRow(db.sessions, src) && HasOpenRow(db.sessions, dst))
  }

  function Reparent(rows: map<nat, Row>, src: nat, dst: nat): map<nat, Row> {
    map id | id in rows :: if rows[id].app == src then rows[id].(app := dst) else rows[id]
  }

  function Combine(a: Stats, b: Stats): Stats {
    Stats(a.runs + b.runs, a.full + b.full, a.interactive + b.interactive, Max(a.longest, b.longest))
  }

  /** SQLite's two-argument MAX is NULL as soon as one argument is. */
  function ScalarMax(a: Option<int>, b: Option<int>): Option<int> {
    if a.Some? && b.Some? then Some(Max(a.value, b.value)) else None
  }

  function Folded(dst: App, src: App): App {
    dst.(stats := Combine(dst.stats, src.stats), firstSeen := Min(dst.firstSeen, src.firstSeen),
         lastPlayed := ScalarMax(dst.lastPlayed, src.lastPlayed))
  }

  ghost function AfterMerge(db: Db, src: nat, dst: nat): Db {
    if !CanMerge(db, src, dst) then db
    else db.(sessions := Reparent(db.sessions, src, dst),
             apps := db.apps[dst := Folded(db.apps[dst], db.apps[src])] - {src})
  }

  // ---- How recomputed statistics react to one change --------------------------------------

  predicate SameCount(rows: map<nat, Row>, rows': map<nat, Row>, app: nat, id: nat) {
    && Counted(rows, app, id) == Counted(rows', app, id)
    && (Counted(rows, app, id) ==>
          rows[id].full == rows'[id].full && rows[id].interactive == rows'[id].interactive)
  }

  lemma {:induction false} RecomputeFrame(rows: map<nat, Row>, rows': map<nat, Row>, app: nat, n: nat)
    requires forall id: nat :: id < n ==> SameCount(rows, rows', app, id)
    ensures Recompute(rows, app, n) == Recompute(rows', app, n)
  {
    if n > 0 {
      RecomputeFrame(rows, rows', app, n - 1);
      assert SameCount(rows, rows', app, n - 1);
    }
  }

  lemma {:induction false} RecomputeOneMore(rows: map<nat, Row>, rows': map<nat, Row>, app: nat, id: nat, n: nat)
    requires id < n && !Counted(rows, app, id) && Counted(rows', app, id)
    requires forall k: nat :: k < n && k != id ==> SameCount(rows, rows', app, k)
    ensures Recompute(rows', app, n) == AddRow(Recompute(rows, app, n), rows'[id])
  {
    if id == n - 1 {
      RecomputeFrame(rows, rows', app, n - 1);
    } else {
      RecomputeOneMore(rows, rows', app, id, n - 1);
      assert SameCount(rows, rows', app, n - 1);
    }
  }

  /** Row `id` counts for `dst` afterwards exactly when it counted for either before. */
  predicate Joins(rows: map<nat, Row>, rows': map<nat, Row>, src: nat, dst: nat, id: nat) {
    && (Counted(rows', dst, id) <==> Counted(rows, src, id) || Counted(rows, dst, id))
    && (Counted(rows', dst, id) ==>
          rows[id].full == rows'[id].full && rows[id].interactive == rows'[id].interactive)
  }

  lemma {:induction false} RecomputeJoined(rows: map<nat, Row>, rows': map<nat, Row>, src: nat, dst: nat, n: nat)
    requires src != dst
    requires forall id: nat :: id < n ==> Joins(rows, rows', src, dst, id)
    ensures Recompute(rows', dst, n) == Combine(Recompute(rows, dst, n), Recompute(rows, src, n))
  {
    if n > 0 {
      RecomputeJoined(rows, rows', src, dst, n - 1);
      assert Joins(rows, rows', src, dst, n - 1);
      if Counted(rows', dst, n - 1) {
        CombineAddRow(Recompute(rows, dst, n - 1), Recompute(rows, src, n - 1), rows[n - 1], rows'[n - 1]);
      }
    } else {
      CombineNone();
    }
  }

  lemma CombineNone()
    ensures Combine(NO_STATS, NO_STATS) == NO_STATS
  {
  }

  lemma CombineAddRow(d: Stats, c: Stats, r: Row, r': Row)
    requires r.full == r'.full && r.interactive == r'.interactive
    ensures AddRow(Combine(d, c), r') == Combine(AddRow(d, r), c) == Combine(d, AddRow(c, r))
  {
  }

  // ---- Each transaction keeps the database sound ------------------------------------------

  lemma CreateKeepsSound(db: Db, key: GameKey, at: int)
    requires Sound(db)
    ensures Sound(AfterCreate(db, key, at))
  {
    var n := db.nextApp;
    forall id: nat | id < db.nextSession
      ensures !Counted(db.sessions, n, id)
    {
    }
    RecomputeNone(db.sessions, n, db.nextSession);
  }

  lemma {:induction false} RecomputeNone(rows: map<nat, Row>, app: nat, n: nat)
    requires forall id: nat :: id < n ==> !Counted(rows, app, id)
    ensures Recompute(rows, app, n) == NO_STATS
  {
    if n > 0 {
      RecomputeNone(rows, app, n - 1);
    }
  }

  lemma BeginKeepsSound(db: Db, app: nat, at: int)
    requires Sound(db)
    ensures Sound(AfterBegin(db, app, at))
  {
    var db' := AfterBegin(db, app, at);
    if db' != db {
      forall a | a in db.apps
        ensures Recompute(db'.sessions, a, db'.nextSession) == Recompute(db.sessions, a, db.nextSession)
      {
        RecomputeFrame(db.sessions, db'.sessions, a, db.nextSession);
      }
    }
  }

  lemma HeartbeatKeepsSound(db: Db, id: nat, s: Snapshot)
    requires Sound(db)
    ensures Sound(AfterHeartbeat(db, id, s))
  {
    if Accepts(db, id, s) {
      var db' := AfterHeartbeat(db, id, s);
      forall a | a in db.apps
        ensures Recompute(db'.sessions, a, db.nextSession) == Recompute(db.sessions, a, db.nextSession)
      {
        RecomputeFrame(db.sessions, db'.sessions, a, db.nextSession);
      }
    }
  }

  lemma CloseRecomputes(db: Db, id: nat, app: nat, s: Snapshot, reason: ExitReason, a: nat)
    requires Schema(db) && Accepts(db, id, s)
    ensures var rows' := AfterClose(db, id, app, s, reason).sessions;
            Recompute(rows', a, db.nextSession)
            == if a == db.sessions[id].app
               then AddRow(Recompute(db.sessions, a, db.nextSession), rows'[id])
               else Recompute(db.sessions, a, db.nextSession)
  {
    var rows' := AfterClose(db, id, app, s, reason).sessions;
    if a == db.sessions[id].app {
      RecomputeOneMore(db.sessions, rows', a, id, db.nextSession);
    } else {
      RecomputeFrame(db.sessions, rows', a, db.nextSession);
    }
  }

  /** Closing keeps the books balanced exactly when it changes nothing or the caller names the
      application that owns the row. A caller holding an id from before a merge does not. */
  lemma CloseKeepsSoundIffOwner(db: Db, id: nat, app: nat, s: Snapshot, reason: ExitReason)
    requires Sound(db)
    ensures Schema(AfterClose(db, id, app, s, reason))
    ensures Balanced(AfterClose(db, id, app, s, reason))
            <==> !Accepts(db, id, s) || db.sessions[id].app == app
  {
    CloseKeepsSchema(db, id, app, s, reason);
    if Accepts(db, id, s) {
      if db.sessions[id].app == app {
        OwnerCloseBalances(db, id, s, reason);
      } else {
        StaleCloseUnbalances(db, id, app, s, reason);
      }
    }
  }

  lemma CloseKeepsSchema(db: Db, id: nat, app: nat, s: Snapshot, reason: ExitReason)
    requires Schema(db)
    ensures Schema(AfterClose(db, id, app, s, reason))
  {
  }

  lemma OwnerCloseBalances(db: Db, id: nat, s: Snapshot, reason: ExitReason)
    requires Sound(db) && Accepts(db, id, s)
    ensures Balanced(AfterClose(db, id, db.sessions[id].app, s, reason))
  {
    var app := db.sessions[id].app;
    var db' := AfterClose(db, id, app, s, reason);
    forall a | a in db'.apps
      ensures db'.apps[a].stats == Recompute(db'.sessions, a, db'.nextSession)
    {
      CloseRecomputes(db, id, app, s, reason, a);
    }
  }

  lemma StaleCloseUnbalances(db: Db, id: nat, app: nat, s: Snapshot, reason: ExitReason)
    requires Sound(db) && Accepts(db, id, s) && db.sessions[id].app != app
    ensures !Balanced(AfterClose(db, id, app, s, reason))
  {
    var owner := db.sessions[id].app;
    var db' := AfterClose(db, id, app, s, reason);
    CloseRecomputes(db, id, app, s, reason, owner);
    assert db'.apps[owner].stats.runs != Recompute(db'.sessions, owner, db'.nextSession).runs;
  }

  /** Closing a second time changes nothing: a session is rolled up once. */
  lemma RepeatedCloseIsNoOp(db: Db, id: nat, app: nat, s: Snapshot, reason: ExitReason,
                            app2: nat, s2: Snapshot, reason2: ExitReason)
    requires Accepts(db, id, s)
    ensures var db' := AfterClose(db, id, app, s, reason);
            AfterClose(db', id, app2, s2, reason2) == db' && AfterHeartbeat(db', id, s2) == db'
  {
  }

  lemma OthersUntouched(rows: map<nat, Row>, ids: seq<nat>, app: nat, n: nat)
    requires app !in Owners(rows, ids)
    ensures Recompute(Without(rows, ids), app, n) == Recompute(rows, app, n)
  {
    forall id: nat | id < n
      ensures SameCount(rows, Without(rows, ids), app, id)
    {
      if id in rows && id in ids {
        assert rows[id].app in Owners(rows, ids);
      }
    }
    RecomputeFrame(rows, Without(rows, ids), app, n);
  }

  lemma DeleteKeepsSound(db: Db, ids: seq<nat>)
    requires Sound(db)
    ensures Sound(AfterDelete(db, ids))
  {
    var db' := AfterDelete(db, ids);
    if !NamesOpenRow(db, ids) {
      forall a | a in db.apps && a !in Owners(db.sessions, ids)
        ensures Recompute(db'.sessions, a, db.nextSession) == Recompute(db.sessions, a, db.nextSession)
      {
        OthersUntouched(db.sessions, ids, a, db.nextSession);
      }
    }
  }

  lemma MergeKeepsSchema(db: Db, src: nat, dst: nat)
    requires Schema(db) && CanMerge(db, src, dst)
    ensures Schema(AfterMerge(db, src, dst))
  {
    var rows' := AfterMerge(db, src, dst).sessions;
    forall s, t | IsOpen(rows', s) && IsOpen(rows', t) && rows'[s].app == rows'[t].app
      ensures s == t
    {
      assert IsOpen(db.sessions, s) && IsOpen(db.sessions, t);
    }
  }

  lemma ReparentRecomputes(rows: map<nat, Row>, src: nat, dst: nat, app: nat, n: nat)
    requires src != dst && app != src
    ensures Recompute(Reparent(rows, src, dst), app, n)
            == if app == dst then Combine(Recompute(rows, dst, n), Recompute(rows, src, n)) else Recompute(rows, app, n)
  {
    if app == dst {
      RecomputeJoined(rows, Reparent(rows, src, dst), src, dst, n);
    } else {
      RecomputeFrame(rows, Reparent(rows, src, dst), app, n);
    }
  }

  lemma MergeKeepsSound(db: Db, src: nat, dst: nat)
    requires Sound(db)
    ensures Sound(AfterMerge(db, src, dst))
  {
    if CanMerge(db, src, dst) {
      MergeKeepsSchema(db, src, dst);
      forall a | a in db.apps && a != src
        ensures AfterMerge(db, src, dst).apps[a].stats == Recompute(AfterMerge(db, src, dst).sessions, a, db.nextSession)
      {
        ReparentRecomputes(db.sessions, src, dst, a, db.nextSession);
      }
    }
  }

  // ---- Every interleaving -----------------------------------------------------------------

  datatype Op =
    | Create(key: GameKey, at: int)
    | Begin(app: nat, at: int)
    | Heartbeat(id: nat, snapshot: Snapshot)
    | Close(id: nat, app: nat, snapshot: Snapshot, reason: ExitReason)
    | Delete(ids: seq<nat>)
    | Merge(src: nat, dst: nat)

  ghost function Apply(db: Db, op: Op): Db {
    match op
    case Create(key, at) => AfterCreate(db, key, at)
    case Begin(app, at) => AfterBegin(db, app, at)
    case Heartbeat(id, s) => AfterHeartbeat(db, id, s)
    case Close(id, app, s, reason) => AfterClose(db, id, app, s, reason)
    case Delete(ids) => AfterDelete(db, ids)
    case Merge(src, dst) => AfterMerge(db, src, dst)
  }

  ghost function ApplyAll(db: Db, ops: seq<Op>): Db
    decreases |ops|
  {
    if ops == [] then db else ApplyAll(Apply(db, ops[0]), ops[1..])
  }

  /** The guard a caller of `close_and_rollup` must meet. */
  predicate NamesOwner(db: Db, op: Op) {
    op.Close? && Accepts(db, op.id, op.snapshot) ==> db.sessions[op.id].app == op.app
  }

  ghost predicate AllNameOwner(db: Db, ops: seq<Op>)
    decreases |ops|
  {
    ops != [] ==> NamesOwner(db, ops[0]) && AllNameOwner(Apply(db, ops[0]), ops[1..])
  }

  lemma ApplyKeepsSound(db: Db, op: Op)
    requires Sound(db) && NamesOwner(db, op)
    ensures Sound(Apply(db, op))
  {
    match op
    case Create(key, at) => CreateKeepsSound(db, key, at);
    case Begin(app, at) => BeginKeepsSound(db, app, at);
    case Heartbeat(id, s) => HeartbeatKeepsSound(db, id, s);
    case Close(id, app, s, reason) => CloseKeepsSoundIffOwner(db, id, app, s, reason);
    case Delete(ids) => DeleteKeepsSound(db, ids);
    case Merge(src, dst) => MergeKeepsSound(db, src, dst);
  }

  /** Over every sequence of transactions whose closes name the owning application, the cached
      statistics equal the recomputed ones and no application has two open rows. */
  lemma {:induction false} EveryRunStaysSound(db: Db, ops: seq<Op>)
    requires Sound(db) && AllNameOwner(db, ops)
    ensures Sound(ApplyAll(db, ops)) && StatsDescribeRows(ApplyAll(db, ops))
    decreases |ops|
  {
    CachedStatsDescribeRows(db);
    if ops != [] {
      ApplyKeepsSound(db, ops[0]);
      EveryRunStaysSound(Apply(db, ops[0]), ops[1..]);
    }
  }

  /** The guard is needed: whenever an application is merged away while its session is open,
      closing that session under the old application id loses it from the statistics. */
  lemma StaleOwnerUnbalances(db: Db, id: nat, src: nat, dst: nat, s: Snapshot, reason: ExitReason)
    requires Sound(db) && Accepts(db, id, s) && db.sessions[id].app == src && CanMerge(db, src, dst)
    ensures !Balanced(AfterClose(AfterMerge(db, src, dst), id, src, s, reason))
  {
    MergeKeepsSound(db, src, dst);
    CloseKeepsSoundIffOwner(AfterMerge(db, src, dst), id, src, s, reason);
  }

  /** The later of two times, ignoring one that is missing. */
  function LatestKnown(a: Option<int>, b: Option<int>): (r: Option<int>)
    ensures r.Some? <==> a.Some? || b.Some?
    ensures r.Some? ==> (r == a || r == b) && (a.Some? ==> a.value <= r.value) && (b.Some? ==> b.value <= r.value)
  {
    if a.None? then b else if b.None? || b.value <= a.value then a else b
  }

  /** After a merge `last_played_at` is the later known time if and only if both applications have
      been played or neither has. When just one has, its time is lost. */
  lemma MergeKeepsLatestPlayedIff(db: Db, src: nat, dst: nat)
    requires CanMerge(db, src, dst)
    ensures var a, b := db.apps[dst].lastPlayed, db.apps[src].lastPlayed;
            var merged := AfterMerge(db, src, dst).apps[dst].lastPlayed;
            && (merged == LatestKnown(a, b) <==> (a.Some? <==> b.Some?))
            && (merged.Some? <==> a.Some? && b.Some?)
  {
  }

  // ---- What the recomputed numbers mean ---------------------------------------------------

  ghost function ClosedIds(rows: map<nat, Row>, app: nat, n: nat): set<nat> {
    set id | id in rows && id < n && rows[id].app == app && rows[id].endedAt.Some?
  }

  datatype Column = FullColumn | InteractiveColumn

  /** The sum of a column over the closed rows of `app`, or of every application, with ids below `n`. */
  function ColumnSum(rows: map<nat, Row>, app: Option<nat>, column: Column, n: nat): int {
    if n == 0 then 0
    else
      var id := n - 1;
      ColumnSum(rows, app, column, id)
      + if id in rows && rows[id].endedAt.Some? && (app.Some? ==> rows[id].app == app.value)
        then (if column.FullColumn? then rows[id].full else rows[id].interactive)
        else 0
  }

  /** `s` is the count of the closed rows of `app`, the sums of their runtimes, and the longest full
      runtime among them or 0 when there is none. */
  ghost predicate Describes(s: Stats, rows: map<nat, Row>, app: nat, n: nat) {
    && s.runs == |ClosedIds(rows, app, n)|
    && s.full == ColumnSum(rows, Some(app), FullColumn, n)
    && s.interactive == ColumnSum(rows, Some(app), InteractiveColumn, n)
    && (forall id :: id in ClosedIds(rows, app, n) ==> rows[id].full <= s.longest)
    && (ClosedIds(rows, app, n) == {} ==> s.longest == 0)
    && (ClosedIds(rows, app, n) != {} ==> exists id :: id in ClosedIds(rows, app, n) && rows[id].full == s.longest)
  }

  lemma {:induction false} RecomputeCountsAndBounds(rows: map<nat, Row>, app: nat, n: nat)
    requires forall id :: id in rows ==> rows[id].full >= 0
    ensures Describes(Recompute(rows, app, n), rows, app, n)
  {
    if n > 0 {
      RecomputeCountsAndBounds(rows, app, n - 1);
      var before := ClosedIds(rows, app, n - 1);
      if Counted(rows, app, n - 1) {
        assert ClosedIds(rows, app, n) == before + {n - 1};
        if before == {} || rows[n - 1].full > Recompute(rows, app, n - 1).longest {
          assert n - 1 in ClosedIds(rows, app, n);
        } else {
          var id :| id in before && rows[id].full == Recompute(rows, app, n - 1).longest;
          assert id in ClosedIds(rows, app, n);
        }
      } else {
        assert ClosedIds(rows, app, n) == before;
      }
    }
  }

  ghost predicate StatsDescribeRows(db: Db) {
    forall a :: a in db.apps ==> Describes(db.apps[a].stats, db.sessions, a, db.nextSession)
  }

  /** In a sound database the cached statistics of every application say that about its rows. */
  lemma CachedStatsDescribeRows(db: Db)
    requires Sound(db)
    ensures StatsDescribeRows(db)
  {
    forall a | a in db.apps
      ensures Describes(db.apps[a].stats, db.sessions, a, db.nextSession)
    {
      RecomputeCountsAndBounds(db.sessions, a, db.nextSession);
    }
  }

  /** `e` is the latest end of a closed row of `app`, or nothing without one. */
  ghost predicate IsLatestEnd(e: Option<int>, rows: map<nat, Row>, app: nat, n: nat) {
    && (e.None? <==> ClosedIds(rows, app, n) == {})
    && (e.Some? ==> forall id :: id in ClosedIds(rows, app, n) ==> rows[id].endedAt.value <= e.value)
    && (e.Some? ==> exists id :: id in ClosedIds(rows, app, n) && rows[id].endedAt == e)
  }

  lemma {:induction false} LatestEndIsLatest(rows: map<nat, Row>, app: nat, n: nat)
    ensures IsLatestEnd(LatestEnd(rows, app, n), rows, app, n)
  {
    if n > 0 {
      LatestEndIsLatest(rows, app, n - 1);
      var before := ClosedIds(rows, app, n - 1);
      if Counted(rows, app, n - 1) {
        assert ClosedIds(rows, app, n) == before + {n - 1};
        assert n - 1 in ClosedIds(rows, app, n);
        if id :| id in before && rows[id].endedAt == LatestEnd(rows, app, n - 1) {
          assert id in ClosedIds(rows, app, n);
        }
      } else {
        assert ClosedIds(rows, app, n) == before;
      }
    }
  }

  /** Totals over all applications with ids below `m`. */
  function Totals(apps: map<nat, App>, m: nat): Stats {
    if m == 0 then NO_STATS
    else if m - 1 in apps then Combine(Totals(apps, m - 1), apps[m - 1].stats)
    else Totals(apps, m - 1)
  }

  /** Totals over all closed rows with ids below `n`, whoever owns them. */
  function RowTotals(rows: map<nat, Row>, n: nat): Stats {
    if n == 0 then NO_STATS
    else
      var s := RowTotals(rows, n - 1);
      if IsClosed(rows, n - 1) then AddRow(s, rows[n - 1]) else s
  }

  predicate IsClosed(rows: map<nat, Row>, id: nat) {
    id in rows && rows[id].endedAt.Some?
  }

  function RecomputedTotals(rows: map<nat, Row>, m: nat, n: nat): Stats {
    if m == 0 then NO_STATS
    else Combine(RecomputedTotals(rows, m - 1, n), Recompute(rows, m - 1, n))
  }

  lemma {:induction false} OneRowCountsOnce(rows: map<nat, Row>, m: nat, n: nat)
    requires n > 0
    ensures RecomputedTotals(rows, m, n)
            == if IsClosed(rows, n - 1) && rows[n - 1].app < m
               then AddRow(RecomputedTotals(rows, m, n - 1), rows[n - 1])
               else RecomputedTotals(rows, m, n - 1)
  {
    if m > 0 {
      OneRowCountsOnce(rows, m - 1, n);
    }
  }

  lemma {:induction false} EmptyTotals(rows: map<nat, Row>, m: nat)
    ensures RecomputedTotals(rows, m, 0) == NO_STATS
  {
    if m > 0 {
      EmptyTotals(rows, m - 1);
    }
  }

  lemma {:induction false} RowsSplitByOwner(rows: map<nat, Row>, m: nat, n: nat)
    requires forall id :: id in rows ==> rows[id].app < m
    ensures RecomputedTotals(rows, m, n) == RowTotals(rows, n)
  {
    if n == 0 {
      EmptyTotals(rows, m);
    } else {
      RowsSplitByOwner(rows, m, n - 1);
      OneRowCountsOnce(rows, m, n);
    }
  }

  lemma {:induction false} CachedTotals(db: Db, m: nat)
    requires Sound(db)
    ensures Totals(db.apps, m) == RecomputedTotals(db.sessions, m, db.nextSession)
  {
    if m > 0 {
      CachedTotals(db, m - 1);
      if m - 1 !in db.apps {
        RecomputeNone(db.sessions, m - 1, db.nextSession);
        LongestNonNegative(db.sessions, m - 1, db.nextSession);
      }
    }
  }

  lemma {:induction false} LongestNonNegative(rows: map<nat, Row>, m: nat, n: nat)
    ensures RecomputedTotals(rows, m, n).longest >= 0
  {
    if m > 0 {
      LongestNonNegative(rows, m - 1, n);
    }
  }

  /** Conservation: summed over all applications, the cached statistics are those of all closed
      rows, each row counted exactly once. */
  lemma EachClosedRowCountedOnce(db: Db)
    requires Sound(db)
    ensures var t := Totals(db.apps, db.nextApp);
            && t == RowTotals(db.sessions, db.nextSession)
            && t.runs == |AllClosedIds(db.sessions, db.nextSession)|
            && t.full == ColumnSum(db.sessions, None, FullColumn, db.nextSession)
            && t.interactive == ColumnSum(db.sessions, None, InteractiveColumn, db.nextSession)
  {
    CachedTotals(db, db.nextApp);
    RowsSplitByOwner(db.sessions, db.nextApp, db.nextSession);
    RowTotalsSum(db.sessions, db.nextSession);
  }

  ghost function AllClosedIds(rows: map<nat, Row>, n: nat): set<nat> {
    set id | id in rows && id < n && rows[id].endedAt.Some?
  }

  lemma {:induction false} RowTotalsSum(rows: map<nat, Row>, n: nat)
    ensures var t := RowTotals(rows, n);
            && t.runs == |AllClosedIds(rows, n)|
            && t.full == ColumnSum(rows, None, FullColumn, n)
            && t.interactive == ColumnSum(rows, None, InteractiveColumn, n)
  {
    if n > 0 {
      RowTotalsSum(rows, n - 1);
      if IsClosed(rows, n - 1) {
        assert AllClosedIds(rows, n) == AllClosedIds(rows, n - 1) + {n - 1};
      } else {
        assert AllClosedIds(rows, n) == AllClosedIds(rows, n - 1);
      }
    }
  }

  // ---- What each transaction leaves alone and what it records -----------------------------

  /** `app'` is `app` but for its statistics and the time it was last played. */
  predicate SameIdentity(app: App, app': App) {
    app'.key == app.key && app'.firstSeen == app.firstSeen
  }

  /** No application has two open rows. */
  ghost predicate OneOpenEach(rows: map<nat, Row>) {
    forall s, t :: IsOpen(rows, s) && IsOpen(rows, t) && rows[s].app == rows[t].app ==> s == t
  }

  /** Two different applications that exist can be merged unless both have an open row, which is to
      say unless the merged rows would break the rule of one open row each. */
  lemma CanMergeIff(db: Db, src: nat, dst: nat)
    requires Schema(db) && src != dst && src in db.apps && dst in db.apps
    ensures CanMerge(db, src, dst) <==> OneOpenEach(Reparent(db.sessions, src, dst))
    ensures !CanMerge(db, src, src) && AfterMerge(db, src, src) == db
  {
    var rows' := Reparent(db.sessions, src, dst);
    if CanMerge(db, src, dst) {
      MergeKeepsSchema(db, src, dst);
    } else {
      var s :| IsOpen(db.sessions, s) && db.sessions[s].app == src;
      var t :| IsOpen(db.sessions, t) && db.sessions[t].app == dst;
      assert IsOpen(rows', s) && IsOpen(rows', t) && rows'[s].app == rows'[t].app;
    }
  }

  /** A new application has nothing played; the next id is its own and everything else stays. */
  lemma CreateRecords(db: Db, key: GameKey, at: int)
    requires Schema(db) && forall a :: a in db.apps ==> db.apps[a].key != key
    ensures var db', id := AfterCreate(db, key, at), db.nextApp;
            && id !in db.apps && db'.apps.Keys == db.apps.Keys + {id} && db'.nextApp == id + 1
            && db'.apps[id].key == key && db'.apps[id].firstSeen == at && db'.apps[id].lastPlayed.None?
            && db'.apps[id].stats == Stats(0, 0, 0, 0)
            && db'.apps - {id} == db.apps && db'.sessions == db.sessions && db'.nextSession == db.nextSession
    ensures FindByKey(AfterCreate(db, key, at).apps, key, db.nextApp + 1) == Some(db.nextApp)
  {
    assert AfterCreate(db, key, at).apps - {db.nextApp} == db.apps;
  }

  /** A new session is open, has lasted no time, and was alive when it began. */
  lemma BeginRecords(db: Db, app: nat, at: int)
    requires Schema(db) && app in db.apps && !HasOpenRow(db.sessions, app)
    ensures var db', id := AfterBegin(db, app, at), db.nextSession;
            && id !in db.sessions && db'.sessions.Keys == db.sessions.Keys + {id} && db'.nextSession == id + 1
            && var row := db'.sessions[id];
               row.app == app && row.startedAt == at && row.heartbeatAt == at && row.endedAt.None? && row.exit.None?
               && row.full == 0 && row.interactive == 0
               && db'.sessions - {id} == db.sessions && db'.apps == db.apps && db'.nextApp == db.nextApp
  {
    assert AfterBegin(db, app, at).sessions - {db.nextSession} == db.sessions;
  }

  /** After a merge the destination is the game it was, first seen when either was; every other
      application but the source is untouched; and a lookup finds what it found before, or nothing
      for the key of the source. */
  lemma MergeKeepsIdentities(db: Db, src: nat, dst: nat)
    requires Schema(db) && CanMerge(db, src, dst)
    ensures var apps' := AfterMerge(db, src, dst).apps;
            && apps'.Keys == db.apps.Keys - {src}
            && apps'[dst].key == db.apps[dst].key
            && apps'[dst].firstSeen == (if db.apps[src].firstSeen < db.apps[dst].firstSeen
                                        then db.apps[src].firstSeen else db.apps[dst].firstSeen)
            && (forall a :: a in apps' && a != dst ==> apps'[a] == db.apps[a])
            && (forall key :: FindByKey(apps', key, db.nextApp)
                              == if key == db.apps[src].key then None else FindByKey(db.apps, key, db.nextApp))
  {
    var apps' := AfterMerge(db, src, dst).apps;
    forall key
      ensures FindByKey(apps', key, db.nextApp)
              == if key == db.apps[src].key then None else FindByKey(db.apps, key, db.nextApp)
    {
      var before, after := FindByKey(db.apps, key, db.nextApp), FindByKey(apps', key, db.nextApp);
      if after.Some? {
        assert db.apps[after.value].key == key;
      }
      if before.Some? && before.value != src {
        assert apps'[before.value].key == key;
      }
    }
  }

  /** The rows of a merged database are the old ones, those of the source now the destination's. */
  lemma MergeKeepsRows(db: Db, src: nat, dst: nat)
    requires CanMerge(db, src, dst)
    ensures var rows' := AfterMerge(db, src, dst).sessions;
            && rows'.Keys == db.sessions.Keys
            && forall id :: id in rows' ==>
                 rows'[id] == if db.sessions[id].app == src then db.sessions[id].(app := dst) else db.sessions[id]
  {
  }

  /** What an accepted close writes, and that it writes nothing else. */
  lemma CloseRecords(db: Db, id: nat, app: nat, s: Snapshot, reason: ExitReason)
    requires Accepts(db, id, s) && app in db.apps
    ensures var db' := AfterClose(db, id, app, s, reason);
            var row, row' := db.sessions[id], db'.sessions[id];
            && row'.endedAt == Some(s.at) && row'.heartbeatAt == s.at && row'.exit == Some(reason)
            && row'.full == s.full && row'.interactive == s.interactive
            && row'.app == row.app && row'.startedAt == row.startedAt
            && db'.apps[app].lastPlayed == Some(s.at) && SameIdentity(db.apps[app], db'.apps[app])
            && db'.sessions - {id} == db.sessions - {id} && db'.apps - {app} == db.apps - {app}
  {
  }

  /** What a delete that is not refused leaves: every other row; each application that owned a
      deleted row with statistics and last play time of the rows left; every other as it was. */
  lemma DeleteRebuildsOwners(db: Db, ids: seq<nat>)
    requires Schema(db) && !NamesOpenRow(db, ids)
    ensures var db' := AfterDelete(db, ids);
            && db'.sessions == (map id | id in db.sessions && id !in ids :: db.sessions[id])
            && db'.apps.Keys == db.apps.Keys
            && forall a :: a in db.apps ==>
                 && SameIdentity(db.apps[a], db'.apps[a])
                 && if exists id :: id in ids && id in db.sessions && db.sessions[id].app == a
                    then Describes(db'.apps[a].stats, db'.sessions, a, db.nextSession)
                         && IsLatestEnd(db'.apps[a].lastPlayed, db'.sessions, a, db.nextSession)
                    else db'.apps[a] == db.apps[a]
  {
    var db' := AfterDelete(db, ids);
    forall a | a in db.apps
      ensures a in Owners(db.sessions, ids) <==> exists id :: id in ids && id in db.sessions && db.sessions[id].app == a
      ensures a in Owners(db.sessions, ids) ==> Describes(db'.apps[a].stats, db'.sessions, a, db.nextSession)
      ensures a in Owners(db.sessions, ids) ==> IsLatestEnd(db'.apps[a].lastPlayed, db'.sessions, a, db.nextSession)
    {
      RecomputeCountsAndBounds(db'.sessions, a, db.nextSession);
      LatestEndIsLatest(db'.sessions, a, db.nextSession);
    }
  }

  // ---- The database object ----------------------------------------------------------------

  /** `io` says whether the database carries the transaction out; when it does not, the
      transaction is rolled back. */
  class Database {
    var apps: map<nat, App>
    var sessions: map<nat, Row>
    var nextApp: nat
    var nextSession: nat

    ghost function Value(): Db
      reads this
    {
      Db(apps, sessions, nextApp, nextSession)
    }

    constructor ()
      ensures Value() == EMPTY && fresh(this)
    {
      apps, sessions, nextApp, nextSession := map[], map[], 1, 1;
    }

    method FindApplication(key: GameKey, io: bool) returns (r: Result<Option<nat>>)
      ensures r == if io then Ok(FindByKey(apps, key, nextApp)) else Err(Sql)
    {
      if !io {
        return Err(Sql);
      }
      r := Ok(FindByKey(apps, key, nextApp));
    }

    method CreateApplication(key: GameKey, at: int, io: bool) returns (r: Result<nat>)
      modifies this
      ensures Value() == if io then AfterCreate(old(Value()), key, at) else old(Value())
      ensures r.Ok? <==> io && FindByKey(old(apps), key, old(nextApp)).None?
      ensures r.Ok? ==> r.value == old(nextApp)
      ensures r.Err? ==> r.error == Sql
    {
      if !io || FindByKey(apps, key, nextApp).Some? {
        return Err(Sql);
      }
      r := Ok(nextApp);
      apps := apps[nextApp := App(key, NO_STATS, at, None)];
      nextApp := nextApp + 1;
    }

    method BeginSession(app: nat, at: int, io: bool) returns (r: Result<nat>)
      modifies this
      ensures Value() == if io then AfterBegin(old(Value()), app, at) else old(Value())
      ensures r == if !io || app !in old(apps) then Err(Sql)
                   else if HasOpenRow(old(sessions), app) then Err(OpenSessionExists(app))
                   else Ok(old(nextSession))
    {
      if !io || app !in apps {
        return Err(Sql);
      }
      if exists id | id in sessions :: IsOpen(sessions, id) && sessions[id].app == app {
        return Err(OpenSessionExists(app));
      }
      r := Ok(nextSession);
      sessions := sessions[nextSession := Row(app, at, None, at, 0, 0, None)];
      nextSession := nextSession + 1;
    }

    method HeartbeatSession(id: nat, s: Snapshot, io: bool) returns (r: Result<()>)
      modifies this`sessions
      ensures Value() == if io then AfterHeartbeat(old(Value()), id, s) else old(Value())
      ensures r.Ok? <==> io && (IsOpen(old(sessions), id) ==> CheckedRuntimes(s.full, s.interactive))
    {
      if !io {
        return Err(Sql);
      }
      if id in sessions && sessions[id].endedAt.None? {
        if !CheckedRuntimes(s.full, s.interactive) {
          return Err(Sql);
        }
        sessions := sessions[id := sessions[id].(heartbeatAt := s.at, full := s.full, interactive := s.interactive)];
      }
      r := Ok(());
    }

    method CloseAndRollup(id: nat, app: nat, s: Snapshot, reason: ExitReason, io: bool) returns (r: Result<()>)
      modifies this`sessions, this`apps
      ensures Value() == if io then AfterClose(old(Value()), id, app, s, reason) else old(Value())
      ensures r.Ok? <==> io && (IsOpen(old(sessions), id) ==> CheckedRuntimes(s.full, s.interactive))
    {
      if !io {
        return Err(Sql);
      }
      if id !in sessions || sessions[id].endedAt.Some? {
        return Ok(());  // no row matched: the runtime is already in the statistics
      }
      if !CheckedRuntimes(s.full, s.interactive) {
        return Err(Sql);
      }
      sessions := sessions[id := Closed(sessions[id], s, reason)];
      if app in apps {
        var old_ := apps[app].stats;
        apps := apps[app := apps[app].(
          stats := Stats(old_.runs + 1, old_.full + s.full, old_.interactive + s.interactive, Max(old_.longest, s.full)),
          lastPlayed := Some(s.at))];
      }
      r := Ok(());
    }

    method DeleteSessionsAndRecompute(ids: seq<nat>, io: bool) returns (r: Result<bool>)
      modifies this`sessions, this`apps
      ensures Value() == if io && ids != [] then AfterDelete(old(Value()), ids) else old(Value())
      ensures r == if ids == [] then Ok(false)
                   else if !io then Err(Sql)
                   else if NamesOpenRow(old(Value()), ids) then Err(Invariant)
                   else Ok(exists id :: id in ids && id in old(sessions))
    {
      if ids == [] {
        return Ok(false);
      }
      if !io {
        return Err(Sql);
      }
      var touched: set<nat>, matched := {}, false;
      for i := 0 to |ids|
        invariant touched == Owners(sessions, ids[..i])
        invariant matched <==> exists k :: 0 <= k < i && ids[k] in sessions
        invariant forall k :: 0 <= k < i ==> !IsOpen(sessions, ids[k])
      {
        assert forall id :: id in ids[..i + 1] <==> id in ids[..i] || id == ids[i];
        if ids[i] in sessions {
          if sessions[ids[i]].endedAt.None? {
            assert ids[i] in ids && IsOpen(Value().sessions, ids[i]);
            return Err(Invariant);
          }
          matched := true;
          touched := touched + {sessions[ids[i]].app};
        }
      }
      assert ids[..|ids|] == ids;
      if !matched {
        assert Without(sessions, ids) == sessions;
        assert AfterDelete(Value(), ids).apps == apps;
        return Ok(false);
      }
      var rows := sessions;
      for i := 0 to |ids|
        invariant rows == Without(sessions, ids[..i])
      {
        assert forall id :: id in ids[..i + 1] <==> id in ids[..i] || id == ids[i];
        rows := rows - {ids[i]};
      }
      var rebuilt, todo := apps, touched;
      while todo != {}
        invariant todo <= touched && rebuilt.Keys == apps.Keys
        invariant forall a :: a in apps ==>
                    rebuilt[a] == if a in touched - todo then Rebuilt(apps[a], rows, a, nextSession) else apps[a]
        decreases todo
      {
        var a :| a in todo;
        if a in rebuilt {
          rebuilt := rebuilt[a := Rebuilt(rebuilt[a], rows, a, nextSession)];
        }
        todo := todo - {a};
      }
      sessions, apps := rows, rebuilt;
      r := Ok(true);
    }

    method MergeInto(src: nat, dst: nat, io: bool) returns (r: Result<()>)
      modifies this`sessions, this`apps
      ensures Value() == if io then AfterMerge(old(Value()), src, dst) else old(Value())
      ensures r.Ok? <==> io && CanMerge(old(Value()), src, dst)
    {
      if src == dst {
        return Err(Invariant);
      }
      if !io {
        return Err(Sql);
      }
      if src !in apps || dst !in apps {
        return Err(Invariant);
      }
      var moved := Reparent(sessions, src, dst);
      if (exists id | id in sessions :: IsOpen(sessions, id) && sessions[id].app == src)
         && (exists id | id in sessions :: IsOpen(sessions, id) && sessions[id].app == dst) {
        return Err(Sql);  // the one-open-session index refuses the re-parented row
      }
      var from, to := apps[src], apps[dst];
      var combined := Stats(to.stats.runs + from.stats.runs, to.stats.full + from.stats.full,
                            to.stats.interactive + from.stats.interactive,
                            Max(to.stats.longest, from.stats.longest));
      sessions := moved;
      apps := apps[dst := to.(stats := combined, firstSeen := Min(to.firstSeen, from.firstSeen),
                              lastPlayed := ScalarMax(to.lastPlayed, from.lastPlayed))];
      apps := apps - {src};
      r := Ok(());
    }
  }
}
