/** What the ledger says of interactive runtime, over whole runs: every row, however it was
    closed, carries its full runtime less the idle time its session has to pay for. */
module Pricing {
  import opened Types
  import opened Ledger
  import opened SessionManager
  import opened DaemonRuns
  import Idle

  /** The moment a session's runtimes were last written, and the grace in force then. */
  datatype Written = Written(moment: Idle.Timeline, grace: nat)

  /** For each session, the moment it began and its last write. No step reads this. */
  datatype Audit = Audit(begun: map<nat, Idle.Timeline>, written: map<nat, Written>)

  ghost function NextAudit(w: World, a: Audit, step: Step): Audit
    requires Idle.Readable(w.clock)
  {
    match step
    case Start(key, _, _) =>
      var open := Next(w, step).s.open;
      if open == w.s.open then a
      else Audit(a.begun[open[key].id := w.clock], a.written[open[key].id := Written(w.clock, w.grace)])
    case Stop(key, _, io) => if w.up && key in w.s.open && io then Rewrite(w, a, key) else a
    case Beat(key, _, io) => if w.up && key in w.s.open && io then Rewrite(w, a, key) else a
    case _ => a
  }

  ghost function Rewrite(w: World, a: Audit, key: GameKey): Audit
    requires key in w.s.open
  {
    a.(written := a.written[w.s.open[key].id := Written(w.clock, w.grace)])
  }

  ghost function AuditOf(w: World, a: Audit, steps: seq<Step>): Audit
    requires Idle.Readable(w.clock)
  {
    if steps == [] then a
    else
      var init := steps[..|steps| - 1];
      NextAudit(RunFrom(w, init), AuditOf(w, a, init), steps[|steps| - 1])
  }

  // ---- The invariant ----------------------------------------------------------------------

  ghost predicate RowPriced(r: Row, begun: Idle.Timeline, last: Written) {
    && Idle.Later(begun, last.moment)
    && r.full == Idle.SecondsBetween(begun.now, last.moment.now)
    && r.interactive == Idle.Interactive(r.full, Idle.Billable(last.moment, Idle.BaselineOf(begun), last.grace))
  }

  ghost predicate EntryPriced(o: OpenSession, begun: Idle.Timeline, clock: Idle.Timeline) {
    Idle.Later(begun, clock) && o.started == begun.now && o.baseline == Idle.BaselineOf(begun)
  }

  ghost predicate EntriesPriced(w: World, a: Audit) {
    forall k :: k in w.s.open ==>
      w.s.open[k].id in a.begun && EntryPriced(w.s.open[k], a.begun[w.s.open[k].id], w.clock)
  }

  ghost predicate RowsPriced(rows: map<nat, Row>, a: Audit) {
    forall id :: id in rows ==>
      id in a.begun && id in a.written && RowPriced(rows[id], a.begun[id], a.written[id])
  }

  ghost predicate Priced(w: World, a: Audit) {
    EntriesPriced(w, a) && RowsPriced(w.s.db.sessions, a)
  }

  // ---- Each step --------------------------------------------------------------------------

  lemma StartedWithBaseline(s: State, blocked: bool, key: GameKey, at: int, clock: Idle.Timeline, io: StartIo)
    requires Idle.Readable(clock) && key !in s.open
    ensures var s' := AfterStarted(s, blocked, key, at, clock, io);
            key in s'.open ==> s'.open[key].baseline == Idle.BaselineOf(clock)
                               && s'.db.sessions[s'.open[key].id].interactive == 0
  {
  }

  lemma OpenedKeepsPriced(w: World, a: Audit, s': State, key: GameKey)
    requires Idle.WellTimed(w.clock) && EntriesOpen(w.s) && Priced(w, a) && Opened(w.s, s', key, w.clock)
    requires s'.open[key].baseline == Idle.BaselineOf(w.clock) && s'.db.sessions[s'.open[key].id].interactive == 0
    ensures var id := w.s.db.nextSession;
            Priced(w.(s := s'), Audit(a.begun[id := w.clock], a.written[id := Written(w.clock, w.grace)]))
  {
    forall k | k in s'.open && k != key
      ensures k in w.s.open && s'.open[k] == w.s.open[k] && w.s.open[k].id != w.s.db.nextSession
    {
      assert k in s'.open - {key};
      assert IsOpen(w.s.db.sessions, w.s.open[k].id);
    }
  }

  lemma StartKeepsPriced(w: World, a: Audit, key: GameKey, at: int, io: StartIo)
    requires Inv(w) && Priced(w, a)
    ensures Priced(Next(w, Start(key, at, io)), NextAudit(w, a, Start(key, at, io)))
  {
    if w.up && key !in w.s.open {
      var s' := AfterStarted(w.s, key in w.blocked, key, at, w.clock, io);
      StartOutcome(w, key, at, io);
      StartedWithBaseline(w.s, key in w.blocked, key, at, w.clock, io);
      if Opened(w.s, s', key, w.clock) {
        OpenedKeepsEntries(w.s, s', key, w.clock);
        OpenedKeepsPriced(w, a, s', key);
      }
    }
  }

  /** `rows'` is `rows` with the runtimes of session `id` written from the sample `snap`. */
  ghost predicate Sampled(rows: map<nat, Row>, rows': map<nat, Row>, id: nat, snap: Snapshot) {
    && rows'.Keys == rows.Keys && id in rows
    && (forall i :: i in rows && i != id ==> rows'[i] == rows[i])
    && rows'[id].full == snap.full && rows'[id].interactive == snap.interactive
  }

  lemma SampleIsPriced(o: OpenSession, begun: Idle.Timeline, clock: Idle.Timeline, grace: nat, at: int, r: Row)
    requires Idle.Readable(clock) && EntryPriced(o, begun, clock)
    requires r.full == Sample(o, clock, grace, at).full && r.interactive == Sample(o, clock, grace, at).interactive
    ensures RowPriced(r, begun, Written(clock, grace))
  {
  }

  lemma SampledRowsPriced(w: World, a: Audit, key: GameKey, at: int, rows': map<nat, Row>)
    requires Idle.Readable(w.clock) && Priced(w, a) && key in w.s.open
    requires Sampled(w.s.db.sessions, rows', w.s.open[key].id, Sample(w.s.open[key], w.clock, w.grace, at))
    ensures RowsPriced(rows', Rewrite(w, a, key))
  {
    var o := w.s.open[key];
    SampleIsPriced(o, a.begun[o.id], w.clock, w.grace, at, rows'[o.id]);
  }

  lemma WritesSample(db: Db, id: nat, app: nat, snap: Snapshot)
    requires Accepts(db, id, snap)
    ensures Sampled(db.sessions, AfterClose(db, id, app, snap, Terminated).sessions, id, snap)
    ensures Sampled(db.sessions, AfterHeartbeat(db, id, snap).sessions, id, snap)
  {
  }

  lemma WritesPriced(w: World, a: Audit, key: GameKey, at: int)
    requires Inv(w) && Priced(w, a) && key in w.s.open
    ensures RowsPriced(AfterStopped(w.s, key, at, w.clock, w.grace, true).db.sessions, Rewrite(w, a, key))
    ensures RowsPriced(AfterBeat(w.s, key, at, w.clock, w.grace, true).db.sessions, Rewrite(w, a, key))
  {
    var o := w.s.open[key];
    SampleChecked(o, w.clock, w.grace, at);
    WritesSample(w.s.db, o.id, o.app, Sample(o, w.clock, w.grace, at));
    SampledRowsPriced(w, a, key, at, AfterStopped(w.s, key, at, w.clock, w.grace, true).db.sessions);
    SampledRowsPriced(w, a, key, at, AfterBeat(w.s, key, at, w.clock, w.grace, true).db.sessions);
  }

  lemma StopKeepsPriced(w: World, a: Audit, key: GameKey, at: int, io: bool)
    requires Inv(w) && Priced(w, a)
    ensures Priced(Next(w, Stop(key, at, io)), NextAudit(w, a, Stop(key, at, io)))
  {
    if w.up && key in w.s.open && io {
      WritesPriced(w, a, key, at);
    }
  }

  lemma BeatKeepsPriced(w: World, a: Audit, key: GameKey, at: int, io: bool)
    requires Inv(w) && Priced(w, a)
    ensures Priced(Next(w, Beat(key, at, io)), NextAudit(w, a, Beat(key, at, io)))
  {
    if w.up && key in w.s.open && io {
      WritesPriced(w, a, key, at);
    }
  }

  /** Rows of `rows'` are rows of `rows` with the same runtimes. */
  ghost predicate SameRuntimes(rows: map<nat, Row>, rows': map<nat, Row>) {
    forall id :: id in rows' ==>
      id in rows && rows'[id].full == rows[id].full && rows'[id].interactive == rows[id].interactive
  }

  lemma OutsideKeepsRuntimes(w: World, step: Step)
    requires Idle.Readable(w.clock) && !step.Start? && !step.Stop? && !step.Beat?
    ensures SameRuntimes(w.s.db.sessions, Next(w, step).s.db.sessions)
    ensures Next(w, step).s.open == if step.Crash? then map[] else w.s.open
  {
  }

  lemma ClockGoesOn(w: World, step: Step, w0: Idle.Timeline)
    requires Idle.Readable(w.clock) && !step.Crash? && Idle.Later(w0, w.clock)
    ensures Idle.Later(w0, Next(w, step).clock)
  {
    match step {
      case Pass(ns) => Idle.StepLater(w0, w.clock, Idle.Advance(ns));
      case IdleEdge(idle) => Idle.StepLater(w0, w.clock, Idle.Edge(idle));
      case _ =>
    }
  }

  lemma OutsideKeepsPriced(w: World, a: Audit, step: Step)
    requires Idle.Readable(w.clock) && Priced(w, a) && !step.Start? && !step.Stop? && !step.Beat?
    ensures Priced(Next(w, step), a)
  {
    OutsideKeepsRuntimes(w, step);
    forall k | k in Next(w, step).s.open
      ensures Idle.Later(a.begun[w.s.open[k].id], Next(w, step).clock)
    {
      ClockGoesOn(w, step, a.begun[w.s.open[k].id]);
    }
  }

  lemma NextKeepsPriced(w: World, a: Audit, step: Step)
    requires Inv(w) && Priced(w, a)
    ensures Priced(Next(w, step), NextAudit(w, a, step))
  {
    match step {
      case Start(key, at, io) => StartKeepsPriced(w, a, key, at, io);
      case Stop(key, at, io) => StopKeepsPriced(w, a, key, at, io);
      case Beat(key, at, io) => BeatKeepsPriced(w, a, key, at, io);
      case _ => OutsideKeepsPriced(w, a, step);
    }
  }

  lemma {:induction false} RunKeepsPriced(w: World, a: Audit, steps: seq<Step>)
    requires Inv(w) && Priced(w, a)
    ensures Priced(RunFrom(w, steps), AuditOf(w, a, steps))
  {
    if steps != [] {
      var init := steps[..|steps| - 1];
      RunKeepsPriced(w, a, init);
      RunKeepsInv(w, init);
      NextKeepsPriced(RunFrom(w, init), AuditOf(w, a, init), steps[|steps| - 1]);
    }
  }

  // ---- What a row says --------------------------------------------------------------------

  const NO_AUDIT := Audit(map[], map[])

  /** Full runtime is the time from `begun` to the last write, interactive runtime that less the
      growth of the price of idling, at the grace in force at the write. */
  ghost predicate PaysForIdling(r: Row, begun: Idle.Timeline, last: Written) {
    && Idle.Readable(begun) && Idle.Readable(last.moment) && begun.now <= last.moment.now
    && r.full == Idle.SecondsBetween(begun.now, last.moment.now)
    && var price := Idle.Price(last.moment, last.grace) - Idle.Price(begun, last.grace);
       price >= 0 && r.interactive == Max(0, r.full - price)
  }

  lemma PricedRow(r: Row, begun: Idle.Timeline, last: Written)
    requires RowPriced(r, begun, last)
    ensures PaysForIdling(r, begun, last)
  {
    Idle.BillIsPriceGrowth(begun, last.moment, last.grace);
    Idle.PriceGrows(begun, last.moment, last.grace);
  }

  ghost predicate AllPayForIdling(rows: map<nat, Row>, a: Audit) {
    forall id :: id in rows ==>
      id in a.begun && id in a.written && PaysForIdling(rows[id], a.begun[id], a.written[id])
  }

  lemma PricedRows(rows: map<nat, Row>, a: Audit)
    requires RowsPriced(rows, a)
    ensures AllPayForIdling(rows, a)
  {
    forall id | id in rows
      ensures PaysForIdling(rows[id], a.begun[id], a.written[id])
    {
      PricedRow(rows[id], a.begun[id], a.written[id]);
    }
  }

  /** In every run, whatever fails and wherever it crashes, every row pays for exactly the idling
      of its own session, each natural interval's grace counted once. */
  lemma EveryRowPaysForIdling(steps: seq<Step>)
    ensures AllPayForIdling(After(steps).s.db.sessions, AuditOf(INIT, NO_AUDIT, steps))
  {
    RunKeepsPriced(INIT, NO_AUDIT, steps);
    PricedRows(After(steps).s.db.sessions, AuditOf(INIT, NO_AUDIT, steps));
  }
}
