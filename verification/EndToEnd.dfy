/** From the sources to the ledger: what the session manager holds open, given what the Steam
    source and the foreground source have seen. */
module EndToEnd {
  import opened Types
  import opened Ledger
  import opened SessionManager
  import opened DaemonRuns
  import opened Streams
  import Idle
  import SteamLog
  import Foreground
  import Text

  // ---- The manager against one stream of events -------------------------------------------

  /** The events a run feeds to the manager. */
  function EventsOf(steps: seq<Step>): seq<GameEvent> {
    if steps == [] then []
    else
      var last := steps[|steps| - 1];
      EventsOf(steps[..|steps| - 1]) + match last
                                       case Start(key, _, _) => [Started(key)]
                                       case Stop(key, _, _) => [Stopped(key)]
                                       case _ => []
  }

  /** The database carries out what starts and stops ask of it, and the daemon does not crash.
      Failing heartbeats and deletes are harmless. */
  predicate Healthy(step: Step) {
    match step
    case Start(_, _, io) => io == StartIo(true, true, true)
    case Stop(_, _, io) => io
    case Crash => false
    case _ => true
  }

  ghost predicate AllHealthy(steps: seq<Step>) {
    forall i :: 0 <= i < |steps| ==> Healthy(steps[i])
  }

  /** `running` after one more step. */
  function Adjusted(running: set<GameKey>, step: Step): set<GameKey> {
    match step
    case Start(key, _, _) => running + {key}
    case Stop(key, _, _) => running - {key}
    case _ => running
  }

  /** `dropped` after one more step: a start that meets the blocklist is dropped until its stop. */
  function DroppedBy(blocked: set<GameKey>, dropped: set<GameKey>, step: Step): set<GameKey> {
    match step
    case Start(key, _, _) => if key in blocked then dropped + {key} else dropped
    case Stop(key, _, _) => dropped - {key}
    case _ => dropped
  }

  /** Keys whose latest start met the blocklist and that have not stopped since. */
  ghost function Dropped(w: World, steps: seq<Step>): set<GameKey>
    requires Idle.Readable(w.clock)
  {
    if steps == [] then {}
    else
      var init := steps[..|steps| - 1];
      DroppedBy(RunFrom(w, init).blocked, Dropped(w, init), steps[|steps| - 1])
  }

  /** A start that gets through the blocklist and finds its game untracked opens a session. */
  lemma StartOpens(w: World, key: GameKey, at: int)
    requires Inv(w) && w.up && OpenRowsTracked(w.s) && key !in w.s.open && key !in w.blocked
    ensures Next(w, Start(key, at, StartIo(true, true, true))).s.open.Keys == w.s.open.Keys + {key}
  {
    UntrackedKeyHasNoOpenRow(w.s, key);
    var found := FindByKey(w.s.db.apps, key, w.s.db.nextApp);
    if found.None? {
      assert forall id :: id in w.s.db.sessions ==> w.s.db.sessions[id].app < w.s.db.nextApp;
      assert !HasOpenRow(AfterCreate(w.s.db, key, at).sessions, w.s.db.nextApp);
    }
  }

  lemma StopRemoves(w: World, key: GameKey, at: int)
    requires Inv(w) && w.up
    ensures Next(w, Stop(key, at, true)).s.open.Keys == w.s.open.Keys - {key}
  {
  }

  lemma OtherStepsKeepOpen(w: World, step: Step)
    requires Inv(w) && w.up && !step.Start? && !step.Stop? && !step.Crash?
    ensures Next(w, step).s.open == w.s.open
  {
  }

  /** Every open row is tracked, and what is open is `running` less `dropped`. */
  ghost predicate Holds(w: World, running: set<GameKey>, dropped: set<GameKey>) {
    w.up && OpenRowsTracked(w.s) && dropped <= running && w.s.open.Keys == running - dropped
  }

  /** No duplicate start, and a stop of an unknown key exactly for a start that was dropped. */
  ghost predicate Expected(open: set<GameKey>, dropped: set<GameKey>, next: Step) {
    && (next.Start? ==> next.key !in open)
    && (next.Stop? ==> (next.key !in open <==> next.key in dropped))
  }

  ghost predicate ExpectedAt(w: World, steps: seq<Step>, n: nat)
    requires Idle.Readable(w.clock) && n < |steps|
  {
    Expected(RunFrom(w, steps[..n]).s.open.Keys, Dropped(w, steps[..n]), steps[n])
  }

  predicate Alternating(running: set<GameKey>, step: Step) {
    && (step.Start? ==> step.key !in running)
    && (step.Stop? ==> step.key in running)
  }

  lemma EventsOfFront(steps: seq<Step>)
    requires steps != [] && Alternates({}, EventsOf(steps))
    ensures var init, last := steps[..|steps| - 1], steps[|steps| - 1];
            && Alternates({}, EventsOf(init))
            && Alternating(RunningAfter({}, EventsOf(init)), last)
            && RunningAfter({}, EventsOf(steps)) == Adjusted(RunningAfter({}, EventsOf(init)), last)
  {
    var evs, before := EventsOf(steps), EventsOf(steps[..|steps| - 1]);
    if steps[|steps| - 1].Start? || steps[|steps| - 1].Stop? {
      assert evs[..|evs| - 1] == before;
    } else {
      assert evs == before;
    }
  }

  lemma NextTracksAll(w: World, step: Step)
    requires Inv(w) && w.up && OpenRowsTracked(w.s) && Healthy(step)
    ensures Next(w, step).up && OpenRowsTracked(Next(w, step).s)
  {
    assert !CloseFails(w, step);
    TrackingLostIffCloseFails(w, step);
  }

  lemma NextOpens(w: World, step: Step)
    requires Inv(w) && w.up && OpenRowsTracked(w.s) && Healthy(step)
    requires step.Start? ==> step.key !in w.s.open
    ensures Next(w, step).s.open.Keys
            == if step.Start? && step.key in w.blocked then w.s.open.Keys else Adjusted(w.s.open.Keys, step)
  {
    match step {
      case Start(key, at, io) =>
        if key !in w.blocked {
          StartOpens(w, key, at);
        }
      case Stop(key, at, io) => StopRemoves(w, key, at);
      case _ => OtherStepsKeepOpen(w, step);
    }
  }

  lemma NextHolds(w: World, step: Step, running: set<GameKey>, dropped: set<GameKey>)
    requires Inv(w) && Holds(w, running, dropped) && Healthy(step) && Alternating(running, step)
    ensures Holds(Next(w, step), Adjusted(running, step), DroppedBy(w.blocked, dropped, step))
    ensures Expected(w.s.open.Keys, dropped, step)
  {
    NextTracksAll(w, step);
    NextOpens(w, step);
  }

  lemma RunFromLast(w: World, steps: seq<Step>)
    requires Idle.Readable(w.clock) && steps != []
    ensures RunFrom(w, steps) == Next(RunFrom(w, steps[..|steps| - 1]), steps[|steps| - 1])
  {
  }

  /** Fed a stream in which every key's starts and stops alternate, the manager holds open
      exactly the running keys not dropped at their start. */
  lemma {:induction false} ManagerFollows(w: World, steps: seq<Step>)
    requires Inv(w) && JustBooted(w) && AllHealthy(steps) && Alternates({}, EventsOf(steps))
    ensures Holds(RunFrom(w, steps), RunningAfter({}, EventsOf(steps)), Dropped(w, steps))
    ensures steps != [] ==> ExpectedAt(w, steps, |steps| - 1)
  {
    if steps != [] {
      var init, last := steps[..|steps| - 1], steps[|steps| - 1];
      EventsOfFront(steps);
      ManagerFollows(w, init);
      RunKeepsInv(w, init);
      RunFromLast(w, steps);
      NextHolds(RunFrom(w, init), last, RunningAfter({}, EventsOf(init)), Dropped(w, init));
    }
  }

  lemma {:induction false} EventsOfPrefix(steps: seq<Step>, n: nat)
    requires n <= |steps| && Alternates({}, EventsOf(steps))
    ensures Alternates({}, EventsOf(steps[..n]))
  {
    if n < |steps| {
      EventsOfFront(steps);
      EventsOfPrefix(steps[..|steps| - 1], n);
      assert steps[..|steps| - 1][..n] == steps[..n];
    } else {
      assert steps[..n] == steps;
    }
  }

  /** On the way it never meets a duplicate start, and meets the stop of an unknown key exactly
      when it dropped that key's start. */
  lemma ManagerNeverSurprised(before: seq<Step>, steps: seq<Step>, n: nat)
    requires JustBooted(After(before)) && AllHealthy(steps) && Alternates({}, EventsOf(steps)) && n < |steps|
    ensures ExpectedAt(After(before), steps, n)
  {
    EveryRunKeepsInv(before);
    EventsOfPrefix(steps, n + 1);
    HealthyPrefix(steps, n + 1);
    LastExpected(After(before), steps[..n + 1]);
    ExpectedOfPrefix(After(before), steps, n);
  }

  lemma LastExpected(w: World, steps: seq<Step>)
    requires Inv(w) && JustBooted(w) && AllHealthy(steps) && Alternates({}, EventsOf(steps)) && steps != []
    ensures ExpectedAt(w, steps, |steps| - 1)
  {
    ManagerFollows(w, steps);
  }

  lemma ExpectedOfPrefix(w: World, steps: seq<Step>, n: nat)
    requires Idle.Readable(w.clock) && n < |steps| && ExpectedAt(w, steps[..n + 1], n)
    ensures ExpectedAt(w, steps, n)
  {
    assert steps[..n + 1][..n] == steps[..n];
  }

  lemma HealthyPrefix(steps: seq<Step>, n: nat)
    requires n <= |steps| && AllHealthy(steps)
    ensures AllHealthy(steps[..n])
  {
    forall i | 0 <= i < n
      ensures Healthy(steps[..n][i])
    {
      assert Healthy(steps[i]);
    }
  }

  // ---- Both sources -----------------------------------------------------------------------

  /** The Steam source after its cold-start scan and one drain for each file content. */
  function SteamAfter(ms: seq<SteamLog.Manifest>, live: Option<set<string>>, cursor: nat,
                      contents: seq<seq<Text.Byte>>): SteamLog.Tail
  {
    if contents == [] then SteamLog.Tail(cursor, SteamLog.AfterScan(ms, live))
    else
      SteamLog.AfterDrain(SteamAfter(ms, live, cursor, contents[..|contents| - 1]), contents[|contents| - 1])
  }

  lemma {:induction false} SteamStaysFaithful(ms: seq<SteamLog.Manifest>, live: Option<set<string>>, cursor: nat,
                                              contents: seq<seq<Text.Byte>>)
    ensures SteamLog.Faithful(SteamAfter(ms, live, cursor, contents).seen)
  {
    if contents == [] {
      SteamLog.ScanStartsEachRunningGameOnce(ms, live);
    } else {
      SteamStaysFaithful(ms, live, cursor, contents[..|contents| - 1]);
      SteamLog.DrainKeepsFaithful(SteamAfter(ms, live, cursor, contents[..|contents| - 1]), contents[|contents| - 1]);
    }
  }

  lemma AlternatesPrefix(evs: seq<GameEvent>, n: nat)
    requires n <= |evs| && Alternates({}, evs)
    ensures Alternates({}, evs[..n])
  {
    AlternatesConcat({}, evs[..n], evs[n..]);
    assert evs == evs[..n] + evs[n..];
  }

  /** While events are still on their way: whatever the sources saw, and in whatever order the
      first `i` Steam and the first `j` foreground events reached the manager, its stream
      alternates, and what it holds open are the keys that run according to these events, less
      those dropped by the blocklist at their start. */
  lemma OpenFollowsDeliveredEvents(
    before: seq<Step>, steps: seq<Step>, ms: seq<SteamLog.Manifest>, live: Option<set<string>>, cursor: nat,
    contents: seq<seq<Text.Byte>>, turns: seq<Foreground.Turn>, self: nat, i: nat, j: nat)
    requires JustBooted(After(before)) && AllHealthy(steps)
    requires i <= |SteamAfter(ms, live, cursor, contents).seen.events|
    requires j <= |Sent(turns, self)|
    requires IsShuffle(SteamAfter(ms, live, cursor, contents).seen.events[..i], Sent(turns, self)[..j], EventsOf(steps))
    ensures Alternates({}, EventsOf(steps))
    ensures Holds(RunFrom(After(before), steps),
                  RunningAfter({}, SteamAfter(ms, live, cursor, contents).seen.events[..i])
                  + RunningAfter({}, Sent(turns, self)[..j]),
                  Dropped(After(before), steps))
  {
    var seen, sent := SteamAfter(ms, live, cursor, contents).seen, Sent(turns, self);
    SteamStaysFaithful(ms, live, cursor, contents);
    SentAlternates(turns, self);
    PrefixesShuffle(seen.events, sent, i, j, EventsOf(steps));
    EveryRunKeepsInv(before);
    ManagerFollows(After(before), steps);
  }

  lemma PrefixesShuffle(a: seq<GameEvent>, b: seq<GameEvent>, i: nat, j: nat, c: seq<GameEvent>)
    requires i <= |a| && j <= |b| && Alternates({}, a) && Alternates({}, b) && IsShuffle(a[..i], b[..j], c)
    requires forall n :: 0 <= n < |a| ==> FromSteam(a[n])
    requires forall n :: 0 <= n < |b| ==> !FromSteam(b[n])
    ensures Alternates({}, c) && RunningAfter({}, c) == RunningAfter({}, a[..i]) + RunningAfter({}, b[..j])
  {
    AlternatesPrefix(a, i);
    AlternatesPrefix(b, j);
    forall n | 0 <= n < j
      ensures !FromSteam(b[..j][n])
    {
      assert !FromSteam(b[n]);
    }
    ShuffleAlternates({}, {}, a[..i], b[..j], c);
    var none: set<GameKey> := {};
    assert none + none == none;
  }

  /** What the foreground runner has sent, with its closing stop. */
  function Sent(turns: seq<Foreground.Turn>, self: nat): seq<GameEvent> {
    var r := Foreground.AfterTurns(Foreground.IDLE, turns, self);
    r.sent + Foreground.Closing(r.state)
  }

  lemma SentAlternates(turns: seq<Foreground.Turn>, self: nat)
    ensures var r := Foreground.AfterTurns(Foreground.IDLE, turns, self);
            && Alternates({}, Sent(turns, self)) && RunningAfter({}, Sent(turns, self)) == {}
            && Sent(turns, self)[..|r.sent|] == r.sent
            && Alternates({}, r.sent) && RunningAfter({}, r.sent) == Foreground.CurrentKeys(r.state)
            && forall n :: 0 <= n < |Sent(turns, self)| ==> !FromSteam(Sent(turns, self)[n])
  {
    var r := Foreground.AfterTurns(Foreground.IDLE, turns, self);
    Foreground.ForegroundAlternates(turns, self);
    Foreground.RunnerStaysOrderly(turns, self);
    if r.state.Current().Some? {
      assert !FromSteam(r.sent[|r.sent| - 1]);
    }
  }

  /** Once every event has arrived, the games with an open session are the Steam games whose
      running flag is set and the game tracked in the foreground, less those dropped. */
  lemma OpenFollowsSources(
    before: seq<Step>, steps: seq<Step>, ms: seq<SteamLog.Manifest>, live: Option<set<string>>, cursor: nat,
    contents: seq<seq<Text.Byte>>, turns: seq<Foreground.Turn>, self: nat)
    requires JustBooted(After(before)) && AllHealthy(steps)
    requires IsShuffle(SteamAfter(ms, live, cursor, contents).seen.events,
                       Foreground.AfterTurns(Foreground.IDLE, turns, self).sent, EventsOf(steps))
    ensures RunFrom(After(before), steps).s.open.Keys
            == SteamLog.SteamKeys(SteamAfter(ms, live, cursor, contents).seen.running)
               + Foreground.CurrentKeys(Foreground.AfterTurns(Foreground.IDLE, turns, self).state)
               - Dropped(After(before), steps)
  {
    var seen := SteamAfter(ms, live, cursor, contents).seen;
    var r := Foreground.AfterTurns(Foreground.IDLE, turns, self);
    SteamStaysFaithful(ms, live, cursor, contents);
    SentAlternates(turns, self);
    assert seen.events[..|seen.events|] == seen.events;
    OpenFollowsDeliveredEvents(before, steps, ms, live, cursor, contents, turns, self, |seen.events|, |r.sent|);
  }
}
