/** The foreground source: which game is tracked, through focus changes, process exits and the
    grace timer between losing focus and stopping. */
module Foreground {
  import opened Types
  import opened Streams
  import Text

  // ---- Gate verdicts ----------------------------------------------------------------------

  datatype Attribution = Heroic(appName: string) | Lutris(uuid: string)

  datatype Process = Process(path: string, attribution: Option<Attribution>)

  datatype Decision = Accept(process: Process) | Reject

  datatype Window = Window(pid: nat, resourceClass: string, caption: string)

  // ---- Transitions ------------------------------------------------------------------------

  datatype Tracked = Tracked(pid: nat, key: GameKey, path: string)

  datatype State =
    | NotTracked
    | Focused(game: Tracked)
    | Backgrounded(game: Tracked)
  {
    function Current(): Option<Tracked> {
      if NotTracked? then None else Some(game)
    }
  }

  datatype TimerOp = NoChange | StartTimer | CancelTimer

  datatype TransitionEvent =
    | Start(key: GameKey, path: string, name: string)
    | Stop(key: GameKey)

  datatype Outcome = Outcome(events: seq<TransitionEvent>, state: State, timer: TimerOp)

  function Noop(state: State): Outcome {
    Outcome([], state, NoChange)
  }

  function NativeKey(p: Process): (k: GameKey)
    ensures k.launcher in {LauncherType.Heroic, LauncherType.Lutris, Native}
  {
    match p.attribution
    case Some(Heroic(name)) => GameKey(LauncherType.Heroic, name)
    case Some(Lutris(uuid)) => GameKey(LauncherType.Lutris, uuid)
    case None => GameKey(Native, p.path)
  }

  function DisplayName(w: Window, key: GameKey): string {
    if Text.Trim(w.resourceClass) != "" then w.resourceClass
    else if Text.Trim(w.caption) != "" then w.caption
    else key.id
  }

  function NextAction(state: State, w: Window, decision: Decision, pause: bool): Outcome {
    if state.Current().Some? && state.Current().value.pid == w.pid then
      if state.Backgrounded? then Outcome([], Focused(state.game), CancelTimer) else Noop(state)
    else
      match decision
      case Accept(p) =>
        var game := Tracked(w.pid, NativeKey(p), p.path);
        var start := Start(game.key, p.path, DisplayName(w, game.key));
        (match state
         case NotTracked => Outcome([start], Focused(game), NoChange)
         case Focused(prev) => Outcome([Stop(prev.key), start], Focused(game), NoChange)
         case Backgrounded(prev) => Outcome([Stop(prev.key), start], Focused(game), CancelTimer))
      case Reject =>
        match state
        case NotTracked => Noop(NotTracked)
        case Focused(game) => if pause then Outcome([], Backgrounded(game), StartTimer) else Noop(state)
        case Backgrounded(_) => Noop(state)
  }

  function OnGraceTimeout(state: State, pause: bool): Outcome {
    match state
    case Backgrounded(game) =>
      if pause then Outcome([Stop(game.key)], NotTracked, NoChange) else Outcome([], Focused(game), NoChange)
    case _ => Noop(state)
  }

  function OnTrackedExit(state: State, pid: nat): Outcome {
    if state.Current().Some? && state.Current().value.pid == pid
    then Outcome([Stop(state.Current().value.key)], NotTracked, CancelTimer)
    else Noop(state)
  }

  // ---- The runner -------------------------------------------------------------------------

  /** What the runner holds between two turns of its loop, and what it has sent. */
  datatype Runner = Runner(state: State, timer: Option<int>, watched: set<nat>, sent: seq<GameEvent>)

  datatype Input =
    | Activated(window: Window, decision: Decision)
    | Exited(pid: nat)
    | TimerDue

  /** One turn: the time, the live settings and what woke the loop. */
  datatype Turn = Turn(now: int, pause: bool, grace: nat, input: Input)

  const IDLE := Runner(NotTracked, None, {}, [])

  function Sent(e: TransitionEvent): GameEvent {
    match e
    case Start(key, _, _) => Started(key)
    case Stop(key) => Stopped(key)
  }

  function AllSent(es: seq<TransitionEvent>): seq<GameEvent> {
    if es == [] then [] else AllSent(es[..|es| - 1]) + [Sent(es[|es| - 1])]
  }

  predicate Starts(es: seq<TransitionEvent>) {
    exists i :: 0 <= i < |es| && es[i].Start?
  }

  /** `apply_outcome`. */
  function Applied(r: Runner, o: Outcome, now: int, grace: nat): Runner {
    Runner(o.state,
           match o.timer {
             case NoChange => r.timer
             case StartTimer => Some(now + grace)
             case CancelTimer => None
           },
           if Starts(o.events) && o.state.Current().Some? then r.watched + {o.state.Current().value.pid} else r.watched,
           r.sent + AllSent(o.events))
  }

  /** The loop ignores windows of the daemon itself, and a timer that is not armed or not due. */
  function AfterTurn(r: Runner, t: Turn, self: nat): Runner {
    match t.input
    case Activated(w, decision) =>
      if w.pid == self then r else Applied(r, NextAction(r.state, w, decision, t.pause), t.now, t.grace)
    case Exited(pid) => Applied(r, OnTrackedExit(r.state, pid), t.now, t.grace)
    case TimerDue =>
      if r.timer.None? || t.now < r.timer.value then r
      else Applied(r.(timer := None), OnGraceTimeout(r.state, t.pause), t.now, t.grace)
  }

  function AfterTurns(r: Runner, ts: seq<Turn>, self: nat): Runner {
    if ts == [] then r else AfterTurn(AfterTurns(r, ts[..|ts| - 1], self), ts[|ts| - 1], self)
  }

  /** On the way out the tracked game, in focus or not, is stopped. */
  function Closing(state: State): seq<GameEvent> {
    if state.Current().Some? then [Stopped(state.Current().value.key)] else []
  }

  // ---- The invariant ----------------------------------------------------------------------

  /** Start k, Stop k, Start k', Stop k', ..., possibly ending on a start. */
  predicate InPairs(evs: seq<GameEvent>) {
    forall i :: 0 <= i < |evs| ==> PairedAt(evs, i)
  }

  predicate PairedAt(evs: seq<GameEvent>, i: nat)
    requires i < |evs|
  {
    if i % 2 == 0 then evs[i].Started? else evs[i] == Stopped(evs[i - 1].key)
  }

  lemma PairsExtend(evs: seq<GameEvent>, e: GameEvent)
    requires InPairs(evs) && PairedAt(evs + [e], |evs|)
    ensures InPairs(evs + [e])
  {
    forall i | 0 <= i < |evs + [e]|
      ensures PairedAt(evs + [e], i)
    {
      assert i < |evs| ==> PairedAt(evs, i);
    }
  }

  lemma PairsShrink(evs: seq<GameEvent>)
    requires evs != [] && InPairs(evs)
    ensures InPairs(evs[..|evs| - 1])
  {
    var init := evs[..|evs| - 1];
    forall i | 0 <= i < |init|
      ensures PairedAt(init, i)
    {
      assert PairedAt(evs, i);
    }
  }

  /** The events sent are pairs, the last one unfinished exactly while a game is tracked. */
  ghost predicate Narrates(sent: seq<GameEvent>, current: Option<Tracked>) {
    && InPairs(sent)
    && (|sent| % 2 == 1 <==> current.Some?)
    && (current.Some? ==> sent[|sent| - 1] == Started(current.value.key))
    && (forall i :: 0 <= i < |sent| ==> !FromSteam(sent[i]))
  }

  ghost predicate Orderly(r: Runner) {
    && Narrates(r.sent, r.state.Current())
    && (r.state.Current().Some? ==> r.state.Current().value.pid in r.watched)
    && (r.timer.Some? <==> r.state.Backgrounded?)
  }

  lemma AllSentTwo(a: TransitionEvent, b: TransitionEvent)
    ensures AllSent([]) == [] && AllSent([a]) == [Sent(a)] && AllSent([a, b]) == [Sent(a), Sent(b)]
  {
    assert [a][..0] == [] && [a, b][..1] == [a];
  }

  lemma StopNarrates(sent: seq<GameEvent>, game: Tracked)
    requires Narrates(sent, Some(game))
    ensures Narrates(sent + [Stopped(game.key)], None)
  {
    PairsExtend(sent, Stopped(game.key));
  }

  lemma StartNarrates(sent: seq<GameEvent>, game: Tracked)
    requires Narrates(sent, None) && game.key.launcher != Steam
    ensures Narrates(sent + [Started(game.key)], Some(game))
  {
    PairsExtend(sent, Started(game.key));
  }

  /** The outcomes there are: the same game goes on, it stops, or another one takes over. */
  ghost predicate Continues(r: Runner, o: Outcome) {
    || (o.events == [] && o.state.Current() == r.state.Current())
    || (r.state.Current().Some? && o.events == [Stop(r.state.Current().value.key)] && o.state == NotTracked)
    || (o.state.Focused? && o.state.game.key.launcher != Steam
        && exists path, name ::
             var start := Start(o.state.game.key, path, name);
             o.events == if r.state.NotTracked? then [start] else [Stop(r.state.game.key), start])
  }

  lemma AppliedNarrates(r: Runner, o: Outcome, now: int, grace: nat)
    requires Narrates(r.sent, r.state.Current()) && Continues(r, o)
    requires r.state.Current().Some? ==> r.state.Current().value.pid in r.watched
    ensures var r' := Applied(r, o, now, grace);
            && Narrates(r'.sent, r'.state.Current())
            && (r'.state.Current().Some? ==> r'.state.Current().value.pid in r'.watched)
  {
    var r' := Applied(r, o, now, grace);
    if o.events == [] {
      assert r'.sent == r.sent;
    } else if o.state == NotTracked {
      AllSentTwo(o.events[0], o.events[0]);
      StopNarrates(r.sent, r.state.game);
    } else if r.state.NotTracked? {
      AllSentTwo(o.events[0], o.events[0]);
      assert Starts(o.events) by { assert o.events[0].Start?; }
      StartNarrates(r.sent, o.state.game);
    } else {
      AllSentTwo(o.events[0], o.events[1]);
      assert Starts(o.events) by { assert o.events[1].Start?; }
      StopNarrates(r.sent, r.state.game);
      var stopped := r.sent + [Stopped(r.state.game.key)];
      StartNarrates(stopped, o.state.game);
      assert r'.sent == stopped + [Started(o.state.game.key)];
    }
  }

  lemma TurnKeepsOrderly(r: Runner, t: Turn, self: nat)
    requires Orderly(r)
    ensures Orderly(AfterTurn(r, t, self))
  {
    match t.input
    case Activated(w, decision) =>
      var o := NextAction(r.state, w, decision, t.pause);
      assert Continues(r, o) by {
        if o.state.Current() != r.state.Current() {
          var start := o.events[|o.events| - 1];
          assert start == Start(o.state.game.key, start.path, start.name);
        }
      }
      AppliedNarrates(r, o, t.now, t.grace);
    case Exited(pid) =>
      AppliedNarrates(r, OnTrackedExit(r.state, pid), t.now, t.grace);
    case TimerDue =>
      AppliedNarrates(r.(timer := None), OnGraceTimeout(r.state, t.pause), t.now, t.grace);
  }

  lemma ClosingCompletesPairs(r: Runner)
    requires Orderly(r)
    ensures InPairs(r.sent + Closing(r.state)) && |r.sent + Closing(r.state)| % 2 == 0
  {
    if r.state.Current().Some? {
      PairsExtend(r.sent, Stopped(r.state.Current().value.key));
    } else {
      assert r.sent + Closing(r.state) == r.sent;
    }
  }

  /** Over any sequence of activations, exits, timeouts and changes of settings: the events
      sent, with the closing stop, are start-stop pairs; the timer is armed exactly while the
      game is in the background; the tracked process is watched. */
  lemma {:induction false} RunnerStaysOrderly(ts: seq<Turn>, self: nat)
    ensures var r := AfterTurns(IDLE, ts, self);
            Orderly(r) && InPairs(r.sent + Closing(r.state)) && |r.sent + Closing(r.state)| % 2 == 0
  {
    if ts != [] {
      RunnerStaysOrderly(ts[..|ts| - 1], self);
      TurnKeepsOrderly(AfterTurns(IDLE, ts[..|ts| - 1], self), ts[|ts| - 1], self);
    }
    ClosingCompletesPairs(AfterTurns(IDLE, ts, self));
  }

  // ---- When a game starts and when it loses focus -----------------------------------------

  /** The key of an accepted process: the launcher that started it, or its executable. */
  predicate Keyed(p: Process, key: GameKey) {
    match p.attribution
    case Some(Heroic(name)) => key == GameKey(LauncherType.Heroic, name)
    case Some(Lutris(uuid)) => key == GameKey(LauncherType.Lutris, uuid)
    case None => key == GameKey(Native, p.path)
  }

  /** A window of another process than the tracked one and the daemon's own. */
  predicate OtherWindow(r: Runner, w: Window, self: nat) {
    w.pid != self && (r.state.Current().Some? ==> w.pid != r.state.Current().value.pid)
  }

  /** An accepted window starts its game, after stopping the one tracked before, and has it
      tracked in focus and its process watched. */
  lemma AcceptedWindowStarts(r: Runner, t: Turn, self: nat)
    requires t.input.Activated? && t.input.decision.Accept? && OtherWindow(r, t.input.window, self)
    ensures var r', p := AfterTurn(r, t, self), t.input.decision.process;
            && r'.state.Focused? && r'.state.game.pid == t.input.window.pid && r'.state.game.path == p.path
            && Keyed(p, r'.state.game.key)
            && r'.sent == r.sent + Closing(r.state) + [Started(r'.state.game.key)]
            && r'.watched == r.watched + {t.input.window.pid}
            && (r.state.Backgrounded? ==> r'.timer.None?)
  {
    var o := NextAction(r.state, t.input.window, t.input.decision, t.pause);
    if |o.events| == 1 {
      AllSentTwo(o.events[0], o.events[0]);
      assert o.events[0].Start?;
    } else {
      AllSentTwo(o.events[0], o.events[1]);
      assert o.events[1].Start?;
      assert r.sent + [Sent(o.events[0]), Sent(o.events[1])] == r.sent + [Sent(o.events[0])] + [Sent(o.events[1])];
    }
  }

  /** While nothing is tracked, every other turn changes nothing. */
  lemma NothingElseStarts(r: Runner, t: Turn, self: nat)
    requires r.state.NotTracked? && r.timer.None?
    requires !(t.input.Activated? && t.input.decision.Accept? && OtherWindow(r, t.input.window, self))
    ensures AfterTurn(r, t, self) == r
  {
    assert r.sent + [] == r.sent;
  }

  /** A game in focus goes to the background, its deadline set, exactly when a rejected window of
      another process is activated with pausing enabled; one in the background comes back, its
      timer disarmed, exactly when its own window is activated or a due timer finds pausing
      disabled. */
  lemma FocusChangesIff(r: Runner, t: Turn, self: nat)
    requires r.state.Current().Some? && (r.timer.Some? <==> r.state.Backgrounded?)
    ensures var r', game := AfterTurn(r, t, self), r.state.Current().value;
            && (r.state.Focused? ==>
                  (r'.state == Backgrounded(game)
                   <==> t.input.Activated? && t.input.decision.Reject? && OtherWindow(r, t.input.window, self) && t.pause)
                  && (r'.state == Backgrounded(game) ==> r'.timer == Some(t.now + t.grace)))
            && (r.state.Backgrounded? ==>
                  (r'.state == Focused(game)
                   <==> || (t.input.Activated? && t.input.window.pid == game.pid && game.pid != self)
                        || (t.input.TimerDue? && r.timer.value <= t.now && !t.pause))
                  && (r'.state == Focused(game) ==> r'.timer.None?))
  {
  }

  // ---- When a game ends -------------------------------------------------------------------

  /** Another game takes over, the process exits, or the timer runs out with pausing enabled. */
  predicate Ends(r: Runner, t: Turn, self: nat)
    requires r.state.Current().Some?
  {
    var pid := r.state.Current().value.pid;
    match t.input
    case Activated(w, decision) => w.pid != self && w.pid != pid && decision.Accept?
    case Exited(exited) => exited == pid
    case TimerDue => r.state.Backgrounded? && r.timer.Some? && r.timer.value <= t.now && t.pause
  }

  /** A tracked game is stopped exactly then, once and before anything else is sent; on every
      other turn it stays tracked and nothing is sent. */
  lemma GameEndsIff(r: Runner, t: Turn, self: nat)
    requires r.state.Current().Some? && (r.timer.Some? <==> r.state.Backgrounded?)
    ensures var r' := AfterTurn(r, t, self);
            if Ends(r, t, self)
            then r'.state.Current() != r.state.Current() && r.sent + [Stopped(r.state.Current().value.key)] <= r'.sent
            else r'.state.Current() == r.state.Current() && r'.sent == r.sent
  {
    assert r.sent + [] == r.sent;
    match t.input
    case Activated(w, decision) =>
      var o := NextAction(r.state, w, decision, t.pause);
      if |o.events| == 2 {
        AllSentTwo(o.events[0], o.events[1]);
        assert r.sent + AllSent(o.events) == r.sent + [Sent(o.events[0])] + [Sent(o.events[1])];
      }
    case _ =>
      var stop := Stop(r.state.Current().value.key);
      AllSentTwo(stop, stop);
  }

  /** With pausing disabled, losing focus never ends a session, whatever timer is still armed:
      until another game takes over or the process exits, the game stays tracked. */
  lemma {:induction false} WithoutPauseFocusLossNeverEnds(r: Runner, ts: seq<Turn>, self: nat)
    requires Orderly(r) && r.state.Current().Some?
    requires forall i :: 0 <= i < |ts| ==>
               && !ts[i].pause
               && (ts[i].input.Activated? && ts[i].input.decision.Accept? ==>
                     ts[i].input.window.pid in {self, r.state.Current().value.pid})
               && (ts[i].input.Exited? ==> ts[i].input.pid != r.state.Current().value.pid)
    ensures var r' := AfterTurns(r, ts, self);
            Orderly(r') && r'.state.Current() == r.state.Current() && r'.sent == r.sent
  {
    if ts != [] {
      var init, last := ts[..|ts| - 1], ts[|ts| - 1];
      WithoutPauseFocusLossNeverEnds(r, init, self);
      TurnKeepsOrderly(AfterTurns(r, init, self), last, self);
      GameEndsIff(AfterTurns(r, init, self), last, self);
    }
  }

  // ---- The grace deadline -----------------------------------------------------------------

  /** Turns that neither bring the tracked game back nor end it. */
  predicate Unresolving(r: Runner, t: Turn, self: nat)
    requires r.state.Backgrounded?
  {
    match t.input
    case Activated(w, decision) => w.pid == self || (w.pid != r.state.game.pid && decision.Reject?)
    case Exited(pid) => pid != r.state.game.pid
    case TimerDue => r.timer.None? || t.now < r.timer.value
  }

  /** While the game stays in the background such turns, however many, change nothing at all:
      the deadline is not pushed back. */
  lemma {:induction false} UnresolvingTurnsChangeNothing(r: Runner, ts: seq<Turn>, self: nat)
    requires r.state.Backgrounded?
    requires forall i :: 0 <= i < |ts| ==> Unresolving(r, ts[i], self)
    ensures AfterTurns(r, ts, self) == r
  {
    if ts != [] {
      UnresolvingTurnsChangeNothing(r, ts[..|ts| - 1], self);
      assert Unresolving(r, ts[|ts| - 1], self);
      assert r.sent + [] == r.sent;
    }
  }

  function StateAfter(ts: seq<Turn>, n: nat, self: nat): State
    requires n <= |ts|
  {
    AfterTurns(IDLE, ts[..n], self).state
  }

  /** Turn `i` is the one at which the game now in the background lost focus. */
  ghost predicate LostFocusAt(ts: seq<Turn>, i: nat, self: nat) {
    && i < |ts| && StateAfter(ts, i, self).Focused?
    && forall j :: i < j <= |ts| ==> StateAfter(ts, j, self) == Backgrounded(StateAfter(ts, i, self).game)
  }

  lemma TurnIntoBackground(r: Runner, t: Turn, self: nat)
    requires r.timer.Some? <==> r.state.Backgrounded?
    requires AfterTurn(r, t, self).state.Backgrounded?
    ensures if r.state.Backgrounded? then AfterTurn(r, t, self).state == r.state && AfterTurn(r, t, self).timer == r.timer
            else r.state.Focused? && r.state.game == AfterTurn(r, t, self).state.game
                 && AfterTurn(r, t, self).timer == Some(t.now + t.grace)
  {
  }

  lemma StatesOfPrefix(ts: seq<Turn>, m: nat, n: nat, self: nat)
    requires n <= m <= |ts|
    ensures StateAfter(ts[..m], n, self) == StateAfter(ts, n, self)
  {
    assert ts[..m][..n] == ts[..n];
  }

  lemma FocusLossStays(ts: seq<Turn>, m: nat, i: nat, self: nat)
    requires m + 1 == |ts| && LostFocusAt(ts[..m], i, self)
    requires StateAfter(ts, m + 1, self) == StateAfter(ts, m, self)
    ensures LostFocusAt(ts, i, self)
  {
    StatesOfPrefix(ts, m, i, self);
    forall j | i < j <= |ts|
      ensures StateAfter(ts, j, self) == Backgrounded(StateAfter(ts, i, self).game)
    {
      StatesOfPrefix(ts, m, if j <= m then j else m, self);
      assert StateAfter(ts[..m], if j <= m then j else m, self) == Backgrounded(StateAfter(ts[..m], i, self).game);
    }
  }

  lemma FocusLostNow(ts: seq<Turn>, m: nat, self: nat)
    requires m + 1 == |ts| && StateAfter(ts, m, self).Focused?
    requires StateAfter(ts, m + 1, self) == Backgrounded(StateAfter(ts, m, self).game)
    ensures LostFocusAt(ts, m, self)
  {
  }

  lemma LastTurn(ts: seq<Turn>, m: nat, self: nat)
    requires m + 1 == |ts|
    ensures AfterTurns(IDLE, ts, self) == AfterTurn(AfterTurns(IDLE, ts[..m], self), ts[m], self)
    ensures StateAfter(ts, m, self) == AfterTurns(IDLE, ts[..m], self).state
    ensures StateAfter(ts, m + 1, self) == AfterTurns(IDLE, ts, self).state
  {
    assert ts[..m + 1] == ts;
  }

  /** Either the game was already in the background, or it lost focus on the last turn. */
  lemma LastTurnIntoBackground(ts: seq<Turn>, m: nat, self: nat)
    requires m + 1 == |ts| && AfterTurns(IDLE, ts, self).state.Backgrounded?
    ensures var before, after := AfterTurns(IDLE, ts[..m], self), AfterTurns(IDLE, ts, self);
            if before.state.Backgrounded? then after.state == before.state && after.timer == before.timer
            else LostFocusAt(ts, m, self) && after.timer == Some(ts[m].now + ts[m].grace)
  {
    RunnerStaysOrderly(ts[..m], self);
    LastTurn(ts, m, self);
    var before := AfterTurns(IDLE, ts[..m], self);
    TurnIntoBackground(before, ts[m], self);
    if !before.state.Backgrounded? {
      FocusLostNow(ts, m, self);
    }
  }

  lemma DeadlineKept(ts: seq<Turn>, m: nat, i: nat, self: nat)
    requires m + 1 == |ts| && AfterTurns(IDLE, ts, self).state.Backgrounded?
    requires AfterTurns(IDLE, ts[..m], self).state.Backgrounded? && LostFocusAt(ts[..m], i, self)
    ensures LostFocusAt(ts, i, self) && AfterTurns(IDLE, ts, self).timer == AfterTurns(IDLE, ts[..m], self).timer
  {
    LastTurnIntoBackground(ts, m, self);
    LastTurn(ts, m, self);
    FocusLossStays(ts, m, i, self);
  }

  /** In every run, the deadline of an armed timer is the moment the game lost focus plus the
      grace in force at that moment. */
  lemma {:induction false} DeadlineIsFocusLossPlusGrace(ts: seq<Turn>, self: nat) returns (i: nat)
    requires AfterTurns(IDLE, ts, self).state.Backgrounded?
    ensures LostFocusAt(ts, i, self) && AfterTurns(IDLE, ts, self).timer == Some(ts[i].now + ts[i].grace)
  {
    var m := |ts| - 1;
    LastTurnIntoBackground(ts, m, self);
    if AfterTurns(IDLE, ts[..m], self).state.Backgrounded? {
      i := DeadlineIsFocusLossPlusGrace(ts[..m], self);
      DeadlineKept(ts, m, i, self);
    } else {
      i := m;
    }
  }

  lemma {:induction false} TurnsConcat(r: Runner, a: seq<Turn>, b: seq<Turn>, self: nat)
    ensures AfterTurns(r, a + b, self) == AfterTurns(AfterTurns(r, a, self), b, self)
  {
    if b == [] {
      assert a + b == a;
    } else {
      assert (a + b)[..|a + b| - 1] == a + b[..|b| - 1];
      TurnsConcat(r, a, b[..|b| - 1], self);
    }
  }

  /** Leaving the game for rejected windows and coming back before the deadline sends nothing
      and disarms the timer: the session is not split. */
  lemma ShortAltTabIsInvisible(r: Runner, away: Turn, others: seq<Turn>, back: Turn, self: nat)
    requires Orderly(r) && r.state.Focused? && away.pause
    requires away.input.Activated? && away.input.decision.Reject?
    requires away.input.window.pid != r.state.game.pid && away.input.window.pid != self
    requires back.input.Activated? && back.input.window.pid == r.state.game.pid != self
    requires forall i :: 0 <= i < |others| ==> Unresolving(AfterTurn(r, away, self), others[i], self)
    ensures AfterTurns(r, [away] + others + [back], self) == r
  {
    var out := AfterTurn(r, away, self);
    assert [away][..0] == [];
    assert AfterTurns(r, [away], self) == out;
    UnresolvingTurnsChangeNothing(out, others, self);
    TurnsConcat(r, [away], others, self);
    assert ([away] + others + [back])[..|others| + 1] == [away] + others;
    assert r.sent + [] == r.sent && out.sent == r.sent;
  }

  // ---- Alternation ------------------------------------------------------------------------

  function CurrentKeys(state: State): set<GameKey> {
    if state.Current().Some? then {state.Current().value.key} else {}
  }

  lemma {:induction false} PairsAlternate(evs: seq<GameEvent>)
    requires InPairs(evs)
    ensures Alternates({}, evs)
    ensures RunningAfter({}, evs) == if |evs| % 2 == 0 then {} else {evs[|evs| - 1].key}
  {
    if evs != [] {
      PairsShrink(evs);
      assert PairedAt(evs, |evs| - 1);
      PairsAlternate(evs[..|evs| - 1]);
    }
  }

  /** Every key's starts and stops alternate, and the tracked game is the one running. */
  lemma ForegroundAlternates(ts: seq<Turn>, self: nat)
    ensures var r := AfterTurns(IDLE, ts, self);
            && Alternates({}, r.sent) && RunningAfter({}, r.sent) == CurrentKeys(r.state)
            && Alternates({}, r.sent + Closing(r.state)) && RunningAfter({}, r.sent + Closing(r.state)) == {}
            && forall i :: 0 <= i < |r.sent| ==> !FromSteam(r.sent[i])
  {
    var r := AfterTurns(IDLE, ts, self);
    RunnerStaysOrderly(ts, self);
    PairsAlternate(r.sent);
    PairsAlternate(r.sent + Closing(r.state));
  }

  // ---- The runner object ------------------------------------------------------------------

  class ForegroundRunner {
    const self: nat
    var state: State
    var timer: Option<int>
    var watched: set<nat>
    var sent: seq<GameEvent>

    ghost function View(): Runner
      reads this
    {
      Runner(state, timer, watched, sent)
    }

    constructor (self: nat)
      ensures View() == IDLE && this.self == self && fresh(this)
    {
      this.self := self;
      state, timer, watched, sent := NotTracked, None, {}, [];
    }

    method ApplyOutcome(o: Outcome, now: int, grace: nat)
      modifies this
      ensures View() == Applied(old(View()), o, now, grace)
    {
      for i := 0 to |o.events|
        invariant state == old(state) && timer == old(timer)
        invariant sent == old(sent) + AllSent(o.events[..i])
        invariant watched == if Starts(o.events[..i]) && o.state.Current().Some?
                             then old(watched) + {o.state.Current().value.pid} else old(watched)
      {
        assert o.events[..i + 1][..i] == o.events[..i];
        assert Starts(o.events[..i + 1]) <==> Starts(o.events[..i]) || o.events[i].Start? by {
          if o.events[i].Start? {
            assert o.events[..i + 1][i].Start?;
          }
          if j :| 0 <= j < i && o.events[..i][j].Start? {
            assert o.events[..i + 1][j].Start?;
          }
        }
        sent := sent + [Sent(o.events[i])];
        if o.events[i].Start? && o.state.Current().Some? {
          watched := watched + {o.state.Current().value.pid};
        }
      }
      assert o.events[..|o.events|] == o.events;
      state := o.state;
      match o.timer {
        case NoChange =>
        case StartTimer => timer := Some(now + grace);
        case CancelTimer => timer := None;
      }
    }

    method HandleActivation(w: Window, decision: Decision, now: int, pause: bool, grace: nat)
      modifies this
      ensures View() == AfterTurn(old(View()), Turn(now, pause, grace, Activated(w, decision)), self)
    {
      if w.pid == self {
        return;
      }
      ApplyOutcome(NextAction(state, w, decision, pause), now, grace);
    }

    method HandleExit(pid: nat, now: int, pause: bool, grace: nat)
      modifies this
      ensures View() == AfterTurn(old(View()), Turn(now, pause, grace, Exited(pid)), self)
    {
      ApplyOutcome(OnTrackedExit(state, pid), now, grace);
    }

    method HandleTimer(now: int, pause: bool, grace: nat)
      modifies this
      ensures View() == AfterTurn(old(View()), Turn(now, pause, grace, TimerDue), self)
    {
      if timer.None? || now < timer.value {
        return;
      }
      timer := None;
      ApplyOutcome(OnGraceTimeout(state, pause), now, grace);
    }

    method SendClosingStop()
      modifies this`sent
      ensures sent == old(sent) + Closing(state)
    {
      if state.Current().Some? {
        sent := sent + [Stopped(state.Current().value.key)];
      }
    }
  }
}
