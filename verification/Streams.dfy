/** Streams of start and stop events. */
module Streams {
  import opened Types

  /** Keys started and not yet stopped after `evs`. */
  function RunningAfter(running: set<GameKey>, evs: seq<GameEvent>): set<GameKey> {
    if evs == [] then running
    else
      var before := RunningAfter(running, evs[..|evs| - 1]);
      match evs[|evs| - 1]
      case Started(k) => before + {k}
      case Stopped(k) => before - {k}
  }

  /** Each start is of a key that is not running, each stop of one that is. */
  predicate Alternates(running: set<GameKey>, evs: seq<GameEvent>) {
    evs == []
    || (var init := evs[..|evs| - 1];
        var last := evs[|evs| - 1];
        Alternates(running, init) && (last.Started? <==> last.key !in RunningAfter(running, init)))
  }

  lemma {:induction false} AlternatesConcat(running: set<GameKey>, a: seq<GameEvent>, b: seq<GameEvent>)
    ensures RunningAfter(running, a + b) == RunningAfter(RunningAfter(running, a), b)
    ensures Alternates(running, a + b) <==> Alternates(running, a) && Alternates(RunningAfter(running, a), b)
  {
    if b == [] {
      assert a + b == a;
    } else {
      assert (a + b)[..|a + b| - 1] == a + b[..|b| - 1];
      AlternatesConcat(running, a, b[..|b| - 1]);
    }
  }

  /** `c` interleaves `a` and `b`. */
  ghost predicate IsShuffle(a: seq<GameEvent>, b: seq<GameEvent>, c: seq<GameEvent>)
    decreases |c|
  {
    if c == [] then a == [] && b == []
    else
      var init := c[..|c| - 1];
      var last := c[|c| - 1];
      || (a != [] && a[|a| - 1] == last && IsShuffle(a[..|a| - 1], b, init))
      || (b != [] && b[|b| - 1] == last && IsShuffle(a, b[..|b| - 1], init))
  }

  predicate FromSteam(e: GameEvent) {
    e.key.launcher == Steam
  }

  lemma {:induction false} SteamKeysStaySteam(running: set<GameKey>, evs: seq<GameEvent>, steam: bool)
    requires forall k :: k in running ==> (k.launcher == Steam) == steam
    requires forall i :: 0 <= i < |evs| ==> FromSteam(evs[i]) == steam
    ensures forall k :: k in RunningAfter(running, evs) ==> (k.launcher == Steam) == steam
  {
    if evs != [] {
      SteamKeysStaySteam(running, evs[..|evs| - 1], steam);
      assert FromSteam(evs[|evs| - 1]) == steam;
    }
  }

  /** Two alternating streams over disjoint key spaces alternate however they are interleaved,
      and the keys running are those running in either. */
  lemma {:induction false} ShuffleAlternates(
    ra: set<GameKey>, rb: set<GameKey>, a: seq<GameEvent>, b: seq<GameEvent>, c: seq<GameEvent>)
    requires Alternates(ra, a) && Alternates(rb, b) && IsShuffle(a, b, c)
    requires forall k :: k in ra ==> k.launcher == Steam
    requires forall k :: k in rb ==> k.launcher != Steam
    requires forall i :: 0 <= i < |a| ==> FromSteam(a[i])
    requires forall i :: 0 <= i < |b| ==> !FromSteam(b[i])
    ensures Alternates(ra + rb, c)
    ensures RunningAfter(ra + rb, c) == RunningAfter(ra, a) + RunningAfter(rb, b)
    decreases |c|
  {
    if c != [] {
      var init := c[..|c| - 1];
      SteamKeysStaySteam(ra, a, true);
      SteamKeysStaySteam(rb, b, false);
      if a != [] && a[|a| - 1] == c[|c| - 1] && IsShuffle(a[..|a| - 1], b, init) {
        SteamKeysStaySteam(ra, a[..|a| - 1], true);
        ShuffleAlternates(ra, rb, a[..|a| - 1], b, init);
        assert FromSteam(a[|a| - 1]);
      } else {
        SteamKeysStaySteam(rb, b[..|b| - 1], false);
        ShuffleAlternates(ra, rb, a, b[..|b| - 1], init);
        assert !FromSteam(b[|b| - 1]);
      }
    }
  }
}
