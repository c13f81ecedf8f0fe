/** The activity grid: sessions clipped to day lanes. Times are epoch milliseconds; days are
    given by their boundaries and need not be 24 hours long. */
module ActivityGrid {
  import opened Types

  datatype Ended = StillOpen | At(ms: int) | Unparseable

  /** `started` is None when the text cannot be parsed. */
  datatype SessionRange = SessionRange(started: Option<int>, ended: Ended)

  datatype Block = Block(leftPct: real, widthPct: real, seconds: int)

  datatype Lane = Lane(dayStart: int, dayEnd: int, blocks: seq<Block>, totalSeconds: int)

  function EndOf(s: SessionRange, now: int): Option<int> {
    match s.ended
    case StillOpen => Some(now)
    case At(ms) => Some(ms)
    case Unparseable => None
  }

  /** Nearest whole number of seconds, halves upwards. */
  function RoundToSeconds(ms: nat): int {
    (ms + 500) / 1000
  }

  function ClipToDay(s: SessionRange, dayStart: int, dayEnd: int, now: int): Option<Block> {
    var span := dayEnd - dayStart;
    if span <= 0 || s.started.None? || EndOf(s, now).None? then None
    else
      var from, to := Max(s.started.value, dayStart), Min(EndOf(s, now).value, dayEnd);
      if to <= from then None
      else Some(Block((from - dayStart) as real / span as real * 100.0,
                      (to - from) as real / span as real * 100.0,
                      RoundToSeconds(to - from)))
  }

  // ---- Overlap ----------------------------------------------------------------------------

  /** Milliseconds of `[from, to)` the session occupied. */
  function Overlap(s: SessionRange, from: int, to: int, now: int): nat {
    if s.started.None? || EndOf(s, now).None? then 0
    else Max(0, Min(EndOf(s, now).value, to) - Max(s.started.value, from))
  }

  /** A block covers exactly the overlap with its day, begins where the session does or at the
      lane's edge, lies inside its lane, and its rounded seconds are off by at most half a
      second. */
  lemma BlockCoversOverlap(s: SessionRange, dayStart: int, dayEnd: int, now: int)
    requires dayStart < dayEnd
    ensures var b := ClipToDay(s, dayStart, dayEnd, now);
            var ms := Overlap(s, dayStart, dayEnd, now);
            && (b.Some? <==> ms > 0)
            && (b.Some? ==>
                  && b.value.widthPct * (dayEnd - dayStart) as real == ms as real * 100.0
                  && b.value.leftPct * (dayEnd - dayStart) as real
                     == (if s.started.value <= dayStart then 0 else s.started.value - dayStart) as real * 100.0
                  && 0.0 <= b.value.leftPct && 0.0 < b.value.widthPct
                  && b.value.leftPct + b.value.widthPct <= 100.0
                  && -500 < 1000 * b.value.seconds - ms <= 500)
  {
    var b := ClipToDay(s, dayStart, dayEnd, now);
    if b.Some? {
      var span := dayEnd - dayStart;
      var from, to := Max(s.started.value, dayStart), Min(EndOf(s, now).value, dayEnd);
      PercentExact(to - from, span);
      PercentExact(from - dayStart, span);
      PercentWithin(from - dayStart, to - from, span);
    }
  }

  lemma PercentExact(part: nat, span: int)
    requires span > 0
    ensures part as real / span as real * 100.0 * span as real == part as real * 100.0
    ensures 0.0 <= part as real / span as real * 100.0
    ensures part > 0 ==> 0.0 < part as real / span as real * 100.0
  {
    var q := part as real / span as real;
    assert q * span as real == part as real;
    assert q * 100.0 * span as real == q * span as real * 100.0;
  }

  lemma PercentWithin(a: nat, b: nat, span: int)
    requires span > 0 && a + b <= span
    ensures a as real / span as real * 100.0 + b as real / span as real * 100.0 <= 100.0
  {
    var p, q := a as real / span as real, b as real / span as real;
    assert (p + q) * span as real == (a + b) as real;
    if p + q > 1.0 {
      assert (p + q) * span as real > span as real;
    }
  }

  lemma OverlapAdds(s: SessionRange, a: int, b: int, c: int, now: int)
    requires a <= b <= c
    ensures Overlap(s, a, b, now) + Overlap(s, b, c, now) == Overlap(s, a, c, now)
  {
  }

  // ---- Lanes ------------------------------------------------------------------------------

  function BlocksIn(sessions: seq<SessionRange>, dayStart: int, dayEnd: int, now: int): seq<Block> {
    if sessions == [] then []
    else
      var before := BlocksIn(sessions[..|sessions| - 1], dayStart, dayEnd, now);
      match ClipToDay(sessions[|sessions| - 1], dayStart, dayEnd, now)
      case None => before
      case Some(b) => before + [b]
  }

  /** A lane draws each session on its own, in the order the sessions come. */
  lemma {:induction false} LaneDrawsEachSession(a: seq<SessionRange>, b: seq<SessionRange>, dayStart: int, dayEnd: int, now: int)
    ensures BlocksIn(a + b, dayStart, dayEnd, now) == BlocksIn(a, dayStart, dayEnd, now) + BlocksIn(b, dayStart, dayEnd, now)
    ensures |b| == 1 ==>
              BlocksIn(b, dayStart, dayEnd, now)
              == match ClipToDay(b[0], dayStart, dayEnd, now) case None => [] case Some(block) => [block]
  {
    if b == [] {
      assert a + b == a;
    } else {
      assert (a + b)[..|a + b| - 1] == a + b[..|b| - 1];
      LaneDrawsEachSession(a, b[..|b| - 1], dayStart, dayEnd, now);
    }
  }

  function SecondsOf(blocks: seq<Block>): int {
    if blocks == [] then 0 else SecondsOf(blocks[..|blocks| - 1]) + blocks[|blocks| - 1].seconds
  }

  function LaneOf(sessions: seq<SessionRange>, dayStart: int, dayEnd: int, now: int): Lane {
    var blocks := BlocksIn(sessions, dayStart, dayEnd, now);
    Lane(dayStart, dayEnd, blocks, SecondsOf(blocks))
  }

  /** The local midnights from the one that begins the oldest of `dayCount` days to the one that
      ends `today`; `midnight` gives the instant at which a day begins. */
  function Bounds(midnight: int -> int, today: int, dayCount: nat): (bounds: seq<int>)
    ensures |bounds| == dayCount + 1 && bounds[dayCount] == midnight(today + 1)
    ensures forall i :: 0 <= i <= dayCount ==> bounds[i] == midnight(today - dayCount + 1 + i)
  {
    seq(dayCount + 1, i => midnight(today - dayCount + 1 + i))
  }

  /** Successive local midnights. */
  predicate Increasing(bounds: seq<int>) {
    forall i :: 0 <= i < |bounds| - 1 ==> bounds[i] < bounds[i + 1]
  }

  /** One lane per day, oldest first, ending with `today`, the day that contains `now`. */
  method BuildLanes(sessions: seq<SessionRange>, midnight: int -> int, today: int, dayCount: int, now: int)
    returns (lanes: seq<Lane>)
    ensures |lanes| == Max(0, dayCount)
    ensures dayCount > 0 ==>
              var bounds := Bounds(midnight, today, dayCount);
              forall i :: 0 <= i < dayCount ==> lanes[i] == LaneOf(sessions, bounds[i], bounds[i + 1], now)
    ensures forall i :: 0 <= i < |lanes| ==>
              && lanes[i].dayStart == midnight(today - dayCount + 1 + i)
              && lanes[i].dayEnd == midnight(today - dayCount + 2 + i)
  {
    lanes := [];
    if dayCount <= 0 {
      return;
    }
    var cursor := today - (dayCount - 1);
    for i := 0 to dayCount
      invariant |lanes| == i && cursor == today - dayCount + 1 + i
      invariant forall k :: 0 <= k < i ==>
                  lanes[k] == LaneOf(sessions, midnight(today - dayCount + 1 + k), midnight(today - dayCount + 2 + k), now)
    {
      var dayStart := midnight(cursor);
      cursor := cursor + 1;
      var dayEnd := midnight(cursor);
      var lane := BuildLane(sessions, dayStart, dayEnd, now);
      lanes := lanes + [lane];
    }
  }

  /** The inner loop: one day. */
  method BuildLane(sessions: seq<SessionRange>, dayStart: int, dayEnd: int, now: int) returns (lane: Lane)
    ensures lane == LaneOf(sessions, dayStart, dayEnd, now)
  {
    var blocks, total := [], 0;
    for j := 0 to |sessions|
      invariant blocks == BlocksIn(sessions[..j], dayStart, dayEnd, now)
      invariant total == SecondsOf(blocks)
    {
      assert sessions[..j + 1][..j] == sessions[..j];
      var block := ClipToDay(sessions[j], dayStart, dayEnd, now);
      if block.None? {
        continue;
      }
      blocks := blocks + [block.value];
      assert blocks[..|blocks| - 1] == BlocksIn(sessions[..j], dayStart, dayEnd, now);
      total := total + block.value.seconds;
    }
    assert sessions[..|sessions|] == sessions;
    lane := Lane(dayStart, dayEnd, blocks, total);
  }

  // ---- Conservation -----------------------------------------------------------------------

  /** Clipped milliseconds of one session, summed over the lanes between the first `n + 1` bounds. */
  function ClippedOver(s: SessionRange, bounds: seq<int>, n: nat, now: int): nat
    requires n < |bounds|
  {
    if n == 0 then 0
    else ClippedOver(s, bounds, n - 1, now) + Overlap(s, bounds[n - 1], bounds[n], now)
  }

  lemma {:induction false} IncreasingUpTo(bounds: seq<int>, n: nat)
    requires Increasing(bounds) && n < |bounds|
    ensures bounds[0] <= bounds[n]
  {
    if n > 0 {
      IncreasingUpTo(bounds, n - 1);
      assert bounds[n - 1] < bounds[n - 1 + 1];
    }
  }

  /** Whatever the lengths of the days, no part of a session is lost or counted twice. */
  lemma {:induction false} LanesConserveOverlap(s: SessionRange, bounds: seq<int>, n: nat, now: int)
    requires Increasing(bounds) && n < |bounds|
    ensures ClippedOver(s, bounds, n, now) == Overlap(s, bounds[0], bounds[n], now)
  {
    if n > 0 {
      LanesConserveOverlap(s, bounds, n - 1, now);
      IncreasingUpTo(bounds, n - 1);
      assert bounds[n - 1] < bounds[n - 1 + 1];
      OverlapAdds(s, bounds[0], bounds[n - 1], bounds[n], now);
    }
  }

  function TotalOverlap(sessions: seq<SessionRange>, from: int, to: int, now: int): nat {
    if sessions == [] then 0
    else TotalOverlap(sessions[..|sessions| - 1], from, to, now) + Overlap(sessions[|sessions| - 1], from, to, now)
  }

  lemma {:induction false} TotalOverlapAdds(sessions: seq<SessionRange>, a: int, b: int, c: int, now: int)
    requires a <= b <= c
    ensures TotalOverlap(sessions, a, b, now) + TotalOverlap(sessions, b, c, now) == TotalOverlap(sessions, a, c, now)
  {
    if sessions != [] {
      TotalOverlapAdds(sessions[..|sessions| - 1], a, b, c, now);
      OverlapAdds(sessions[|sessions| - 1], a, b, c, now);
    }
  }

  lemma {:induction false} LaneWithinHalfSecondPerBlock(sessions: seq<SessionRange>, dayStart: int, dayEnd: int, now: int)
    requires dayStart < dayEnd
    ensures var lane := LaneOf(sessions, dayStart, dayEnd, now);
            var ms := TotalOverlap(sessions, dayStart, dayEnd, now);
            -500 * |lane.blocks| <= 1000 * lane.totalSeconds - ms <= 500 * |lane.blocks|
  {
    if sessions != [] {
      var last := sessions[|sessions| - 1];
      LaneWithinHalfSecondPerBlock(sessions[..|sessions| - 1], dayStart, dayEnd, now);
      BlockCoversOverlap(last, dayStart, dayEnd, now);
      var blocks := BlocksIn(sessions, dayStart, dayEnd, now);
      if ClipToDay(last, dayStart, dayEnd, now).Some? {
        assert blocks[..|blocks| - 1] == BlocksIn(sessions[..|sessions| - 1], dayStart, dayEnd, now);
      }
    }
  }

  function GridSeconds(sessions: seq<SessionRange>, bounds: seq<int>, n: nat, now: int): int
    requires n < |bounds|
  {
    if n == 0 then 0
    else GridSeconds(sessions, bounds, n - 1, now) + LaneOf(sessions, bounds[n - 1], bounds[n], now).totalSeconds
  }

  function GridBlocks(sessions: seq<SessionRange>, bounds: seq<int>, n: nat, now: int): nat
    requires n < |bounds|
  {
    if n == 0 then 0
    else GridBlocks(sessions, bounds, n - 1, now) + |LaneOf(sessions, bounds[n - 1], bounds[n], now).blocks|
  }

  /** The grid's total differs from the time really played in the window by at most half a
      second per block drawn. */
  lemma {:induction false} GridConservesPlaytime(sessions: seq<SessionRange>, bounds: seq<int>, n: nat, now: int)
    requires Increasing(bounds) && n < |bounds|
    ensures var drift := 1000 * GridSeconds(sessions, bounds, n, now) - TotalOverlap(sessions, bounds[0], bounds[n], now);
            -500 * GridBlocks(sessions, bounds, n, now) <= drift <= 500 * GridBlocks(sessions, bounds, n, now)
  {
    if n == 0 {
      NoOverlapWithNothing(sessions, bounds[0], now);
    } else {
      GridConservesPlaytime(sessions, bounds, n - 1, now);
      IncreasingUpTo(bounds, n - 1);
      assert bounds[n - 1] < bounds[n - 1 + 1];
      TotalOverlapAdds(sessions, bounds[0], bounds[n - 1], bounds[n], now);
      LaneWithinHalfSecondPerBlock(sessions, bounds[n - 1], bounds[n], now);
    }
  }

  lemma {:induction false} NoOverlapWithNothing(sessions: seq<SessionRange>, at: int, now: int)
    ensures TotalOverlap(sessions, at, at, now) == 0
  {
    if sessions != [] {
      NoOverlapWithNothing(sessions[..|sessions| - 1], at, now);
    }
  }

  // ---- The query that feeds the grid ------------------------------------------------------

  /** `list_in_range` for a stored session. */
  predicate Selected(startedAt: int, endedAt: Option<int>, from: int, to: int) {
    startedAt < to && (endedAt.None? || endedAt.value > from)
  }

  function RangeOf(startedAt: int, endedAt: Option<int>): SessionRange {
    SessionRange(Some(startedAt), if endedAt.Some? then At(endedAt.value) else StillOpen)
  }

  ghost predicate Draws(s: SessionRange, bounds: seq<int>, n: nat, now: int)
    requires n < |bounds|
  {
    exists i :: 0 <= i < n && ClipToDay(s, bounds[i], bounds[i + 1], now).Some?
  }

  lemma {:induction false} DrawsIffOverlaps(s: SessionRange, bounds: seq<int>, n: nat, now: int)
    requires Increasing(bounds) && n < |bounds|
    ensures Draws(s, bounds, n, now) <==> Overlap(s, bounds[0], bounds[n], now) > 0
  {
    if n > 0 {
      DrawsIffOverlaps(s, bounds, n - 1, now);
      IncreasingUpTo(bounds, n - 1);
      assert bounds[n - 1] < bounds[n - 1 + 1];
      OverlapAdds(s, bounds[0], bounds[n - 1], bounds[n], now);
      BlockCoversOverlap(s, bounds[n - 1], bounds[n], now);
      if Draws(s, bounds, n - 1, now) {
        var i :| 0 <= i < n - 1 && ClipToDay(s, bounds[i], bounds[i + 1], now).Some?;
      }
      if ClipToDay(s, bounds[n - 1], bounds[n], now).Some? {
        assert ClipToDay(s, bounds[n - 1], bounds[n - 1 + 1], now).Some?;
      }
    }
  }

  /** A session whose start or end cannot be parsed draws nothing. */
  lemma UnparseableDrawsNothing(s: SessionRange, dayStart: int, dayEnd: int, now: int)
    requires s.started.None? || s.ended.Unparseable?
    ensures ClipToDay(s, dayStart, dayEnd, now).None? && Overlap(s, dayStart, dayEnd, now) == 0
  {
  }

  /** A closed session draws a block exactly when it is selected for the window and has lasted some
      time; an open one exactly when it is selected, began before now, and so did the window. */
  lemma DrawnIffSelected(startedAt: int, endedAt: Option<int>, bounds: seq<int>, now: int)
    requires |bounds| >= 2 && Increasing(bounds)
    ensures var n := |bounds| - 1;
            Draws(RangeOf(startedAt, endedAt), bounds, n, now)
            <==> Selected(startedAt, endedAt, bounds[0], bounds[n])
                 && if endedAt.Some? then startedAt < endedAt.value else startedAt < now && bounds[0] < now
  {
    var n := |bounds| - 1;
    DrawsIffOverlaps(RangeOf(startedAt, endedAt), bounds, n, now);
    IncreasingUpTo(bounds, n - 1);
    assert bounds[n - 1] < bounds[n - 1 + 1];
  }
}
