/** Idle accounting: pricing idle intervals for a session from two baseline numbers.

    Instants are monotonic nanoseconds. Durations are floored to whole seconds at
    every read, as the tracker does. */
module Idle {
  import opened Types

  const NANOS: nat := 1_000_000_000

  /** Latest instant the clock can show: instants differ by at most `I64_MAX` seconds. */
  const CLOCK_LIMIT: int := I64_MAX * NANOS

  datatype Tracker = Tracker(sealed: seq<int>, since: Option<nat>)

  datatype Act = Edge(idle: bool) | Advance(ns: nat)

  /** The tracker together with the clock it is read against. */
  datatype Timeline = Timeline(tracker: Tracker, now: nat)

  function SecondsBetween(a: nat, b: nat): (r: nat)
    requires a <= b
  {
    (b - a) / NANOS
  }

  /** The open interval did not begin in the future. */
  predicate Readable(w: Timeline) {
    w.tracker.since.Some? ==> w.tracker.since.value <= w.now
  }

  ghost predicate WellTimed(w: Timeline) {
    && (forall k :: 0 <= k < |w.tracker.sealed| ==> w.tracker.sealed[k] >= 0)
    && Readable(w)
  }

  /** `set_idle`: only a real change of state does anything. */
  function AfterEdge(t: Tracker, idle: bool, now: nat): Tracker
    requires t.since.Some? ==> t.since.value <= now
  {
    match (t.since, idle)
    case (None, true) => t.(since := Some(now))
    case (Some(since), false) => Tracker(t.sealed + [SecondsBetween(since, now)], None)
    case _ => t
  }

  function Fresh(now: nat): Timeline {
    Timeline(Tracker([], None), now)
  }

  function Step(w: Timeline, a: Act): Timeline
    requires Readable(w)
  {
    match a
    case Edge(idle) => w.(tracker := AfterEdge(w.tracker, idle, w.now))
    case Advance(ns) => w.(now := w.now + ns)
  }

  function Run(w: Timeline, acts: seq<Act>): (r: Timeline)
    requires Readable(w)
    ensures Readable(r) && w.now <= r.now
  {
    if acts == [] then w else Step(Run(w, acts[..|acts| - 1]), acts[|acts| - 1])
  }

  function OpenSeconds(w: Timeline): nat
    requires Readable(w)
  {
    if w.tracker.since.Some? then SecondsBetween(w.tracker.since.value, w.now) else 0
  }

  /** `session_start_baseline`. */
  datatype Baseline = Baseline(count: nat, open: int)

  function BaselineOf(w: Timeline): Baseline
    requires Readable(w)
  {
    Baseline(|w.tracker.sealed|, OpenSeconds(w))
  }

  function Forgiven(first: bool, b: Baseline, grace: nat): int {
    if first then Max(b.open, grace) else grace
  }

  function BillSealed(sealed: seq<int>, b: Baseline, grace: nat): int {
    if |sealed| <= b.count then 0
    else
      var last := |sealed| - 1;
      BillSealed(sealed[..last], b, grace) + Max(0, sealed[last] - Forgiven(last == b.count, b, grace))
  }

  /** `billable_idle_seconds_since`, without the saturation the class below shows is never reached. */
  function Billable(w: Timeline, b: Baseline, grace: nat): int
    requires Readable(w)
  {
    BillSealed(w.tracker.sealed, b, grace)
    + (if w.tracker.since.Some?
       then Max(0, OpenSeconds(w) - Forgiven(|w.tracker.sealed| <= b.count, b, grace))
       else 0)
  }

  // ---- What one natural interval costs, whoever observes it -------------------------------

  /** Every natural interval charged once, less one grace. */
  function PriceSealed(sealed: seq<int>, grace: nat): int {
    if sealed == [] then 0
    else PriceSealed(sealed[..|sealed| - 1], grace) + Max(0, sealed[|sealed| - 1] - grace)
  }

  function Price(w: Timeline, grace: nat): int
    requires Readable(w)
  {
    PriceSealed(w.tracker.sealed, grace) + Max(0, OpenSeconds(w) - grace)
  }

  /** `w` is a later moment of the history that `w0` is a moment of. */
  ghost predicate Later(w0: Timeline, w: Timeline) {
    && WellTimed(w0) && WellTimed(w)
    && w0.now <= w.now
    && w0.tracker.sealed <= w.tracker.sealed
    && (w0.tracker.since.Some? ==>
          if |w.tracker.sealed| == |w0.tracker.sealed| then w.tracker.since == w0.tracker.since
          else w.tracker.sealed[|w0.tracker.sealed|] >= OpenSeconds(w0))
  }

  lemma StepLater(w0: Timeline, w: Timeline, a: Act)
    requires Later(w0, w)
    ensures Later(w0, Step(w, a))
  {
  }

  lemma {:induction false} RunLater(w0: Timeline, w: Timeline, acts: seq<Act>)
    requires Later(w0, w)
    ensures Later(w0, Run(w, acts))
  {
    if acts != [] {
      RunLater(w0, w, acts[..|acts| - 1]);
      StepLater(w0, Run(w, acts[..|acts| - 1]), acts[|acts| - 1]);
    }
  }

  /** A session's bill over intervals sealed after its start, as a difference of prices. */
  lemma {:induction false} BillSealedIsPriceDifference(old_: seq<int>, sealed: seq<int>, b: Baseline, grace: nat)
    requires old_ < sealed && b.count == |old_| && 0 <= b.open <= sealed[|old_|]
    ensures BillSealed(sealed, b, grace)
            == PriceSealed(sealed, grace) - PriceSealed(old_, grace) - Max(0, b.open - grace)
  {
    var init := sealed[..|sealed| - 1];
    if |init| == |old_| {
      assert init == old_;
    } else {
      BillSealedIsPriceDifference(old_, init, b, grace);
    }
  }

  /** The bill read from the two baseline numbers is the growth of the price of the whole history. */
  lemma BillIsPriceGrowth(w0: Timeline, w: Timeline, grace: nat)
    requires Later(w0, w)
    ensures Billable(w, BaselineOf(w0), grace) == Price(w, grace) - Price(w0, grace)
  {
    var b := BaselineOf(w0);
    if |w.tracker.sealed| == |w0.tracker.sealed| {
      assert w.tracker.sealed == w0.tracker.sealed;
      if w0.tracker.since.Some? {
        assert OpenSeconds(w0) <= OpenSeconds(w);
      }
    } else {
      BillSealedIsPriceDifference(w0.tracker.sealed, w.tracker.sealed, b, grace);
    }
  }

  // ---- Telescoping ------------------------------------------------------------------------

  /** Cutting a session in two anywhere changes nothing: the two bills add up. */
  lemma BillingTelescopes(origin: nat, before: seq<Act>, first: seq<Act>, second: seq<Act>, grace: nat)
    ensures var w0 := Run(Fresh(origin), before);
            var w1 := Run(w0, first);
            var w2 := Run(w1, second);
            Billable(w2, BaselineOf(w0), grace)
            == Billable(w1, BaselineOf(w0), grace) + Billable(w2, BaselineOf(w1), grace)
  {
    var w0 := Run(Fresh(origin), before);
    var w1 := Run(w0, first);
    var w2 := Run(w1, second);
    RunLater(Fresh(origin), Fresh(origin), before);
    RunLater(w0, w0, first);
    RunLater(w1, w1, second);
    RunLater(w0, w1, second);
    BillIsPriceGrowth(w0, w1, grace);
    BillIsPriceGrowth(w1, w2, grace);
    BillIsPriceGrowth(w0, w2, grace);
  }

  /** A stretch of history, played through by one session or spent between sessions. */
  datatype Stretch = Stretch(played: bool, acts: seq<Act>)

  function EndOf(w: Timeline, parts: seq<Stretch>): (r: Timeline)
    requires Readable(w)
    ensures Readable(r)
    decreases |parts|
  {
    if parts == [] then w else EndOf(Run(w, parts[0].acts), parts[1..])
  }

  /** Sum of the bills of the sessions, each read at its own end. */
  function ChainBill(w: Timeline, parts: seq<Stretch>, grace: nat): int
    requires Readable(w)
    decreases |parts|
  {
    if parts == [] then 0
    else
      var next := Run(w, parts[0].acts);
      (if parts[0].played then Billable(next, BaselineOf(w), grace) else 0) + ChainBill(next, parts[1..], grace)
  }

  lemma {:induction false} PriceGrows(w0: Timeline, w: Timeline, grace: nat)
    requires Later(w0, w)
    ensures Price(w0, grace) <= Price(w, grace)
  {
    BillIsPriceGrowth(w0, w, grace);
    BillNonNegative(w.tracker.sealed, BaselineOf(w0), grace);
  }

  lemma {:induction false} BillNonNegative(sealed: seq<int>, b: Baseline, grace: nat)
    ensures BillSealed(sealed, b, grace) >= 0
  {
    if |sealed| > b.count {
      BillNonNegative(sealed[..|sealed| - 1], b, grace);
    }
  }

  lemma {:induction false} ChainBillIsPriceGrowth(w: Timeline, parts: seq<Stretch>, grace: nat)
    requires WellTimed(w)
    ensures ChainBill(w, parts, grace) <= Price(EndOf(w, parts), grace) - Price(w, grace)
    ensures (forall k :: 0 <= k < |parts| ==> parts[k].played) ==>
              ChainBill(w, parts, grace) == Price(EndOf(w, parts), grace) - Price(w, grace)
    decreases |parts|
  {
    if parts != [] {
      var next := Run(w, parts[0].acts);
      RunLater(w, w, parts[0].acts);
      BillIsPriceGrowth(w, next, grace);
      PriceGrows(w, next, grace);
      ChainBillIsPriceGrowth(next, parts[1..], grace);
    }
  }

  /** Over any chain of sessions from the tracker's start, each natural interval is billed
      max(0, length - grace) in total when the sessions are back to back, and no more than
      that when there are gaps between them. */
  lemma GraceForgivenOncePerInterval(origin: nat, parts: seq<Stretch>, grace: nat)
    ensures var last := EndOf(Fresh(origin), parts);
            && ChainBill(Fresh(origin), parts, grace) <= Price(last, grace)
            && ((forall k :: 0 <= k < |parts| ==> parts[k].played) ==>
                  ChainBill(Fresh(origin), parts, grace) == Price(last, grace))
  {
    ChainBillIsPriceGrowth(Fresh(origin), parts, grace);
  }

  // ---- A reference that counts seconds one by one -----------------------------------------

  /** `streak` is how long the user has been idle without a break. */
  datatype Counter = Counter(idle: bool, streak: nat, billed: nat)

  function CountSecond(c: Counter, grace: nat): Counter {
    if c.idle then Counter(true, c.streak + 1, c.billed + if c.streak >= grace then 1 else 0) else c
  }

  function CountSeconds(c: Counter, n: nat, grace: nat): Counter {
    if n == 0 then c else CountSecond(CountSeconds(c, n - 1, grace), grace)
  }

  function CountEdge(c: Counter, idle: bool): Counter {
    if c.idle == idle then c else Counter(idle, 0, c.billed)
  }

  function CountRun(c: Counter, acts: seq<Act>, grace: nat): Counter {
    if acts == [] then c
    else
      var before := CountRun(c, acts[..|acts| - 1], grace);
      match acts[|acts| - 1]
      case Edge(idle) => CountEdge(before, idle)
      case Advance(ns) => CountSeconds(before, ns / NANOS, grace)
  }

  predicate WholeSeconds(acts: seq<Act>) {
    forall k :: 0 <= k < |acts| ==> acts[k].Advance? ==> acts[k].ns % NANOS == 0
  }

  ghost predicate OnWholeSecond(w: Timeline) {
    w.tracker.since.Some? ==> w.tracker.since.value <= w.now && (w.now - w.tracker.since.value) % NANOS == 0
  }

  lemma {:induction false} CountSecondsClosedForm(c: Counter, n: nat, grace: nat)
    ensures CountSeconds(c, n, grace)
            == if c.idle
               then Counter(true, c.streak + n, c.billed + Max(0, c.streak + n - grace) - Max(0, c.streak - grace))
               else c
  {
    if n > 0 {
      CountSecondsClosedForm(c, n - 1, grace);
    }
  }

  lemma WholeSecondSum(a: nat, ns: nat)
    requires a % NANOS == 0 && ns % NANOS == 0
    ensures (a + ns) / NANOS == a / NANOS + ns / NANOS && (a + ns) % NANOS == 0
  {
  }

  /** Both views of the same moment agree on the streak and on what has been billed since `w0`. */
  ghost predicate Agrees(c: Counter, w0: Timeline, w: Timeline, grace: nat) {
    && Later(w0, w) && OnWholeSecond(w)
    && c.idle == w.tracker.since.Some?
    && c.streak == OpenSeconds(w)
    && c.billed == Price(w, grace) - Price(w0, grace)
  }

  lemma StepAgrees(c: Counter, w0: Timeline, w: Timeline, a: Act, grace: nat)
    requires Agrees(c, w0, w, grace)
    requires a.Advance? ==> a.ns % NANOS == 0
    ensures a.Edge? ==> Agrees(CountEdge(c, a.idle), w0, Step(w, a), grace)
    ensures a.Advance? ==> Agrees(CountSeconds(c, a.ns / NANOS, grace), w0, Step(w, a), grace)
  {
    StepLater(w0, w, a);
    if a.Advance? {
      CountSecondsClosedForm(c, a.ns / NANOS, grace);
      if w.tracker.since.Some? {
        WholeSecondSum(w.now - w.tracker.since.value, a.ns);
      }
    } else if a.idle != w.tracker.since.Some? && !a.idle {
      var sealed := Step(w, a).tracker.sealed;
      assert sealed[..|sealed| - 1] == w.tracker.sealed;
    }
  }

  lemma {:induction false} RunAgrees(c: Counter, w0: Timeline, w: Timeline, acts: seq<Act>, grace: nat)
    requires Agrees(c, w0, w, grace) && WholeSeconds(acts)
    ensures Agrees(CountRun(c, acts, grace), w0, Run(w, acts), grace)
  {
    if acts != [] {
      var init := acts[..|acts| - 1];
      RunAgrees(c, w0, w, init, grace);
      StepAgrees(CountRun(c, init, grace), w0, Run(w, init), acts[|acts| - 1], grace);
    }
  }

  /** On a whole-second clock the bill is the number of in-session seconds in which the user is
      idle and the natural streak has already used up the grace. */
  lemma BillCountsIdleSeconds(origin: nat, before: seq<Act>, during: seq<Act>, grace: nat)
    requires WholeSeconds(before) && WholeSeconds(during)
    ensures var w0 := Run(Fresh(origin), before);
            var start := CountRun(Counter(false, 0, 0), before, grace);
            Billable(Run(w0, during), BaselineOf(w0), grace)
            == CountRun(start, during, grace).billed - start.billed
  {
    var zero := Fresh(origin);
    var w0 := Run(zero, before);
    var w := Run(w0, during);
    RunAgrees(Counter(false, 0, 0), zero, zero, before, grace);
    RunAgrees(CountRun(Counter(false, 0, 0), before, grace), zero, w0, during, grace);
    RunLater(w0, w0, during);
    BillIsPriceGrowth(w0, w, grace);
  }

  // ---- Rounding ---------------------------------------------------------------------------

  /** Idle time in nanoseconds still to be lost to flooring when the open interval seals. */
  function Fraction(w: Timeline): nat
    requires Readable(w)
  {
    if w.tracker.since.Some? then (w.now - w.tracker.since.value) % NANOS else 0
  }

  lemma {:induction false} IdleWithinElapsed(w: Timeline, acts: seq<Act>)
    requires WellTimed(w)
    ensures WellTimed(Run(w, acts)) && w.now <= Run(w, acts).now
    ensures NANOS * Price(Run(w, acts), 0) + Fraction(Run(w, acts)) - NANOS * Price(w, 0) - Fraction(w)
            <= Run(w, acts).now - w.now
  {
    if acts != [] {
      var mid := Run(w, acts[..|acts| - 1]);
      var a := acts[|acts| - 1];
      IdleWithinElapsed(w, acts[..|acts| - 1]);
      if a == Edge(false) && mid.tracker.since.Some? {
        var sealed := Step(mid, a).tracker.sealed;
        assert sealed[..|sealed| - 1] == mid.tracker.sealed;
      }
    }
  }

  lemma {:induction false} GraceOnlyForgives(sealed: seq<int>, b: Baseline, grace: nat)
    requires forall k :: 0 <= k < |sealed| ==> sealed[k] >= 0
    requires 0 <= b.open
    ensures BillSealed(sealed, b, grace) <= BillSealed(sealed, b, 0)
  {
    if |sealed| > b.count {
      GraceOnlyForgives(sealed[..|sealed| - 1], b, grace);
    }
  }

  /** The session's full runtime in whole seconds. */
  function FullSeconds(w0: Timeline, w: Timeline): nat
    requires w0.now <= w.now
  {
    SecondsBetween(w0.now, w.now)
  }

  /** `runtimes_for`: interactive runtime is full runtime less the bill, clamped into [0, full]. */
  function Interactive(full: int, billed: int): int {
    Max(0, Min(full - billed, full))
  }

  /** Flooring at every read costs at most one second over a whole session, however many
      intervals it spans; on a whole-second clock it costs nothing. */
  lemma BillWithinFullPlusOne(origin: nat, before: seq<Act>, during: seq<Act>, grace: nat)
    ensures var w0 := Run(Fresh(origin), before);
            var w := Run(w0, during);
            && w0.now <= w.now
            && 0 <= Billable(w, BaselineOf(w0), grace) <= FullSeconds(w0, w) + 1
            && (WholeSeconds(before) ==> Billable(w, BaselineOf(w0), grace) <= FullSeconds(w0, w))
  {
    var w0 := Run(Fresh(origin), before);
    var w := Run(w0, during);
    RunLater(Fresh(origin), Fresh(origin), before);
    RunLater(w0, w0, during);
    IdleWithinElapsed(w0, during);
    var b := BaselineOf(w0);
    BillIsPriceGrowth(w0, w, 0);
    GraceOnlyForgives(w.tracker.sealed, b, grace);
    assert Billable(w, b, grace) <= Billable(w, b, 0);
    BillNonNegative(w.tracker.sealed, b, grace);
    if WholeSeconds(before) {
      RunAgrees(Counter(false, 0, 0), Fresh(origin), Fresh(origin), before, grace);
    }
  }

  /** So the clamp moves `full - billed` by at most one second, and never on whole seconds. */
  lemma ClampMovesAtMostOneSecond(origin: nat, before: seq<Act>, during: seq<Act>, grace: nat)
    ensures var w0 := Run(Fresh(origin), before);
            var w := Run(w0, during);
            && w0.now <= w.now
            && var billed := Billable(w, BaselineOf(w0), grace);
               var full := FullSeconds(w0, w);
               && 0 <= Interactive(full, billed) <= full
               && 0 <= Interactive(full, billed) - (full - billed) <= 1
               && (WholeSeconds(before) ==> Interactive(full, billed) == full - billed)
  {
    BillWithinFullPlusOne(origin, before, during, grace);
  }

  /** The extra second is really reached: half a second of idle before the start and half
      a second of play after it bill one second of a session that has lasted none. */
  lemma ExtraSecondIsReached(origin: nat)
    ensures var w0 := Run(Fresh(origin), [Edge(true), Advance(500_000_000)]);
            var w := Run(w0, [Advance(500_000_000)]);
            && w0.now <= w.now
            && Billable(w, BaselineOf(w0), 0) == FullSeconds(w0, w) + 1
  {
    RunSnoc(Fresh(origin), [], Edge(true));
    RunSnoc(Fresh(origin), [Edge(true)], Advance(500_000_000));
    assert [] + [Edge(true)] == [Edge(true)];
    assert [Edge(true)] + [Advance(500_000_000)] == [Edge(true), Advance(500_000_000)];
    var w0 := Timeline(Tracker([], Some(origin)), origin + 500_000_000);
    RunSnoc(w0, [], Advance(500_000_000));
    assert [] + [Advance(500_000_000)] == [Advance(500_000_000)];
  }

  lemma RunSnoc(w: Timeline, acts: seq<Act>, a: Act)
    requires Readable(w)
    ensures Run(w, acts + [a]) == Step(Run(w, acts), a)
  {
    assert (acts + [a])[..|acts|] == acts;
  }

  /** Interactive runtime at `w` of a session begun at `w0`. */
  function InteractiveSince(w0: Timeline, w: Timeline, grace: nat): int
    requires Readable(w)
    requires Readable(w0)
    requires w0.now <= w.now
  {
    Interactive(FullSeconds(w0, w), Billable(w, BaselineOf(w0), grace))
  }

  /** Between two reads of one running session interactive runtime falls by at most one second,
      and on a whole-second clock it never falls. */
  lemma InteractiveBetweenHeartbeats(origin: nat, before: seq<Act>, first: seq<Act>, second: seq<Act>, grace: nat)
    ensures var w0 := Run(Fresh(origin), before);
            var w1 := Run(w0, first);
            var w2 := Run(w1, second);
            && w0.now <= w1.now <= w2.now
            && InteractiveSince(w0, w1, grace) - 1 <= InteractiveSince(w0, w2, grace)
            && (WholeSeconds(before + first) && WholeSeconds(second) ==>
                  InteractiveSince(w0, w1, grace) <= InteractiveSince(w0, w2, grace))
  {
    var w0 := Run(Fresh(origin), before);
    var w1 := Run(w0, first);
    var w2 := Run(w1, second);
    RunLater(Fresh(origin), Fresh(origin), before);
    RunLater(w0, w0, first);
    RunLater(w1, w1, second);
    BillingTelescopes(origin, before, first, second, grace);
    RunConcat(Fresh(origin), before, first);
    BillWithinFullPlusOne(origin, before + first, second, grace);
    FloorsAdd(w1.now - w0.now, w2.now - w1.now);
    var more := Billable(w2, BaselineOf(w1), grace);
    InteractiveGrows(FullSeconds(w0, w1), FullSeconds(w1, w2), FullSeconds(w0, w2),
                     Billable(w1, BaselineOf(w0), grace), more);
  }

  lemma InteractiveGrows(full: nat, gained: nat, full': nat, billed: int, more: int)
    requires full + gained <= full' && 0 <= more <= gained + 1
    ensures Interactive(full, billed) - 1 <= Interactive(full', billed + more)
    ensures more <= gained ==> Interactive(full, billed) <= Interactive(full', billed + more)
  {
  }

  lemma FloorsAdd(a: nat, b: nat)
    ensures a / NANOS + b / NANOS <= (a + b) / NANOS
  {
  }

  lemma {:induction false} RunConcat(w: Timeline, a: seq<Act>, b: seq<Act>)
    requires Readable(w)
    ensures Run(w, a + b) == Run(Run(w, a), b)
  {
    if b == [] {
      assert a + b == a;
    } else {
      var n := |b| - 1;
      assert (a + b)[..|a + b| - 1] == a + b[..n];
      RunConcat(w, a, b[..n]);
    }
  }

  // ---- Exactly when the rounding shows ----------------------------------------------------

  /** The price of `w` in nanoseconds, with the open interval not floored. */
  function ExactPrice(w: Timeline, grace: nat): int
    requires Readable(w)
  {
    NANOS * PriceSealed(w.tracker.sealed, grace)
    + (if w.tracker.since.Some? then Max(0, w.now - w.tracker.since.value - NANOS * grace) else 0)
  }

  /** The part of it that flooring has not billed yet. */
  function Unbilled(w: Timeline, grace: nat): int
    requires Readable(w)
  {
    if w.tracker.since.Some? && OpenSeconds(w) >= grace then Fraction(w) else 0
  }

  lemma ExactPriceSplits(w: Timeline, grace: nat)
    requires Readable(w)
    ensures ExactPrice(w, grace) == NANOS * Price(w, grace) + Unbilled(w, grace)
    ensures 0 <= Unbilled(w, grace) < NANOS
  {
  }

  lemma StepPriceWithinElapsed(w: Timeline, a: Act, grace: nat)
    requires Readable(w)
    ensures ExactPrice(Step(w, a), grace) - ExactPrice(w, grace) <= Step(w, a).now - w.now
  {
    if a == Edge(false) && w.tracker.since.Some? {
      var sealed := Step(w, a).tracker.sealed;
      assert sealed[..|sealed| - 1] == w.tracker.sealed;
      ExactPriceSplits(w, grace);
    }
  }

  lemma {:induction false} PriceWithinElapsed(w: Timeline, acts: seq<Act>, grace: nat)
    requires Readable(w)
    ensures ExactPrice(Run(w, acts), grace) - ExactPrice(w, grace) <= Run(w, acts).now - w.now
  {
    if acts != [] {
      PriceWithinElapsed(w, acts[..|acts| - 1], grace);
      StepPriceWithinElapsed(Run(w, acts[..|acts| - 1]), acts[|acts| - 1], grace);
    }
  }

  /** At `w1` the open interval is past its grace and further into its second than the session
      begun at `w0` is into its own: a second of idling will be billed before one is played. */
  predicate SecondOwed(w0: Timeline, w1: Timeline, grace: nat)
    requires Readable(w1) && w0.now <= w1.now
  {
    && w1.tracker.since.Some? && OpenSeconds(w1) >= grace
    && Fraction(w1) > (w1.now - w0.now) % NANOS
  }

  /** From `w1` on the bill grows by more than the full runtime. */
  predicate BillOutgrows(w0: Timeline, w1: Timeline, acts: seq<Act>, grace: nat)
    requires Readable(w0) && Readable(w1) && w0.now <= w1.now
  {
    var w := Run(w1, acts);
    Price(w, grace) - Price(w1, grace) > FullSeconds(w0, w) - FullSeconds(w0, w1)
  }

  /** The moment at which the open interval completes its second. */
  function UntilNextSecond(w: Timeline): seq<Act>
    requires Readable(w)
  {
    [Advance(NANOS - Fraction(w))]
  }

  lemma FloorGap(played: nat, elapsed: nat, price: int, unbilled: int)
    requires NANOS * price <= elapsed + unbilled && price > (played + elapsed) / NANOS - played / NANOS
    ensures unbilled > played % NANOS
  {
    var gained := (played + elapsed) / NANOS - played / NANOS;
    assert NANOS * (gained + 1) <= NANOS * price;
    assert played % NANOS + elapsed < NANOS * (gained + 1);
  }

  lemma OutgrowingIsOwed(w0: Timeline, w1: Timeline, acts: seq<Act>, grace: nat)
    requires Readable(w0) && Readable(w1) && w0.now <= w1.now && BillOutgrows(w0, w1, acts, grace)
    ensures SecondOwed(w0, w1, grace)
  {
    var w := Run(w1, acts);
    PriceWithinElapsed(w1, acts, grace);
    ExactPriceSplits(w1, grace);
    ExactPriceSplits(w, grace);
    FloorGap(w1.now - w0.now, w.now - w1.now, Price(w, grace) - Price(w1, grace), Unbilled(w1, grace));
  }

  lemma NextSecondFloors(played: nat, idle: nat)
    requires idle % NANOS > played % NANOS
    ensures (played + (NANOS - idle % NANOS)) / NANOS == played / NANOS
    ensures (idle + (NANOS - idle % NANOS)) / NANOS == idle / NANOS + 1
  {
  }

  lemma OwedOutgrows(w0: Timeline, w1: Timeline, grace: nat)
    requires Readable(w0) && Readable(w1) && w0.now <= w1.now && SecondOwed(w0, w1, grace)
    ensures BillOutgrows(w0, w1, UntilNextSecond(w1), grace)
  {
    var a := UntilNextSecond(w1);
    RunSnoc(w1, [], a[0]);
    assert [] + [a[0]] == a;
    NextSecondFloors(w1.now - w0.now, w1.now - w1.tracker.since.value);
  }

  /** Some further history makes the session's interactive runtime fall below what was read at
      `w1` exactly when a second is owed there and there is a second to lose. */
  lemma InteractiveFallsIff(w0: Timeline, w1: Timeline, grace: nat)
    requires Later(w0, w1)
    ensures (exists acts :: InteractiveSince(w0, Run(w1, acts), grace) < InteractiveSince(w0, w1, grace))
            <==> SecondOwed(w0, w1, grace) && InteractiveSince(w0, w1, grace) > 0
  {
    if acts :| InteractiveSince(w0, Run(w1, acts), grace) < InteractiveSince(w0, w1, grace) {
      FallIsOutgrowing(w0, w1, acts, grace);
      OutgrowingIsOwed(w0, w1, acts, grace);
    }
    if SecondOwed(w0, w1, grace) && InteractiveSince(w0, w1, grace) > 0 {
      OwedOutgrows(w0, w1, grace);
      FallIsOutgrowing(w0, w1, UntilNextSecond(w1), grace);
    }
  }

  lemma FallIsOutgrowing(w0: Timeline, w1: Timeline, acts: seq<Act>, grace: nat)
    requires Later(w0, w1)
    ensures InteractiveSince(w0, Run(w1, acts), grace) < InteractiveSince(w0, w1, grace)
            <==> BillOutgrows(w0, w1, acts, grace) && InteractiveSince(w0, w1, grace) > 0
  {
    var w := Run(w1, acts);
    RunLater(w0, w1, acts);
    BillIsPriceGrowth(w0, w1, grace);
    BillIsPriceGrowth(w0, w, grace);
    PriceGrows(w0, w1, grace);
    PriceGrows(w0, w, grace);
    FloorsAdd(w1.now - w0.now, w.now - w1.now);
  }

  /** Some history makes the bill of a session begun at `w0` exceed its full runtime, so that the
      clamp binds, exactly when it begins in the middle of a second of idling past its grace. */
  lemma BillExceedsFullIff(w0: Timeline, grace: nat)
    requires WellTimed(w0)
    ensures (exists acts :: Billable(Run(w0, acts), BaselineOf(w0), grace) > FullSeconds(w0, Run(w0, acts)))
            <==> w0.tracker.since.Some? && OpenSeconds(w0) >= grace && Fraction(w0) > 0
  {
    if acts :| Billable(Run(w0, acts), BaselineOf(w0), grace) > FullSeconds(w0, Run(w0, acts)) {
      RunLater(w0, w0, acts);
      BillIsPriceGrowth(w0, Run(w0, acts), grace);
      OutgrowingIsOwed(w0, w0, acts, grace);
    }
    if w0.tracker.since.Some? && OpenSeconds(w0) >= grace && Fraction(w0) > 0 {
      var acts := UntilNextSecond(w0);
      OwedOutgrows(w0, w0, grace);
      RunLater(w0, w0, acts);
      BillIsPriceGrowth(w0, Run(w0, acts), grace);
      assert Billable(Run(w0, acts), BaselineOf(w0), grace) > FullSeconds(w0, Run(w0, acts));
    }
  }

  /** A fall: half a second of play, then idle; the reads are at 1.4 and 1.5 seconds. */
  lemma FallIsReached(origin: nat)
    ensures var w0 := Fresh(origin);
            var w1 := Run(w0, [Advance(500_000_000), Edge(true), Advance(900_000_000)]);
            var w2 := Run(w1, [Advance(100_000_000)]);
            InteractiveSince(w0, w1, 0) == 1 && InteractiveSince(w0, w2, 0) == 0
  {
    var w0 := Fresh(origin);
    var play, idle, read := Advance(500_000_000), Edge(true), Advance(900_000_000);
    RunSnoc(w0, [], play);
    RunSnoc(w0, [play], idle);
    RunSnoc(w0, [play, idle], read);
    assert [] + [play] == [play] && [play] + [idle] == [play, idle] && [play, idle] + [read] == [play, idle, read];
    var w1 := Timeline(Tracker([], Some(origin + 500_000_000)), origin + 1_400_000_000);
    RunSnoc(w1, [], Advance(100_000_000));
    assert [] + [Advance(100_000_000)] == [Advance(100_000_000)];
  }

  // ---- The tracker object -----------------------------------------------------------------

  function SumOf(s: seq<int>): int {
    if s == [] then 0 else SumOf(s[..|s| - 1]) + s[|s| - 1]
  }

  lemma {:induction false} SumIsPriceWithoutGrace(s: seq<int>)
    requires forall k :: 0 <= k < |s| ==> s[k] >= 0
    ensures SumOf(s) == PriceSealed(s, 0)
  {
    if s != [] {
      SumIsPriceWithoutGrace(s[..|s| - 1]);
    }
  }

  lemma {:induction false} PrefixSumsSmaller(s: seq<int>, k: nat)
    requires k <= |s|
    requires forall i :: 0 <= i < |s| ==> s[i] >= 0
    ensures 0 <= SumOf(s[..k]) <= SumOf(s)
    decreases |s|
  {
    if k == |s| {
      assert s[..k] == s;
      if s != [] {
        PrefixSumsSmaller(s[..|s| - 1], k - 1);
        assert s[..|s| - 1][..k - 1] == s[..|s| - 1];
      }
    } else {
      PrefixSumsSmaller(s[..|s| - 1], k);
      assert s[..|s| - 1][..k] == s[..k];
    }
  }

  lemma {:induction false} BillAtMostSum(s: seq<int>, b: Baseline, grace: nat)
    requires forall k :: 0 <= k < |s| ==> s[k] >= 0
    requires b.open >= 0
    ensures 0 <= BillSealed(s, b, grace) <= SumOf(s)
  {
    if |s| > b.count {
      BillAtMostSum(s[..|s| - 1], b, grace);
    } else {
      PrefixSumsSmaller(s, |s|);
      assert s[..|s|] == s;
    }
  }

  /** One more sealed interval, and the sum still fits. */
  lemma BillOneMore(s: seq<int>, i: nat, b: Baseline, grace: nat)
    requires b.count <= i < |s| && b.open >= 0
    requires forall k :: 0 <= k < |s| ==> s[k] >= 0
    ensures BillSealed(s[..i + 1], b, grace)
            == BillSealed(s[..i], b, grace) + Max(0, s[i] - Forgiven(i == b.count, b, grace))
    ensures BillSealed(s[..i + 1], b, grace) <= SumOf(s[..i + 1])
  {
    assert s[..i + 1][..i] == s[..i];
    BillAtMostSum(s[..i + 1], b, grace);
  }

  class IdleTracker {
    var sealed: seq<int>
    var since: Option<nat>
    ghost var origin: nat
    ghost var history: seq<Act>

    ghost function Moment(): Timeline
      reads this
    {
      Run(Fresh(origin), history)
    }

    ghost predicate Valid()
      reads this
    {
      Moment().tracker == Tracker(sealed, since)
    }

    /** The moment `now` of the tracker's history, at or after its last recorded edge. */
    ghost function At(now: nat): Timeline
      reads this
    {
      Timeline(Tracker(sealed, since), now)
    }

    /** Idle time never exceeds the time that has passed, so no sum of it leaves 64 bits. */
    lemma SumsFit(now: nat)
      requires Valid() && Moment().now <= now <= CLOCK_LIMIT
      ensures WellTimed(At(now))
      ensures SumOf(sealed) + OpenSeconds(At(now)) <= I64_MAX
      ensures forall k :: 0 <= k <= |sealed| ==> 0 <= SumOf(sealed[..k]) <= SumOf(sealed)
    {
      var acts := history + [Advance(now - Moment().now)];
      RunSnoc(Fresh(origin), history, Advance(now - Moment().now));
      IdleWithinElapsed(Fresh(origin), acts);
      SumIsPriceWithoutGrace(sealed);
      forall k | 0 <= k <= |sealed|
        ensures 0 <= SumOf(sealed[..k]) <= SumOf(sealed)
      {
        PrefixSumsSmaller(sealed, k);
      }
    }

    constructor (now: nat)
      ensures Valid() && Moment() == Fresh(now) && fresh(this)
    {
      sealed, since := [], None;
      origin, history := now, [];
    }

    method SetIdle(idle: bool, now: nat)
      requires Valid() && Moment().now <= now
      modifies this
      ensures Valid() && Moment() == Step(old(At(now)), Edge(idle))
      ensures Tracker(sealed, since) == AfterEdge(old(Tracker(sealed, since)), idle, now)
    {
      ghost var passed := history + [Advance(now - Moment().now)];
      RunSnoc(Fresh(origin), history, Advance(now - Moment().now));
      RunSnoc(Fresh(origin), passed, Edge(idle));
      match (since, idle) {
        case (None, true) =>
          since := Some(now);
        case (Some(from), false) =>
          sealed := sealed + [SecondsBetween(from, now)];
          since := None;
        case _ =>
      }
      history := passed + [Edge(idle)];
    }

    method SessionStartBaseline(now: nat) returns (b: Baseline)
      requires Valid() && Moment().now <= now
      ensures b == BaselineOf(At(now))
    {
      var open := 0;
      if since.Some? {
        open := SecondsBetween(since.value, now);
      }
      b := Baseline(|sealed|, open);
    }

    method AccumulatedIdleSeconds(now: nat) returns (total: int)
      requires Valid() && Moment().now <= now <= CLOCK_LIMIT
      ensures total == SumOf(sealed) + OpenSeconds(At(now))
    {
      SumsFit(now);
      total := 0;
      for i := 0 to |sealed|
        invariant total == SumOf(sealed[..i])
      {
        assert sealed[..i + 1][..i] == sealed[..i];
        assert SumOf(sealed[..i + 1]) == SumOf(sealed[..i]) + sealed[i];
        total := SaturatingAdd(total, sealed[i]);
      }
      assert sealed[..|sealed|] == sealed;
      if since.Some? {
        total := SaturatingAdd(total, SecondsBetween(since.value, now));
      }
    }

    /** The loop with its saturating sums returns the exact bill. */
    method BillableIdleSecondsSince(b: Baseline, grace: nat, now: nat) returns (total: int)
      requires Valid() && Moment().now <= now <= CLOCK_LIMIT && b.open >= 0
      ensures total == Billable(At(now), b, grace)
    {
      SumsFit(now);
      total := 0;
      var first := true;
      var i := b.count;
      if |sealed| < i {
        i := |sealed|;
      }
      while i < |sealed|
        invariant Min(b.count, |sealed|) <= i <= |sealed|
        invariant total == BillSealed(sealed[..i], b, grace)
        invariant first <==> i <= b.count
      {
        BillOneMore(sealed, i, b, grace);
        total := SaturatingAdd(total, Max(0, sealed[i] - Forgiven(first, b, grace)));
        first := false;
        i := i + 1;
      }
      assert sealed[..i] == sealed;
      if since.Some? {
        BillAtMostSum(sealed, b, grace);
        total := SaturatingAdd(total, Max(0, SecondsBetween(since.value, now) - Forgiven(first, b, grace)));
      }
    }
  }
}
