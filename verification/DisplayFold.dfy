/** The display fold: adjacent sessions of one application shown as a single span, with the ids
    of the rows behind it. */
module DisplayFold {
  import opened Types
  import Ledger

  /** A listed session row; `rest` is whatever else the listing carries. Times are instants. */
  datatype Row<T> = Row(id: nat, app: nat, startedAt: int, endedAt: Option<int>, full: int, interactive: int, rest: T)

  datatype Span<T> = Span(row: Row<T>, ids: seq<nat>)

  /** May the older row join a span that starts as `acc` does? */
  predicate Mergeable<T>(acc: Row<T>, older: Row<T>, gap: int) {
    acc.app == older.app && older.endedAt.Some? && acc.startedAt - older.endedAt.value <= gap
  }

  function Absorb<T>(acc: Row<T>, older: Row<T>): Row<T> {
    acc.(startedAt := older.startedAt, full := SaturatingAdd(acc.full, older.full),
         interactive := SaturatingAdd(acc.interactive, older.interactive))
  }

  function AddRow<T>(spans: seq<Span<T>>, row: Row<T>, gap: int): seq<Span<T>> {
    if spans != [] && Mergeable(spans[|spans| - 1].row, row, gap) then
      var last := spans[|spans| - 1];
      spans[..|spans| - 1] + [Span(Absorb(last.row, row), last.ids + [row.id])]
    else spans + [Span(row, [row.id])]
  }

  function Folded<T>(rows: seq<Row<T>>, gap: int): seq<Span<T>> {
    if rows == [] then [] else AddRow(Folded(rows[..|rows| - 1], gap), rows[|rows| - 1], gap)
  }

  method Fold<T>(rows: seq<Row<T>>, gap: int) returns (spans: seq<Span<T>>)
    ensures spans == Folded(rows, gap)
  {
    spans := [];
    for i := 0 to |rows|
      invariant spans == Folded(rows[..i], gap)
    {
      assert rows[..i + 1][..i] == rows[..i];
      var row := rows[i];
      if spans == [] {
        spans := [Span(row, [row.id])];
        continue;
      }
      var last := spans[|spans| - 1];
      var same := last.row.app == row.app;
      if same && row.endedAt.Some? && last.row.startedAt - row.endedAt.value <= gap {
        var acc := last.row.(startedAt := row.startedAt,
                             full := SaturatingAdd(last.row.full, row.full),
                             interactive := SaturatingAdd(last.row.interactive, row.interactive));
        spans := spans[|spans| - 1 := Span(acc, last.ids + [row.id])];
      } else {
        spans := spans + [Span(row, [row.id])];
      }
    }
    assert rows[..|rows|] == rows;
  }

  // ---- The reference: maximal runs of neighbours that may join ----------------------------

  function Concat<T>(groups: seq<seq<Row<T>>>): seq<Row<T>> {
    if groups == [] then [] else Concat(groups[..|groups| - 1]) + groups[|groups| - 1]
  }

  ghost predicate Run<T>(g: seq<Row<T>>, gap: int) {
    g != [] && forall k :: 0 <= k < |g| - 1 ==> Mergeable(g[k], g[k + 1], gap)
  }

  ghost predicate Apart<T>(g: seq<Row<T>>, h: seq<Row<T>>, gap: int)
    requires g != [] && h != []
  {
    !Mergeable(g[|g| - 1], h[0], gap)
  }

  /** `groups` cuts `rows` exactly where neighbours may not join. */
  ghost predicate IsCut<T>(rows: seq<Row<T>>, groups: seq<seq<Row<T>>>, gap: int) {
    && Concat(groups) == rows
    && (forall i :: 0 <= i < |groups| ==> Run(groups[i], gap))
    && (forall i :: 0 <= i < |groups| - 1 ==> Apart(groups[i], groups[i + 1], gap))
  }

  function IdsOf<T>(rows: seq<Row<T>>): (ids: seq<nat>)
    ensures |ids| == |rows| && forall i :: 0 <= i < |rows| ==> ids[i] == rows[i].id
  {
    seq(|rows|, i requires 0 <= i < |rows| => rows[i].id)
  }

  /** One run as one span. */
  function Squash<T>(g: seq<Row<T>>): (s: Span<T>)
    requires g != []
    ensures s.row.id == g[0].id && s.row.app == g[0].app && s.row.endedAt == g[0].endedAt && s.row.rest == g[0].rest
    ensures s.row.startedAt == g[|g| - 1].startedAt
    ensures s.ids == IdsOf(g)
  {
    if |g| == 1 then Span(g[0], [g[0].id])
    else
      var s, r := Squash(g[..|g| - 1]), g[|g| - 1];
      Span(Absorb(s.row, r), s.ids + [r.id])
  }

  ghost predicate NonEmpty<T>(groups: seq<seq<Row<T>>>) {
    forall i :: 0 <= i < |groups| ==> groups[i] != []
  }

  function SquashAll<T>(groups: seq<seq<Row<T>>>): (spans: seq<Span<T>>)
    requires NonEmpty(groups)
    ensures |spans| == |groups| && forall i :: 0 <= i < |groups| ==> spans[i] == Squash(groups[i])
  {
    if groups == [] then [] else SquashAll(groups[..|groups| - 1]) + [Squash(groups[|groups| - 1])]
  }

  lemma {:induction false} RunHasOneApp<T>(g: seq<Row<T>>, gap: int)
    requires Run(g, gap)
    ensures g[|g| - 1].app == g[0].app
  {
    if |g| > 1 {
      RunHasOneApp(g[..|g| - 1], gap);
      assert Mergeable(g[|g| - 2], g[|g| - 1], gap);
    }
  }

  /** Joining a span is joining the last of its rows. */
  lemma MergeableOntoSpan<T>(g: seq<Row<T>>, r: Row<T>, gap: int)
    requires Run(g, gap)
    ensures Mergeable(Squash(g).row, r, gap) <==> Mergeable(g[|g| - 1], r, gap)
  {
    RunHasOneApp(g, gap);
  }

  lemma CutWithoutLastRow<T>(rows: seq<Row<T>>, groups: seq<seq<Row<T>>>, gap: int) returns (shorter: seq<seq<Row<T>>>)
    requires rows != [] && IsCut(rows, groups, gap)
    ensures groups != [] && groups[|groups| - 1] != [] && groups[|groups| - 1][|groups[|groups| - 1]| - 1] == rows[|rows| - 1]
    ensures var last := groups[|groups| - 1];
            var init := groups[..|groups| - 1];
            shorter == if |last| == 1 then init else init + [last[..|last| - 1]]
    ensures IsCut(rows[..|rows| - 1], shorter, gap)
  {
    var last := groups[|groups| - 1];
    var init := groups[..|groups| - 1];
    assert Run(last, gap);
    assert rows == Concat(init) + last;
    if |last| == 1 {
      shorter := init;
      assert rows[..|rows| - 1] == Concat(init);
    } else {
      var front := last[..|last| - 1];
      shorter := init + [front];
      assert shorter[..|shorter| - 1] == init;
      assert rows[..|rows| - 1] == Concat(init) + front;
      forall i | 0 <= i < |shorter| - 1
        ensures Apart(shorter[i], shorter[i + 1], gap)
      {
        assert Apart(groups[i], groups[i + 1], gap);
      }
    }
    forall i | 0 <= i < |shorter|
      ensures Run(shorter[i], gap)
    {
      assert Run(groups[i], gap);
    }
    forall i | 0 <= i < |shorter| - 1
      ensures Apart(shorter[i], shorter[i + 1], gap)
    {
      assert Apart(groups[i], groups[i + 1], gap);
    }
  }

  lemma CutNonEmpty<T>(rows: seq<Row<T>>, groups: seq<seq<Row<T>>>, gap: int)
    requires IsCut(rows, groups, gap)
    ensures NonEmpty(groups) && (rows == [] ==> groups == [])
  {
    forall i | 0 <= i < |groups|
      ensures groups[i] != []
    {
      assert Run(groups[i], gap);
    }
  }

  /** The next row after spans that end with run `front`. */
  lemma JoinLastSpan<T>(init: seq<seq<Row<T>>>, front: seq<Row<T>>, row: Row<T>, gap: int)
    requires NonEmpty(init) && Run(front + [row], gap) && front != []
    ensures AddRow(SquashAll(init + [front]), row, gap) == SquashAll(init + [front + [row]])
  {
    var whole := front + [row];
    assert Mergeable(whole[|front| - 1], whole[|front|], gap);
    assert Run(front, gap) by {
      forall k | 0 <= k < |front| - 1
        ensures Mergeable(front[k], front[k + 1], gap)
      {
        assert Mergeable(whole[k], whole[k + 1], gap);
      }
    }
    MergeableOntoSpan(front, row, gap);
    assert whole[..|whole| - 1] == front;
    assert (init + [front])[..|init|] == init && (init + [whole])[..|init|] == init;
  }

  lemma OpenNewSpan<T>(init: seq<seq<Row<T>>>, row: Row<T>, gap: int)
    requires NonEmpty(init)
    requires init != [] ==> Run(init[|init| - 1], gap) && Apart(init[|init| - 1], [row], gap)
    ensures AddRow(SquashAll(init), row, gap) == SquashAll(init + [[row]])
  {
    if init != [] {
      MergeableOntoSpan(init[|init| - 1], row, gap);
    }
    SquashAllSnoc(init, [row]);
  }

  lemma SquashAllSnoc<T>(init: seq<seq<Row<T>>>, g: seq<Row<T>>)
    requires NonEmpty(init) && g != []
    ensures NonEmpty(init + [g]) && SquashAll(init + [g]) == SquashAll(init) + [Squash(g)]
  {
    assert (init + [g])[..|init|] == init;
  }

  lemma ShowLastRow<T>(init: seq<seq<Row<T>>>, last: seq<Row<T>>, shorter: seq<seq<Row<T>>>, row: Row<T>, gap: int)
    requires NonEmpty(init) && Run(last, gap) && last[|last| - 1] == row
    requires init != [] ==> Run(init[|init| - 1], gap) && Apart(init[|init| - 1], last, gap)
    requires shorter == if |last| == 1 then init else init + [last[..|last| - 1]]
    ensures NonEmpty(shorter) && NonEmpty(init + [last])
    ensures AddRow(SquashAll(shorter), row, gap) == SquashAll(init + [last])
  {
    if |last| == 1 {
      assert last == [row];
      OpenNewSpan(init, row, gap);
    } else {
      assert last == last[..|last| - 1] + [row];
      JoinLastSpan(init, last[..|last| - 1], row, gap);
    }
  }

  lemma LastGroupShown<T>(rows: seq<Row<T>>, groups: seq<seq<Row<T>>>, shorter: seq<seq<Row<T>>>, row: Row<T>, gap: int)
    requires IsCut(rows, groups, gap) && NonEmpty(groups) && groups != []
    requires var last := groups[|groups| - 1];
             && last[|last| - 1] == row
             && shorter == if |last| == 1 then groups[..|groups| - 1] else groups[..|groups| - 1] + [last[..|last| - 1]]
    ensures NonEmpty(shorter) && AddRow(SquashAll(shorter), row, gap) == SquashAll(groups)
  {
    var n := |groups| - 1;
    assert Run(groups[n], gap);
    if n > 0 {
      assert Run(groups[n - 1], gap) && Apart(groups[n - 1], groups[n - 1 + 1], gap);
    }
    ShowLastRow(groups[..n], groups[n], shorter, row, gap);
    FrontAndLast(groups);
  }

  /** The fold shows exactly the maximal runs: any way of cutting the rows where neighbours may
      not join is the one it displays. */
  lemma {:induction false} FoldShowsMaximalRuns<T>(rows: seq<Row<T>>, groups: seq<seq<Row<T>>>, gap: int)
    requires IsCut(rows, groups, gap)
    ensures NonEmpty(groups)
    ensures Folded(rows, gap) == SquashAll(groups)
    decreases |rows|
  {
    CutNonEmpty(rows, groups, gap);
    if rows != [] {
      var shorter := CutWithoutLastRow(rows, groups, gap);
      FoldShowsMaximalRuns(rows[..|rows| - 1], shorter, gap);
      LastGroupShown(rows, groups, shorter, rows[|rows| - 1], gap);
    }
  }

  lemma FrontAndLast<A>(s: seq<A>)
    requires s != []
    ensures s == s[..|s| - 1] + [s[|s| - 1]]
  {
  }

  /** Such a cut always exists. */
  function Cut<T>(rows: seq<Row<T>>, gap: int): (groups: seq<seq<Row<T>>>)
    ensures IsCut(rows, groups, gap)
  {
    if rows == [] then []
    else
      var init, row := Cut(rows[..|rows| - 1], gap), rows[|rows| - 1];
      CutExtends(rows[..|rows| - 1], init, row, gap);
      assert rows[..|rows| - 1] + [row] == rows;
      Placed(init, row, gap)
  }

  function Placed<T>(groups: seq<seq<Row<T>>>, row: Row<T>, gap: int): seq<seq<Row<T>>> {
    if groups != [] && groups[|groups| - 1] != []
       && Mergeable(groups[|groups| - 1][|groups[|groups| - 1]| - 1], row, gap)
    then groups[..|groups| - 1] + [groups[|groups| - 1] + [row]]
    else groups + [[row]]
  }

  lemma CutExtends<T>(rows: seq<Row<T>>, groups: seq<seq<Row<T>>>, row: Row<T>, gap: int)
    requires IsCut(rows, groups, gap)
    ensures IsCut(rows + [row], Placed(groups, row, gap), gap)
  {
    var longer := Placed(groups, row, gap);
    var n := |longer| - 1;
    if |longer| == |groups| {
      var last := groups[n];
      assert Run(last, gap);
      assert longer[..n] == groups[..n] && longer[n] == last + [row];
      assert Concat(longer) == Concat(groups[..n]) + (last + [row]);
      assert rows + [row] == (Concat(groups[..n]) + last) + [row];
      assert Run(longer[n], gap) by {
        forall k | 0 <= k < |last|
          ensures Mergeable(longer[n][k], longer[n][k + 1], gap)
        {
          if k < |last| - 1 {
            assert Mergeable(last[k], last[k + 1], gap);
          }
        }
      }
    } else {
      assert longer[..n] == groups;
      assert Run(longer[n], gap);
    }
    forall i | 0 <= i < |longer|
      ensures Run(longer[i], gap)
    {
      if i < n {
        assert Run(groups[i], gap);
      }
    }
    forall i | 0 <= i < |longer| - 1
      ensures Apart(longer[i], longer[i + 1], gap)
    {
      assert Run(groups[i], gap);
      if i + 1 < |groups| {
        assert Apart(groups[i], groups[i + 1], gap) && Run(groups[i + 1], gap);
      }
    }
  }

  // ---- Nothing lost, nothing left to join -------------------------------------------------

  function AllIds<T>(spans: seq<Span<T>>): seq<nat> {
    if spans == [] then [] else AllIds(spans[..|spans| - 1]) + spans[|spans| - 1].ids
  }

  function TotalFull<T>(rows: seq<Row<T>>): int {
    if rows == [] then 0 else TotalFull(rows[..|rows| - 1]) + rows[|rows| - 1].full
  }

  function TotalInteractive<T>(rows: seq<Row<T>>): int {
    if rows == [] then 0 else TotalInteractive(rows[..|rows| - 1]) + rows[|rows| - 1].interactive
  }

  function RowsOf<T>(spans: seq<Span<T>>): (rows: seq<Row<T>>)
    ensures |rows| == |spans| && forall i :: 0 <= i < |spans| ==> rows[i] == spans[i].row
  {
    seq(|spans|, i requires 0 <= i < |spans| => spans[i].row)
  }

  lemma AddRowAddsId<T>(spans: seq<Span<T>>, row: Row<T>, gap: int)
    ensures AllIds(AddRow(spans, row, gap)) == AllIds(spans) + [row.id]
  {
    var after := AddRow(spans, row, gap);
    var n := |after| - 1;
    if |after| == |spans| {
      assert after[..n] == spans[..n];
      assert AllIds(spans) == AllIds(spans[..n]) + spans[n].ids;
      assert AllIds(after) == AllIds(spans[..n]) + (spans[n].ids + [row.id]);
    } else {
      assert after[..n] == spans;
    }
  }

  /** Read in order, the fragment ids are the ids of the rows. */
  lemma {:induction false} FragmentIdsAreRowIds<T>(rows: seq<Row<T>>, gap: int)
    ensures AllIds(Folded(rows, gap)) == IdsOf(rows)
  {
    if rows != [] {
      FragmentIdsAreRowIds(rows[..|rows| - 1], gap);
      AddRowAddsId(Folded(rows[..|rows| - 1], gap), rows[|rows| - 1], gap);
      IdsOfSnoc(rows);
    }
  }

  lemma IdsOfSnoc<T>(rows: seq<Row<T>>)
    requires rows != []
    ensures IdsOf(rows) == IdsOf(rows[..|rows| - 1]) + [rows[|rows| - 1].id]
  {
  }

  lemma {:induction false} TotalsNonNegative<T>(rows: seq<Row<T>>)
    requires AllChecked(rows)
    ensures 0 <= TotalInteractive(rows) <= TotalFull(rows)
    ensures forall i :: 0 <= i < |rows| ==> rows[i].full <= TotalFull(rows) && rows[i].interactive <= TotalInteractive(rows)
  {
    if rows != [] {
      var init := rows[..|rows| - 1];
      TotalsNonNegative(init);
      assert forall i :: 0 <= i < |init| ==> rows[i] == init[i];
    }
  }

  lemma TotalsOfSnoc<T>(rows: seq<Row<T>>, r: Row<T>)
    ensures TotalFull(rows + [r]) == TotalFull(rows) + r.full
    ensures TotalInteractive(rows + [r]) == TotalInteractive(rows) + r.interactive
  {
    assert (rows + [r])[..|rows|] == rows;
  }

  lemma AbsorbingConservesTotals<T>(init: seq<Row<T>>, last: Row<T>, row: Row<T>)
    requires TotalFull(init + [last]) + row.full <= I64_MAX
    requires TotalInteractive(init + [last]) + row.interactive <= I64_MAX
    requires TotalFull(init) >= 0 && TotalInteractive(init) >= 0
    ensures TotalFull(init + [Absorb(last, row)]) == TotalFull(init + [last]) + row.full
    ensures TotalInteractive(init + [Absorb(last, row)]) == TotalInteractive(init + [last]) + row.interactive
    ensures Absorb(last, row).full == last.full + row.full
    ensures Absorb(last, row).interactive == last.interactive + row.interactive
  {
    TotalsOfSnoc(init, last);
    TotalsOfSnoc(init, Absorb(last, row));
  }

  ghost predicate AllChecked<T>(rows: seq<Row<T>>) {
    forall i :: 0 <= i < |rows| ==> Ledger.CheckedRuntimes(rows[i].full, rows[i].interactive)
  }

  lemma AddRowConservesTotals<T>(spans: seq<Span<T>>, row: Row<T>, gap: int)
    requires AllChecked(RowsOf(spans)) && Ledger.CheckedRuntimes(row.full, row.interactive)
    requires TotalFull(RowsOf(spans)) + row.full <= I64_MAX
    requires TotalInteractive(RowsOf(spans)) + row.interactive <= I64_MAX
    ensures var shown := RowsOf(AddRow(spans, row, gap));
            && TotalFull(shown) == TotalFull(RowsOf(spans)) + row.full
            && TotalInteractive(shown) == TotalInteractive(RowsOf(spans)) + row.interactive
            && AllChecked(shown)
  {
    var shown := RowsOf(spans);
    var after := RowsOf(AddRow(spans, row, gap));
    if |after| == |shown| {
      var front, last := shown[..|shown| - 1], shown[|shown| - 1];
      TotalsNonNegative(front);
      assert shown == front + [last];
      AbsorbingConservesTotals(front, last, row);
      assert after == front + [Absorb(last, row)];
    } else {
      TotalsOfSnoc(shown, row);
      assert after == shown + [row];
    }
  }

  /** Totals are conserved as long as they fit 64 bits. */
  lemma {:induction false} FoldConservesTotals<T>(rows: seq<Row<T>>, gap: int)
    requires AllChecked(rows) && TotalFull(rows) <= I64_MAX
    ensures var shown := RowsOf(Folded(rows, gap));
            && TotalFull(shown) == TotalFull(rows)
            && TotalInteractive(shown) == TotalInteractive(rows)
            && AllChecked(shown)
  {
    if rows != [] {
      TotalsNonNegative(rows);
      FoldConservesTotals(rows[..|rows| - 1], gap);
      AddRowConservesTotals(Folded(rows[..|rows| - 1], gap), rows[|rows| - 1], gap);
    }
  }

  predicate SpansApart<T>(spans: seq<Span<T>>, i: nat, gap: int)
    requires i + 1 < |spans|
  {
    !Mergeable(spans[i].row, spans[i + 1].row, gap)
  }

  predicate AllApart<T>(spans: seq<Span<T>>, gap: int) {
    forall i :: 0 <= i < |spans| - 1 ==> SpansApart(spans, i, gap)
  }

  /** No two neighbouring spans could still be joined. */
  lemma {:induction false} NeighboursApart<T>(rows: seq<Row<T>>, gap: int)
    ensures AllApart(Folded(rows, gap), gap)
  {
    var groups := Cut(rows, gap);
    FoldShowsMaximalRuns(rows, groups, gap);
    var spans := Folded(rows, gap);
    forall i | 0 <= i < |spans| - 1
      ensures SpansApart(spans, i, gap)
    {
      assert Apart(groups[i], groups[i + 1], gap) && Run(groups[i], gap);
      MergeableOntoSpan(groups[i], groups[i + 1][0], gap);
    }
  }

  lemma {:induction false} UnjoinableRowsStay<T>(rows: seq<Row<T>>, gap: int)
    requires forall i :: 0 <= i < |rows| - 1 ==> !Mergeable(rows[i], rows[i + 1], gap)
    ensures RowsOf(Folded(rows, gap)) == rows
  {
    if rows != [] {
      var init := rows[..|rows| - 1];
      UnjoinableRowsStay(init, gap);
      if |rows| > 1 {
        assert !Mergeable(rows[|rows| - 2], rows[|rows| - 1], gap);
        assert RowsOf(Folded(init, gap))[|rows| - 2] == rows[|rows| - 2];
      }
      assert RowsOf(Folded(rows, gap)) == init + [rows[|rows| - 1]];
    }
  }

  /** Two rows are shown as one span exactly when they are of one application, the older one has
      ended, and no more than `gap` lies between its end and the start of the newer one. */
  lemma TwoRowsJoinIff<T>(newer: Row<T>, older: Row<T>, gap: int)
    ensures |Folded([newer, older], gap)| == 1
            <==> newer.app == older.app && older.endedAt.Some? && newer.startedAt <= older.endedAt.value + gap
  {
    assert [newer, older][..1] == [newer] && [newer][..0] == [];
    assert Folded([newer], gap) == [Span(newer, [newer.id])];
  }

  /** Folding what is shown changes nothing. */
  lemma FoldIdempotent<T>(rows: seq<Row<T>>, gap: int)
    ensures RowsOf(Folded(RowsOf(Folded(rows, gap)), gap)) == RowsOf(Folded(rows, gap))
  {
    var spans := Folded(rows, gap);
    NeighboursApart(rows, gap);
    forall i | 0 <= i < |spans| - 1
      ensures !Mergeable(RowsOf(spans)[i], RowsOf(spans)[i + 1], gap)
    {
      assert SpansApart(spans, i, gap);
    }
    UnjoinableRowsStay(RowsOf(spans), gap);
  }

  // ---- Row limits -------------------------------------------------------------------------

  /** `full` shows what `cut` shows, except that the last span of `cut` may go further back. */
  ghost predicate Prolongs<T>(cut: seq<Span<T>>, full: seq<Span<T>>) {
    && |cut| <= |full|
    && (forall i :: 0 <= i < |cut| - 1 ==> cut[i] == full[i])
    && (cut != [] ==>
          var a, b := cut[|cut| - 1], full[|cut| - 1];
          && a.ids <= b.ids && a.row.id == b.row.id && a.row.app == b.row.app
          && a.row.endedAt == b.row.endedAt && a.row.rest == b.row.rest)
  }

  lemma RowProlongs<T>(cut: seq<Span<T>>, full: seq<Span<T>>, row: Row<T>, gap: int)
    requires Prolongs(cut, full)
    ensures Prolongs(cut, AddRow(full, row, gap))
  {
  }

  /** Folding only the newest `n` rows shows the spans of the full history, the last of them
      possibly with only the newest of its fragments. */
  lemma {:induction false} LimitNeverDistortsSpans<T>(rows: seq<Row<T>>, n: nat, gap: int)
    requires n <= |rows|
    ensures Prolongs(Folded(rows[..n], gap), Folded(rows, gap))
    decreases |rows|
  {
    if n == |rows| {
      assert rows[..n] == rows;
    } else {
      var init := rows[..|rows| - 1];
      assert init[..n] == rows[..n];
      LimitNeverDistortsSpans(init, n, gap);
      RowProlongs(Folded(rows[..n], gap), Folded(init, gap), rows[|rows| - 1], gap);
    }
  }

  // ---- Deleting a span --------------------------------------------------------------------

  function Filter<T>(rows: seq<Row<T>>, ids: seq<nat>): seq<Row<T>> {
    if rows == [] then []
    else
      var rest := Filter(rows[..|rows| - 1], ids);
      if rows[|rows| - 1].id in ids then rest else rest + [rows[|rows| - 1]]
  }

  lemma {:induction false} FilterConcat<T>(a: seq<Row<T>>, b: seq<Row<T>>, ids: seq<nat>)
    ensures Filter(a + b, ids) == Filter(a, ids) + Filter(b, ids)
  {
    if b == [] {
      assert a + b == a;
    } else {
      assert (a + b)[..|a + b| - 1] == a + b[..|b| - 1];
      FilterConcat(a, b[..|b| - 1], ids);
    }
  }

  lemma {:induction false} FilterAll<T>(rows: seq<Row<T>>, ids: seq<nat>)
    ensures (forall r :: r in rows ==> r.id !in ids) ==> Filter(rows, ids) == rows
    ensures (forall r :: r in rows ==> r.id in ids) ==> Filter(rows, ids) == []
  {
    if rows != [] {
      FilterAll(rows[..|rows| - 1], ids);
      assert rows[|rows| - 1] in rows;
    }
  }

  ghost predicate DistinctIds<T>(rows: seq<Row<T>>) {
    forall i, j :: 0 <= i < j < |rows| ==> rows[i].id != rows[j].id
  }

  lemma {:induction false} ConcatAt<T>(groups: seq<seq<Row<T>>>, i: nat)
    requires i < |groups|
    ensures Concat(groups) == Concat(groups[..i]) + groups[i] + Concat(groups[i + 1..])
    decreases |groups|
  {
    var n := |groups| - 1;
    if i == n {
      assert groups[i + 1..] == [];
    } else {
      ConcatAt(groups[..n], i);
      assert groups[..n][..i] == groups[..i];
      assert groups[i + 1..][..|groups[i + 1..]| - 1] == groups[..n][i + 1..];
      assert groups[i + 1..][|groups[i + 1..]| - 1] == groups[n];
      assert Concat(groups) == (Concat(groups[..i]) + groups[i] + Concat(groups[..n][i + 1..])) + groups[n];
    }
  }

  lemma {:induction false} ConcatTwo<T>(a: seq<seq<Row<T>>>, b: seq<seq<Row<T>>>)
    ensures Concat(a + b) == Concat(a) + Concat(b)
  {
    if b == [] {
      assert a + b == a;
    } else {
      assert (a + b)[..|a + b| - 1] == a + b[..|b| - 1];
      ConcatTwo(a, b[..|b| - 1]);
    }
  }

  function Dropped<T>(s: seq<T>, i: nat): seq<T>
    requires i < |s|
  {
    s[..i] + s[i + 1..]
  }

  lemma IdsDisjoint<T>(a: seq<Row<T>>, b: seq<Row<T>>, r: Row<T>)
    requires DistinctIds(a + b)
    ensures r in a ==> r.id !in IdsOf(b)
    ensures r in b ==> r.id !in IdsOf(a)
  {
    if r in a {
      var j :| 0 <= j < |a| && a[j] == r;
      forall k | 0 <= k < |b|
        ensures b[k].id != r.id
      {
        assert (a + b)[j] == r && (a + b)[|a| + k] == b[k];
      }
    }
    if r in b {
      var j :| 0 <= j < |b| && b[j] == r;
      forall k | 0 <= k < |a|
        ensures a[k].id != r.id
      {
        assert (a + b)[|a| + j] == r && (a + b)[k] == a[k];
      }
    }
  }

  lemma DistinctParts<T>(a: seq<Row<T>>, b: seq<Row<T>>)
    requires DistinctIds(a + b)
    ensures DistinctIds(a) && DistinctIds(b)
  {
    forall i, j | 0 <= i < j < |a|
      ensures a[i].id != a[j].id
    {
      assert (a + b)[i] == a[i] && (a + b)[j] == a[j];
    }
    forall i, j | 0 <= i < j < |b|
      ensures b[i].id != b[j].id
    {
      assert (a + b)[|a| + i] == b[i] && (a + b)[|a| + j] == b[j];
    }
  }

  lemma FilterMiddle<T>(a: seq<Row<T>>, g: seq<Row<T>>, b: seq<Row<T>>)
    requires DistinctIds(a + g + b)
    ensures Filter(a + g + b, IdsOf(g)) == a + b
  {
    var ids := IdsOf(g);
    DistinctParts(a + g, b);
    assert a + g + b == a + (g + b);
    DistinctParts(a, g + b);
    forall r | r in a
      ensures r.id !in ids
    {
      IdsDisjoint(a, g, r);
    }
    forall r | r in b
      ensures r.id !in ids
    {
      IdsDisjoint(g, b, r);
    }
    forall r | r in g
      ensures r.id in ids
    {
      var k :| 0 <= k < |g| && g[k] == r;
      assert ids[k] == r.id;
    }
    FilterConcat(a + g, b, ids);
    FilterConcat(a, g, ids);
    FilterAll(a, ids);
    FilterAll(g, ids);
    FilterAll(b, ids);
  }

  /** Deleting the rows behind group `i` leaves the rows of the other groups. */
  lemma FilterDropsGroup<T>(rows: seq<Row<T>>, groups: seq<seq<Row<T>>>, i: nat)
    requires DistinctIds(rows) && Concat(groups) == rows && i < |groups|
    ensures Filter(rows, IdsOf(groups[i])) == Concat(Dropped(groups, i))
  {
    ConcatAt(groups, i);
    ConcatTwo(groups[..i], groups[i + 1..]);
    FilterMiddle(Concat(groups[..i]), groups[i], Concat(groups[i + 1..]));
  }

  lemma DropKeepsCut<T>(rows: seq<Row<T>>, groups: seq<seq<Row<T>>>, i: nat, gap: int)
    requires IsCut(rows, groups, gap) && i < |groups|
    requires NonEmpty(groups)
    requires 0 < i < |groups| - 1 ==> Apart(groups[i - 1], groups[i + 1], gap)
    ensures IsCut(Concat(Dropped(groups, i)), Dropped(groups, i), gap)
  {
    var rest := Dropped(groups, i);
    forall j | 0 <= j < |rest|
      ensures Run(rest[j], gap)
    {
      assert rest[j] == groups[if j < i then j else j + 1];
    }
    forall j | 0 <= j < |rest| - 1
      ensures Apart(rest[j], rest[j + 1], gap)
    {
      if j + 1 < i {
        assert Apart(groups[j], groups[j + 1], gap);
      } else if j + 1 > i {
        assert Apart(groups[j + 1], groups[j + 2], gap);
      }
    }
  }

  lemma DropWhenApart<T>(rows: seq<Row<T>>, groups: seq<seq<Row<T>>>, i: nat, gap: int)
    requires DistinctIds(rows) && IsCut(rows, groups, gap) && i < |groups|
    requires NonEmpty(groups)
    requires 0 < i < |groups| - 1 ==> Apart(groups[i - 1], groups[i + 1], gap)
    ensures Folded(Filter(rows, IdsOf(groups[i])), gap) == Dropped(SquashAll(groups), i)
  {
    var rest := Dropped(groups, i);
    FilterDropsGroup(rows, groups, i);
    DropKeepsCut(rows, groups, i, gap);
    FoldShowsMaximalRuns(Concat(rest), rest, gap);
    SquashDropped(groups, i);
  }

  lemma SquashDropped<T>(groups: seq<seq<Row<T>>>, i: nat)
    requires i < |groups| && NonEmpty(groups)
    ensures NonEmpty(Dropped(groups, i))
    ensures SquashAll(Dropped(groups, i)) == Dropped(SquashAll(groups), i)
  {
    var rest, spans := Dropped(groups, i), SquashAll(groups);
    forall j | 0 <= j < |rest|
      ensures rest[j] != [] && Dropped(spans, i)[j] == Squash(rest[j])
    {
      DroppedAt(groups, i, j);
      DroppedAt(spans, i, j);
    }
    SquashAllIs(rest, Dropped(spans, i));
  }

  lemma DroppedAt<T>(s: seq<T>, i: nat, j: nat)
    requires i < |s| && j < |s| - 1
    ensures Dropped(s, i)[j] == s[if j < i then j else j + 1]
  {
  }

  lemma SquashAllIs<T>(groups: seq<seq<Row<T>>>, spans: seq<Span<T>>)
    requires NonEmpty(groups) && |spans| == |groups|
    requires forall j :: 0 <= j < |groups| ==> spans[j] == Squash(groups[j])
    ensures SquashAll(groups) == spans
  {
  }

  lemma DropWhenJoinable<T>(rows: seq<Row<T>>, spans: seq<Span<T>>, i: nat, gap: int)
    requires 0 < i < |spans| - 1 && Mergeable(spans[i - 1].row, spans[i + 1].row, gap)
    ensures Folded(rows, gap) != Dropped(spans, i)
  {
    var rest := Dropped(spans, i);
    NeighboursApart(rows, gap);
    assert rest[i - 1] == spans[i - 1] && rest[i] == spans[i + 1];
    assert !SpansApart(rest, i - 1, gap);
  }

  /** Without the fragments of span `i` the fold shows the same spans without span `i`. */
  ghost predicate DropsOnlySpan<T>(rows: seq<Row<T>>, gap: int, i: nat)
    requires i < |Folded(rows, gap)|
  {
    Folded(Filter(rows, Folded(rows, gap)[i].ids), gap) == Dropped(Folded(rows, gap), i)
  }

  predicate NeighboursWouldJoin<T>(spans: seq<Span<T>>, i: nat, gap: int) {
    0 < i < |spans| - 1 && Mergeable(spans[i - 1].row, spans[i + 1].row, gap)
  }

  /** Deleting the fragments of span `i` leaves the other spans exactly as they were if and only
      if its two neighbours may not join each other. In a listing that mixes applications they
      may: the spans of one game on both sides of a short visit to another. */
  lemma DeleteKeepsOtherSpansIff<T>(rows: seq<Row<T>>, gap: int, i: nat)
    requires DistinctIds(rows) && i < |Folded(rows, gap)|
    ensures DropsOnlySpan(rows, gap, i) <==> !NeighboursWouldJoin(Folded(rows, gap), i, gap)
  {
    var spans := Folded(rows, gap);
    var groups := Cut(rows, gap);
    FoldShowsMaximalRuns(rows, groups, gap);
    if 0 < i < |spans| - 1 {
      assert Run(groups[i - 1], gap);
      MergeableOntoSpan(groups[i - 1], groups[i + 1][0], gap);
    }
    if 0 < i < |spans| - 1 && Mergeable(spans[i - 1].row, spans[i + 1].row, gap) {
      DropWhenJoinable(Filter(rows, spans[i].ids), spans, i, gap);
    } else {
      DropWhenApart(rows, groups, i, gap);
    }
  }

  /** Such a listing: game 1 was left for game 2 between 70 and 100 and resumed. With a gap of 60
      nothing joins, until the visit to game 2 is deleted. */
  lemma DeletingVisitJoinsNeighbours()
    ensures var rows := [Row(3, 1, 100, Some(200), 100, 100, ()), Row(2, 2, 80, Some(95), 15, 15, ()),
                         Row(1, 1, 10, Some(70), 60, 60, ())];
            && DistinctIds(rows) && |Folded(rows, 60)| == 3 && Folded(rows, 60)[1].ids == [2]
            && !DropsOnlySpan(rows, 60, 1)
  {
    var a, b, c := Row(3, 1, 100, Some(200), 100, 100, ()), Row(2, 2, 80, Some(95), 15, 15, ()),
                   Row(1, 1, 10, Some(70), 60, 60, ());
    var rows := [a, b, c];
    assert rows[..2] == [a, b] && [a, b][..1] == [a] && [a][..0] == [];
    assert Folded([a], 60) == [Span(a, [3])];
    assert Folded([a, b], 60) == [Span(a, [3]), Span(b, [2])];
    assert Folded(rows, 60) == [Span(a, [3]), Span(b, [2]), Span(c, [1])];
    DeleteKeepsOtherSpansIff(rows, 60, 1);
  }

  // ---- One application's listing ----------------------------------------------------------

  /** Newest first, no two rows overlapping, only the newest possibly open. */
  ghost predicate Sequential<T>(rows: seq<Row<T>>) {
    && (forall i, j :: 0 <= i < j < |rows| ==>
          rows[i].app == rows[j].app && rows[j].endedAt.Some? && rows[j].endedAt.value <= rows[i].startedAt)
    && (forall i :: 0 <= i < |rows| && rows[i].endedAt.Some? ==> rows[i].startedAt <= rows[i].endedAt.value)
  }

  /** Where in the rows group `i` and its neighbours lie. */
  lemma GroupPosition<T>(groups: seq<seq<Row<T>>>, i: nat) returns (p: nat)
    requires i < |groups| && NonEmpty(groups)
    ensures p + |groups[i]| <= |Concat(groups)|
    ensures Concat(groups)[p..p + |groups[i]|] == groups[i]
    ensures i > 0 ==> p > 0 && Concat(groups)[p - 1] == groups[i - 1][|groups[i - 1]| - 1]
    ensures i + 1 < |groups| ==>
              p + |groups[i]| < |Concat(groups)| && Concat(groups)[p + |groups[i]|] == groups[i + 1][0]
  {
    ConcatAt(groups, i);
    p := |Concat(groups[..i])|;
    if i > 0 {
      assert groups[..i][..i - 1] + [groups[i - 1]] == groups[..i];
    }
    if i + 1 < |groups| {
      var after := groups[i + 1..];
      ConcatAt(after, 0);
      assert after[..0] == [];
      assert Concat(after)[0] == groups[i + 1][0];
    }
  }

  /** In such a listing a deleted span never makes its neighbours join. */
  lemma SequentialNeighboursStayApart<T>(rows: seq<Row<T>>, gap: int, i: nat)
    requires Sequential(rows) && 0 < i < |Folded(rows, gap)| - 1
    ensures var spans := Folded(rows, gap);
            !Mergeable(spans[i - 1].row, spans[i + 1].row, gap)
  {
    var spans := Folded(rows, gap);
    var groups := Cut(rows, gap);
    FoldShowsMaximalRuns(rows, groups, gap);
    NeighboursApart(rows, gap);
    GroupEndsAfterNext(rows, groups, i);
    assert SpansApart(spans, i - 1, gap);
  }

  /** A group that has older rows before and after it ended, and not before the next one did. */
  lemma GroupEndsAfterNext<T>(rows: seq<Row<T>>, groups: seq<seq<Row<T>>>, i: nat)
    requires Sequential(rows) && Concat(groups) == rows && NonEmpty(groups) && 0 < i < |groups| - 1
    ensures groups[i][0].app == groups[i + 1][0].app
    ensures groups[i][0].endedAt.Some? && groups[i + 1][0].endedAt.Some?
    ensures groups[i + 1][0].endedAt.value <= groups[i][0].endedAt.value
  {
    var p := GroupPosition(groups, i);
    var n := |groups[i]|;
    assert rows[p] == rows[p..p + n][0];
    assert rows[p + n].endedAt.value <= rows[p].startedAt <= rows[p].endedAt.value;
  }

  /** `rows` lists the sessions of `app`, newest first. */
  ghost predicate IsListing(db: Ledger.Db, app: nat, rows: seq<Row<Ledger.Row>>) {
    && NewestFirst(rows)
    && (forall id :: id in db.sessions && db.sessions[id].app == app ==> id in IdsOf(rows))
    && (forall i :: 0 <= i < |rows| ==> rows[i].app == app)
    && ListsRows(db, rows)
  }

  /** Each listed row shows a row of the database. */
  ghost predicate ListsRows(db: Ledger.Db, rows: seq<Row<Ledger.Row>>) {
    forall i :: 0 <= i < |rows| ==>
      rows[i].id in db.sessions && rows[i] == Listed(rows[i].id, db.sessions[rows[i].id])
  }

  function Listed(id: nat, r: Ledger.Row): Row<Ledger.Row> {
    Row(id, r.app, r.startedAt, r.endedAt, r.full, r.interactive, r)
  }

  lemma {:induction false} FilterMember<T>(rows: seq<Row<T>>, ids: seq<nat>, r: Row<T>)
    ensures r in Filter(rows, ids) <==> r in rows && r.id !in ids
  {
    if rows != [] {
      var init, last := rows[..|rows| - 1], rows[|rows| - 1];
      FilterMember(init, ids, r);
      assert rows == init + [last];
    }
  }

  ghost predicate NewestFirst<T>(rows: seq<Row<T>>) {
    DistinctIds(rows) && forall i, j :: 0 <= i < j < |rows| ==> rows[j].startedAt <= rows[i].startedAt
  }

  lemma {:induction false} FilterKeepsOrder<T>(rows: seq<Row<T>>, ids: seq<nat>)
    requires NewestFirst(rows)
    ensures NewestFirst(Filter(rows, ids))
  {
    if rows != [] {
      var init, last := rows[..|rows| - 1], rows[|rows| - 1];
      FilterKeepsOrder(init, ids);
      var rest := Filter(init, ids);
      forall i | 0 <= i < |rest|
        ensures rest[i].id != last.id && last.startedAt <= rest[i].startedAt
      {
        FilterMember(init, ids, rest[i]);
        var k :| 0 <= k < |init| && init[k] == rest[i];
        assert rows[k] == rest[i];
      }
    }
  }

  lemma DeleteFiltersListing(db: Ledger.Db, app: nat, rows: seq<Row<Ledger.Row>>, ids: seq<nat>)
    requires IsListing(db, app, rows) && !Ledger.NamesOpenRow(db, ids)
    ensures IsListing(Ledger.AfterDelete(db, ids), app, Filter(rows, ids))
  {
    var db', left := Ledger.AfterDelete(db, ids), Filter(rows, ids);
    FilterKeepsOrder(rows, ids);
    forall i | 0 <= i < |left|
      ensures left[i].id in db'.sessions && left[i].app == app
      ensures left[i] == Listed(left[i].id, db'.sessions[left[i].id])
    {
      FilterMember(rows, ids, left[i]);
      var k :| 0 <= k < |rows| && rows[k] == left[i];
    }
    forall id | id in db'.sessions && db'.sessions[id].app == app
      ensures id in IdsOf(left)
    {
      var i :| 0 <= i < |rows| && IdsOf(rows)[i] == id;
      FilterMember(rows, ids, rows[i]);
      var k :| 0 <= k < |left| && left[k] == rows[i];
      assert IdsOf(left)[k] == id;
    }
  }

  /** Every row of a group of a sequential listing is closed if its first one is. */
  lemma GroupClosed<T>(rows: seq<Row<T>>, groups: seq<seq<Row<T>>>, i: nat, k: nat)
    requires Sequential(rows) && Concat(groups) == rows && i < |groups|
    requires NonEmpty(groups)
    requires k < |groups[i]| && groups[i][0].endedAt.Some?
    ensures groups[i][k] in rows && groups[i][k].endedAt.Some?
  {
    var p := GroupPosition(groups, i);
    assert rows[p..p + |groups[i]|][k] == rows[p + k];
  }

  /** Every fragment of a closed span of a sequential listing is closed. */
  lemma ClosedSpanNamesNoOpenRow(db: Ledger.Db, rows: seq<Row<Ledger.Row>>, gap: int, i: nat)
    requires ListsRows(db, rows) && Sequential(rows) && i < |Folded(rows, gap)|
    requires Folded(rows, gap)[i].row.endedAt.Some?
    ensures !Ledger.NamesOpenRow(db, Folded(rows, gap)[i].ids)
  {
    var groups := Cut(rows, gap);
    FoldShowsMaximalRuns(rows, groups, gap);
    forall id | id in IdsOf(groups[i])
      ensures !Ledger.IsOpen(db.sessions, id)
    {
      var k :| 0 <= k < |groups[i]| && IdsOf(groups[i])[k] == id;
      GroupClosed(rows, groups, i, k);
      var j :| 0 <= j < |rows| && rows[j] == groups[i][k];
      assert rows[j] == Listed(id, db.sessions[id]);
    }
  }

  /** Delete what you see: deleting a displayed closed span of one application removes exactly
      the rows behind it, keeps the books balanced, and the listing then shows the same spans
      without that one. */
  lemma DeleteWhatYouSee(db: Ledger.Db, app: nat, rows: seq<Row<Ledger.Row>>, gap: int, i: nat)
    requires Ledger.Sound(db) && IsListing(db, app, rows) && Sequential(rows)
    requires i < |Folded(rows, gap)| && Folded(rows, gap)[i].row.endedAt.Some?
    ensures var spans := Folded(rows, gap);
            var db' := Ledger.AfterDelete(db, spans[i].ids);
            && Ledger.Sound(db')
            && db'.sessions == Ledger.Without(db.sessions, spans[i].ids)
            && IsListing(db', app, Filter(rows, spans[i].ids))
            && DropsOnlySpan(rows, gap, i)
  {
    var spans := Folded(rows, gap);
    ClosedSpanNamesNoOpenRow(db, rows, gap, i);
    Ledger.DeleteKeepsSound(db, spans[i].ids);
    DeleteFiltersListing(db, app, rows, spans[i].ids);
    if 0 < i < |spans| - 1 {
      SequentialNeighboursStayApart(rows, gap, i);
    }
    DeleteKeepsOtherSpansIff(rows, gap, i);
  }

  // ---- The listing adds up to the statistics ----------------------------------------------

  lemma {:induction false} ColumnSumWithout(all: map<nat, Ledger.Row>, app: nat, column: Ledger.Column, id: nat, n: nat)
    requires id in all && all[id].app == app && all[id].endedAt.Some?
    ensures Ledger.ColumnSum(all, Some(app), column, n)
            == Ledger.ColumnSum(all - {id}, Some(app), column, n)
               + if id < n then (if column.FullColumn? then all[id].full else all[id].interactive) else 0
  {
    if n > 0 {
      ColumnSumWithout(all, app, column, id, n - 1);
    }
  }

  lemma {:induction false} ColumnSumOfNone(all: map<nat, Ledger.Row>, app: nat, column: Ledger.Column, n: nat)
    requires forall id :: id in all ==> all[id].app != app
    ensures Ledger.ColumnSum(all, Some(app), column, n) == 0
  {
    if n > 0 {
      ColumnSumOfNone(all, app, column, n - 1);
    }
  }

  /** `rows` lists the rows of `app` in `all`, each once and every one closed. */
  ghost predicate ListsClosed(all: map<nat, Ledger.Row>, app: nat, rows: seq<Row<Ledger.Row>>, n: nat) {
    && DistinctIds(rows)
    && (forall i :: 0 <= i < |rows| ==>
          var id := rows[i].id;
          id < n && id in all && rows[i] == Listed(id, all[id]) && all[id].app == app && all[id].endedAt.Some?)
    && (forall id :: id in all && all[id].app == app ==> id in IdsOf(rows))
  }

  lemma ShorterListsClosed(all: map<nat, Ledger.Row>, app: nat, rows: seq<Row<Ledger.Row>>, n: nat)
    requires rows != [] && ListsClosed(all, app, rows, n)
    ensures ListsClosed(all - {rows[|rows| - 1].id}, app, rows[..|rows| - 1], n)
  {
    var init, last := rows[..|rows| - 1], rows[|rows| - 1];
    forall id | id in all && id != last.id && all[id].app == app
      ensures id in IdsOf(init)
    {
      var i :| 0 <= i < |rows| && IdsOf(rows)[i] == id;
      assert IdsOf(init)[i] == id;
    }
  }

  lemma {:induction false} ListedSum(all: map<nat, Ledger.Row>, app: nat, rows: seq<Row<Ledger.Row>>, n: nat)
    requires ListsClosed(all, app, rows, n)
    ensures TotalFull(rows) == Ledger.ColumnSum(all, Some(app), Ledger.FullColumn, n)
    ensures TotalInteractive(rows) == Ledger.ColumnSum(all, Some(app), Ledger.InteractiveColumn, n)
  {
    if rows == [] {
      ColumnSumOfNone(all, app, Ledger.FullColumn, n);
      ColumnSumOfNone(all, app, Ledger.InteractiveColumn, n);
    } else {
      var last := rows[|rows| - 1];
      ShorterListsClosed(all, app, rows, n);
      ListedSum(all - {last.id}, app, rows[..|rows| - 1], n);
      ColumnSumWithout(all, app, Ledger.FullColumn, last.id, n);
      ColumnSumWithout(all, app, Ledger.InteractiveColumn, last.id, n);
    }
  }

  /** While an application has nothing open, the spans displayed of its full listing add up to its
      cached statistics, provided the sums fit 64 bits. */
  lemma DisplayedTotalsAreStatistics(db: Ledger.Db, app: nat, rows: seq<Row<Ledger.Row>>, gap: int)
    requires Ledger.Sound(db) && IsListing(db, app, rows) && app in db.apps && !Ledger.HasOpenRow(db.sessions, app)
    requires db.apps[app].stats.full <= I64_MAX
    ensures TotalFull(RowsOf(Folded(rows, gap))) == db.apps[app].stats.full
    ensures TotalInteractive(RowsOf(Folded(rows, gap))) == db.apps[app].stats.interactive
  {
    forall i | 0 <= i < |rows|
      ensures rows[i].endedAt.Some?
    {
      assert !Ledger.IsOpen(db.sessions, rows[i].id);
    }
    ListedSum(db.sessions, app, rows, db.nextSession);
    Ledger.CachedStatsDescribeRows(db);
    assert AllChecked(rows);
    TotalsNonNegative(rows);
    FoldConservesTotals(rows, gap);
  }

  // ---- Under the row limit ----------------------------------------------------------------

  /** The rows a query with limit `n` returns. */
  function Newest<T>(rows: seq<Row<T>>, n: nat): seq<Row<T>> {
    rows[..Min(n, |rows|)]
  }

  lemma NewestSequential<T>(rows: seq<Row<T>>, n: nat)
    requires Sequential(rows)
    ensures Sequential(Newest(rows, n))
  {
    forall i, j | 0 <= i < j < |Newest(rows, n)|
      ensures rows[i].app == rows[j].app && rows[j].endedAt.Some? && rows[j].endedAt.value <= rows[i].startedAt
    {
    }
  }

  /** Filtering the newest `n` rows leaves the front of what the limited query returns next. */
  lemma FilteredFront<T>(rows: seq<Row<T>>, n: nat, ids: seq<nat>)
    ensures Filter(Newest(rows, n), ids) <= Newest(Filter(rows, ids), n)
  {
    var k := Min(n, |rows|);
    assert rows == rows[..k] + rows[k..];
    FilterConcat(rows[..k], rows[k..], ids);
    FilterNotLonger(rows[..k], ids);
  }

  lemma {:induction false} FilterNotLonger<T>(rows: seq<Row<T>>, ids: seq<nat>)
    ensures |Filter(rows, ids)| <= |rows|
  {
    if rows != [] {
      FilterNotLonger(rows[..|rows| - 1], ids);
    }
  }

  lemma RefetchProlongs<T>(rows: seq<Row<T>>, n: nat, gap: int, i: nat)
    requires DistinctIds(rows) && Sequential(rows) && i < |Folded(Newest(rows, n), gap)|
    ensures var spans := Folded(Newest(rows, n), gap);
            Prolongs(Dropped(spans, i), Folded(Newest(Filter(rows, spans[i].ids), n), gap))
  {
    var shown := Newest(rows, n);
    var spans := Folded(shown, gap);
    var ids := spans[i].ids;
    NewestSequential(rows, n);
    if 0 < i < |spans| - 1 {
      SequentialNeighboursStayApart(shown, gap, i);
    }
    DeleteKeepsOtherSpansIff(shown, gap, i);
    FilteredFront(rows, n, ids);
    var next := Newest(Filter(rows, ids), n);
    assert next[..|Filter(shown, ids)|] == Filter(shown, ids);
    LimitNeverDistortsSpans(next, |Filter(shown, ids)|, gap);
  }

  /** Delete what you see, with the listing limited to the newest `n` rows before and after: the
      rows behind the span go, and the list fetched next shows the other spans as they were,
      perhaps with more of the last one's fragments, and then older spans that have moved up. */
  lemma DeleteWhatYouSeeUnderLimit(db: Ledger.Db, app: nat, rows: seq<Row<Ledger.Row>>, n: nat, gap: int, i: nat)
    requires Ledger.Sound(db) && IsListing(db, app, rows) && Sequential(rows)
    requires i < |Folded(Newest(rows, n), gap)| && Folded(Newest(rows, n), gap)[i].row.endedAt.Some?
    ensures var spans := Folded(Newest(rows, n), gap);
            var db' := Ledger.AfterDelete(db, spans[i].ids);
            var left := Filter(rows, spans[i].ids);
            && Ledger.Sound(db')
            && db'.sessions == Ledger.Without(db.sessions, spans[i].ids)
            && IsListing(db', app, left)
            && Prolongs(Dropped(spans, i), Folded(Newest(left, n), gap))
  {
    var ids := Folded(Newest(rows, n), gap)[i].ids;
    NewestSequential(rows, n);
    ClosedSpanNamesNoOpenRow(db, Newest(rows, n), gap, i);
    Ledger.DeleteKeepsSound(db, ids);
    DeleteFiltersListing(db, app, rows, ids);
    RefetchProlongs(rows, n, gap, i);
  }
}
