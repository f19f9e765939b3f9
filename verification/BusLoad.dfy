/** The static mirror of coalescing in `config/src/validate.rs`: `merge_runs` sorts
    by start and then end, while the runtime sorts by start alone. */
module BusLoad {
  import opened MbTypes
  import opened Coalesce
  import opened CoalesceLaws

  datatype Extent = Extent(start: nat, end: nat)

  function ExtentOf(iv: Interval): Extent {
    Extent(iv.start, iv.end)
  }

  function Extents(ivals: seq<Interval>): (es: seq<Extent>)
    ensures |es| == |ivals|
    ensures forall i :: 0 <= i < |ivals| ==> es[i] == ExtentOf(ivals[i])
  {
    seq(|ivals|, i requires 0 <= i < |ivals| => ExtentOf(ivals[i]))
  }

  function RunExtents(runs: seq<Run>): (es: seq<Extent>)
    ensures |es| == |runs|
    ensures forall i :: 0 <= i < |runs| ==> es[i] == Extent(runs[i].start, runs[i].end)
  {
    seq(|runs|, i requires 0 <= i < |runs| => Extent(runs[i].start, runs[i].end))
  }

  // ----- The unstable sort of pairs -----

  predicate LexLeq(a: Extent, b: Extent) {
    a.start < b.start || (a.start == b.start && a.end <= b.end)
  }

  function InsertLex(e: Extent, sorted: seq<Extent>): seq<Extent> {
    if sorted == [] || LexLeq(e, sorted[0]) then [e] + sorted
    else [sorted[0]] + InsertLex(e, sorted[1..])
  }

  /** Rust's `sort_unstable` on pairs; LexSortIsUnique shows that the order of
      the comparisons cannot matter. */
  function SortLex(es: seq<Extent>): seq<Extent> {
    if es == [] then [] else InsertLex(es[0], SortLex(es[1..]))
  }

  ghost predicate LexSorted(es: seq<Extent>) {
    forall i, j :: 0 <= i < j < |es| ==> LexLeq(es[i], es[j])
  }

  ghost predicate StartSorted(es: seq<Extent>) {
    forall i, j :: 0 <= i < j < |es| ==> es[i].start <= es[j].start
  }

  lemma {:induction false} InsertLexKeeps(e: Extent, sorted: seq<Extent>)
    ensures multiset(InsertLex(e, sorted)) == multiset{e} + multiset(sorted)
  {
    if sorted != [] && !LexLeq(e, sorted[0]) {
      InsertLexKeeps(e, sorted[1..]);
      assert sorted == [sorted[0]] + sorted[1..];
    }
  }

  lemma LexCons(e: Extent, es: seq<Extent>)
    requires LexSorted(es) && forall x :: x in es ==> LexLeq(e, x)
    ensures LexSorted([e] + es)
  {
  }

  lemma {:induction false} InsertLexSorts(e: Extent, sorted: seq<Extent>)
    requires LexSorted(sorted)
    ensures LexSorted(InsertLex(e, sorted))
    ensures multiset(InsertLex(e, sorted)) == multiset{e} + multiset(sorted)
  {
    InsertLexKeeps(e, sorted);
    if sorted == [] || LexLeq(e, sorted[0]) {
      LexCons(e, sorted);
    } else {
      var rest := InsertLex(e, sorted[1..]);
      InsertLexSorts(e, sorted[1..]);
      forall x | x in rest
        ensures LexLeq(sorted[0], x)
      {
        assert x in multiset(rest);
        assert x == e || x in sorted[1..];
      }
      LexCons(sorted[0], rest);
    }
  }

  lemma {:induction false} SortLexSorts(es: seq<Extent>)
    ensures LexSorted(SortLex(es))
    ensures multiset(SortLex(es)) == multiset(es)
  {
    if es != [] {
      SortLexSorts(es[1..]);
      InsertLexSorts(es[0], SortLex(es[1..]));
      assert es == [es[0]] + es[1..];
    }
  }

  /** Any two sorted arrangements of the same pairs are the same sequence. */
  lemma {:induction false} LexSortIsUnique(a: seq<Extent>, b: seq<Extent>)
    requires LexSorted(a) && LexSorted(b) && multiset(a) == multiset(b)
    ensures a == b
  {
    if a == [] {
      assert |multiset(b)| == 0;
    } else {
      assert a[0] in multiset(b);
      assert |multiset(b)| > 0;
      assert b[0] in multiset(a);
      assert a[0] == b[0];
      assert a == [a[0]] + a[1..] && b == [b[0]] + b[1..];
      assert multiset(a[1..]) == multiset(a) - multiset{a[0]};
      assert multiset(b[1..]) == multiset(b) - multiset{b[0]};
      LexSortIsUnique(a[1..], b[1..]);
    }
  }

  // ----- The merge loop -----

  /** The runs that follow from the open run `[start, end)`. */
  function Spread(start: nat, end: nat, rest: seq<Extent>, gap: nat, cap: nat): (runs: seq<Extent>)
    ensures runs != []
    decreases |rest|
  {
    if rest == [] then [Extent(start, end)]
    else if Joins(start, end, rest[0].start, rest[0].end, gap, cap) then
      Spread(start, Max(end, rest[0].end), rest[1..], gap, cap)
    else
      [Extent(start, end)] + Spread(rest[0].start, rest[0].end, rest[1..], gap, cap)
  }

  function SpreadAll(es: seq<Extent>, gap: nat, cap: nat): seq<Extent> {
    if es == [] then [] else Spread(es[0].start, es[0].end, es[1..], gap, cap)
  }

  /** `merge_runs`: extends the last run in place. */
  method MergeRuns(ivals: seq<Extent>, gap: nat, cap: nat) returns (out: seq<Extent>)
    ensures out == SpreadAll(SortLex(ivals), gap, cap)
  {
    var sorted := SortLex(ivals);
    out := [];
    for i := 0 to |sorted|
      invariant out == [] <==> i == 0
      invariant out != [] ==>
        SpreadAll(sorted, gap, cap)
        == out[..|out| - 1] + Spread(out[|out| - 1].start, out[|out| - 1].end, sorted[i..], gap, cap)
    {
      var e := sorted[i];
      assert sorted[i..][0] == e && sorted[i..][1..] == sorted[i + 1..];
      var n := |out|;
      if n > 0 && Joins(out[n - 1].start, out[n - 1].end, e.start, e.end, gap, cap) {
        ghost var before := out;
        out := out[n - 1 := Extent(out[n - 1].start, Max(out[n - 1].end, e.end))];
        assert out[..n - 1] == before[..n - 1];
      } else {
        ghost var before := out;
        out := out + [e];
        assert n > 0 ==> before == before[..n - 1] + [before[n - 1]];
        assert out[..n] == before;
      }
    }
  }

  lemma {:induction false} SpreadIsGrow(run: Run, rest: seq<Interval>, gap: nat, cap: nat)
    ensures RunExtents(Grow(run, rest, gap, cap)) == Spread(run.start, run.end, Extents(rest), gap, cap)
    decreases |rest|
  {
    if rest != [] {
      assert Extents(rest)[1..] == Extents(rest[1..]);
      if Joins(run.start, run.end, rest[0].start, rest[0].end, gap, cap) {
        SpreadIsGrow(Extend(run, rest[0]), rest[1..], gap, cap);
      } else {
        SpreadIsGrow(Fresh(rest[0]), rest[1..], gap, cap);
      }
    }
  }

  // ----- Agreement of the two -----

  /** Two entries share the start of the next run; one of them still fits the run
      that begins at `start`, the other passes the cap. */
  ghost predicate Straddle(es: seq<Extent>, start: nat, next: nat, cap: nat) {
    exists p, q :: p in es && q in es && p.start == next && q.start == next
      && SatSub(p.end, start) <= cap < SatSub(q.end, start)
  }

  /** One end of the estimate against the runtime's. */
  ghost predicate EndAgrees(runtime: seq<Extent>, estimate: seq<Extent>, es: seq<Extent>, cap: nat, j: nat)
    requires j < |runtime| == |estimate|
  {
    || runtime[j] == estimate[j]
    || (&& runtime[j].start == estimate[j].start
        && runtime[j].end < estimate[j].end
        && j + 1 < |runtime|
        && Straddle(es, runtime[j].start, runtime[j + 1].start, cap))
  }

  ghost predicate Mirrors(runtime: seq<Extent>, estimate: seq<Extent>, es: seq<Extent>, cap: nat) {
    && |runtime| == |estimate|
    && forall j :: 0 <= j < |runtime| ==> EndAgrees(runtime, estimate, es, cap, j)
  }

  lemma MirrorsTransitive(a: seq<Extent>, b: seq<Extent>, c: seq<Extent>, es: seq<Extent>, cap: nat)
    requires Mirrors(a, b, es, cap) && Mirrors(b, c, es, cap)
    ensures Mirrors(a, c, es, cap)
  {
    forall j | 0 <= j < |a|
      ensures EndAgrees(a, c, es, cap, j)
    {
      assert EndAgrees(a, b, es, cap, j) && EndAgrees(b, c, es, cap, j);
      if j + 1 < |a| {
        assert EndAgrees(a, b, es, cap, j + 1);
      }
    }
  }

  lemma MirrorsCons(head: Extent, a: seq<Extent>, b: seq<Extent>, es: seq<Extent>, cap: nat)
    requires Mirrors(a, b, es, cap)
    ensures Mirrors([head] + a, [head] + b, es, cap)
  {
    forall j | 0 <= j < |a| + 1
      ensures EndAgrees([head] + a, [head] + b, es, cap, j)
    {
      if j > 0 {
        assert EndAgrees(a, b, es, cap, j - 1);
      }
    }
  }

  predicate FitsCap(e: Extent, cap: nat) {
    e.start < e.end <= e.start + cap
  }

  lemma SpreadStep(start: nat, end: nat, e: Extent, rest: seq<Extent>, gap: nat, cap: nat)
    ensures Spread(start, end, [e] + rest, gap, cap)
         == if Joins(start, end, e.start, e.end, gap, cap) then Spread(start, Max(end, e.end), rest, gap, cap)
            else [Extent(start, end)] + Spread(e.start, e.end, rest, gap, cap)
  {
    assert ([e] + rest)[1..] == rest;
  }

  /** Exchanging two neighbours with one start address. */
  lemma SwapMirrors(start: nat, end: nat, x: Extent, y: Extent, rest: seq<Extent>, es: seq<Extent>,
                    gap: nat, cap: nat)
    requires x in es && y in es && FitsCap(x, cap) && FitsCap(y, cap)
    requires x.start == y.start && y.end <= x.end && start <= x.start
    ensures Mirrors(Spread(start, end, [x] + ([y] + rest), gap, cap),
                    Spread(start, end, [y] + ([x] + rest), gap, cap), es, cap)
  {
    var a := Spread(start, end, [x] + ([y] + rest), gap, cap);
    var b := Spread(start, end, [y] + ([x] + rest), gap, cap);
    SpreadStep(start, end, x, [y] + rest, gap, cap);
    SpreadStep(start, end, y, [x] + rest, gap, cap);
    SpreadStep(start, Max(end, x.end), y, rest, gap, cap);
    SpreadStep(start, Max(end, y.end), x, rest, gap, cap);
    SpreadStep(x.start, x.end, y, rest, gap, cap);
    SpreadStep(y.start, y.end, x, rest, gap, cap);
    if !Joins(start, end, x.start, x.end, gap, cap) && Joins(start, end, y.start, y.end, gap, cap) {
      var tail := Spread(x.start, x.end, rest, gap, cap);
      assert a == [Extent(start, end)] + tail;
      assert b == [Extent(start, Max(end, y.end))] + tail;
      SpreadStart(x.start, x.end, rest, gap, cap);
      assert Straddle(es, start, x.start, cap);
      forall j | 0 <= j < |a|
        ensures EndAgrees(a, b, es, cap, j)
      {
        assert j > 0 ==> a[j] == b[j] == tail[j - 1];
      }
    } else {
      assert a == b;
    }
  }

  lemma {:induction false} SpreadStart(start: nat, end: nat, rest: seq<Extent>, gap: nat, cap: nat)
    ensures Spread(start, end, rest, gap, cap)[0].start == start
    decreases |rest|
  {
    if rest != [] && Joins(start, end, rest[0].start, rest[0].end, gap, cap) {
      SpreadStart(start, Max(end, rest[0].end), rest[1..], gap, cap);
    }
  }

  ghost predicate AllFit(rest: seq<Extent>, es: seq<Extent>, start: nat, cap: nat) {
    forall i :: 0 <= i < |rest| ==> rest[i] in es && FitsCap(rest[i], cap) && start <= rest[i].start
  }

  /** Moving an interval to its place among those with its start address. */
  lemma {:induction false} InsertMirrors(start: nat, end: nat, x: Extent, rest: seq<Extent>, es: seq<Extent>,
                                         gap: nat, cap: nat)
    requires AllFit([x] + rest, es, start, cap) && StartSorted([x] + rest)
    ensures Mirrors(Spread(start, end, [x] + rest, gap, cap),
                    Spread(start, end, InsertLex(x, rest), gap, cap), es, cap)
    decreases |rest|
  {
    if rest == [] || LexLeq(x, rest[0]) {
    } else {
      var y, tail := rest[0], rest[1..];
      var xs := [x] + rest;
      assert xs[0] == x && xs[1] == y && rest == [y] + tail;
      SwapMirrors(start, end, x, y, tail, es, gap, cap);
      assert forall i :: 0 <= i < |tail| ==> xs[i + 2] == tail[i];
      assert ([y] + ([x] + tail))[1..] == [x] + tail;
      var moved := InsertLex(x, tail);
      assert ([y] + moved)[1..] == moved;
      if Joins(start, end, y.start, y.end, gap, cap) {
        InsertMirrors(start, Max(end, y.end), x, tail, es, gap, cap);
      } else {
        InsertMirrors(y.start, y.end, x, tail, es, gap, cap);
        MirrorsCons(Extent(start, end), Spread(y.start, y.end, [x] + tail, gap, cap),
                    Spread(y.start, y.end, moved, gap, cap), es, cap);
      }
      MirrorsTransitive(Spread(start, end, [x] + rest, gap, cap),
                        Spread(start, end, [y] + ([x] + tail), gap, cap),
                        Spread(start, end, InsertLex(x, rest), gap, cap), es, cap);
    }
  }

  lemma SortedAllFit(rest: seq<Extent>, es: seq<Extent>, start: nat, cap: nat)
    requires AllFit(rest, es, start, cap)
    ensures AllFit(SortLex(rest), es, start, cap) && LexSorted(SortLex(rest))
    ensures multiset(SortLex(rest)) == multiset(rest)
  {
    var sorted := SortLex(rest);
    SortLexSorts(rest);
    forall i | 0 <= i < |sorted|
      ensures sorted[i] in rest
    {
      assert sorted[i] in multiset(rest);
    }
  }

  lemma {:induction false} SortMirrors(start: nat, end: nat, rest: seq<Extent>, es: seq<Extent>, gap: nat, cap: nat)
    requires AllFit(rest, es, start, cap) && StartSorted(rest)
    ensures Mirrors(Spread(start, end, rest, gap, cap), Spread(start, end, SortLex(rest), gap, cap), es, cap)
    decreases |rest|
  {
    if rest != [] {
      var x, tail := rest[0], rest[1..];
      var sorted := SortLex(tail);
      assert rest == [x] + tail;
      assert AllFit(tail, es, x.start, cap);
      SortedAllFit(tail, es, x.start, cap);
      SpreadStep(start, end, x, tail, gap, cap);
      SpreadStep(start, end, x, sorted, gap, cap);
      if Joins(start, end, x.start, x.end, gap, cap) {
        SortMirrors(start, Max(end, x.end), tail, es, gap, cap);
      } else {
        SortMirrors(x.start, x.end, tail, es, gap, cap);
        MirrorsCons(Extent(start, end), Spread(x.start, x.end, tail, gap, cap),
                    Spread(x.start, x.end, sorted, gap, cap), es, cap);
      }
      InsertMirrors(start, end, x, sorted, es, gap, cap);
      MirrorsTransitive(Spread(start, end, rest, gap, cap), Spread(start, end, [x] + sorted, gap, cap),
                        Spread(start, end, SortLex(rest), gap, cap), es, cap);
    }
  }

  lemma SpreadAllMirrors(rs: seq<Extent>, es: seq<Extent>, gap: nat, cap: nat)
    requires rs != [] && AllFit(rs, es, rs[0].start, cap) && StartSorted(rs)
    ensures Mirrors(SpreadAll(rs, gap, cap), SpreadAll(SortLex(rs), gap, cap), es, cap)
  {
    // Both merges open their first run with an entry at the least start, so
    // putting a zero-length run there in front changes neither.
    var start := rs[0].start;
    var lex := SortLex(rs);
    SortMirrors(start, start, rs, es, gap, cap);
    SortedAllFit(rs, es, start, cap);
    assert rs[0] in multiset(lex);
    var k :| 0 <= k < |lex| && lex[k] == rs[0];
    assert LexLeq(lex[0], lex[k]) || k == 0;
  }

  /** The estimator and the runtime agree on the number of requests and on every
      start address. An estimated end is never smaller, and it is larger only
      where entries that share the next start straddle the cap. */
  lemma EstimateMirrorsRuntime(area: Area, ivals: seq<Interval>, gap: nat)
    requires ValidIntervals(ivals, area.MaxQty())
    ensures Mirrors(RunExtents(Runs(SortByStart(ivals), gap, area.MaxQty())),
                    SpreadAll(SortLex(Extents(ivals)), gap, area.MaxQty()),
                    Extents(ivals), area.MaxQty())
  {
    var sorted := SortByStart(ivals);
    SortedIsValid(ivals, area.MaxQty());
    if sorted == [] {
      SortByStartIsStable(ivals, 0);
      assert |ivals| == |multiset(ivals)| == |multiset(sorted)| == 0;
    } else {
      SameSortedPairs(ivals);
      EntriesFit(ivals, area.MaxQty());
      SpreadIsGrow(Fresh(sorted[0]), sorted[1..], gap, area.MaxQty());
      assert Extents(sorted)[1..] == Extents(sorted[1..]);
      SpreadAllMirrors(Extents(sorted), Extents(ivals), gap, area.MaxQty());
    }
  }

  lemma SameSortedPairs(ivals: seq<Interval>)
    ensures SortLex(Extents(SortByStart(ivals))) == SortLex(Extents(ivals))
  {
    SortKeepsExtents(ivals);
    SortLexSorts(Extents(ivals));
    SortLexSorts(Extents(SortByStart(ivals)));
    LexSortIsUnique(SortLex(Extents(ivals)), SortLex(Extents(SortByStart(ivals))));
  }

  lemma EntriesFit(ivals: seq<Interval>, cap: nat)
    requires ValidIntervals(ivals, cap)
    ensures var rs := Extents(SortByStart(ivals));
            forall i :: 0 <= i < |rs| ==> rs[i] in Extents(ivals) && FitsCap(rs[i], cap)
  {
    var sorted := SortByStart(ivals);
    SortedIsValid(ivals, cap);
    SortKeepsExtents(ivals);
    forall i | 0 <= i < |sorted|
      ensures Extents(sorted)[i] in Extents(ivals) && FitsCap(Extents(sorted)[i], cap)
    {
      assert ValidInterval(sorted[i], cap);
      assert Extents(sorted)[i] in multiset(Extents(ivals));
    }
  }

  lemma {:induction false} InsertKeepsExtents(iv: Interval, sorted: seq<Interval>)
    ensures multiset(Extents(InsertByStart(iv, sorted))) == multiset{ExtentOf(iv)} + multiset(Extents(sorted))
  {
    var inserted := InsertByStart(iv, sorted);
    if sorted == [] || iv.start <= sorted[0].start {
      assert Extents(inserted) == [ExtentOf(iv)] + Extents(sorted);
    } else {
      InsertKeepsExtents(iv, sorted[1..]);
      assert Extents(inserted) == [ExtentOf(sorted[0])] + Extents(InsertByStart(iv, sorted[1..]));
      assert Extents(sorted) == [ExtentOf(sorted[0])] + Extents(sorted[1..]);
    }
  }

  lemma {:induction false} SortKeepsExtents(ivals: seq<Interval>)
    ensures multiset(Extents(SortByStart(ivals))) == multiset(Extents(ivals))
  {
    if ivals != [] {
      SortKeepsExtents(ivals[1..]);
      InsertKeepsExtents(ivals[0], SortByStart(ivals[1..]));
      assert Extents(ivals) == [ExtentOf(ivals[0])] + Extents(ivals[1..]);
    }
  }
}
