/** Request coalescing: `mb-poller/src/coalesce.rs`. Register intervals of one
    (device, poll group, area) bucket become as few reads as the gap limit and
    the PDU cap allow. */
module Coalesce {
  import opened MbTypes
  import opened MbProto

  /** Where one tag's words lie inside a reply. */
  datatype Field = Field(tag: TagId, wordOffset: nat, wordLen: nat)

  /** A compiled request plus the map back to cache slots. */
  datatype Transaction = Transaction(req: Request, base: Word, fields: seq<Field>, coalesced: bool)

  datatype Span = Span(start: nat, end: nat, field: Field)

  /** One entry expanded to `[start, end)` in the area's own units. */
  type Interval = i: Span | i.start <= i.end witness Span(0, 0, Field(0, 0, 0))

  /** A read under construction. */
  datatype Run = Run(start: nat, end: nat, fields: seq<Field>)

  // ----- The stable sort by start address -----

  function InsertByStart(iv: Interval, sorted: seq<Interval>): seq<Interval> {
    if sorted == [] || iv.start <= sorted[0].start then [iv] + sorted
    else [sorted[0]] + InsertByStart(iv, sorted[1..])
  }

  /** Rust's `sort_by_key(|i| i.start)`. */
  function SortByStart(ivals: seq<Interval>): seq<Interval> {
    if ivals == [] then [] else InsertByStart(ivals[0], SortByStart(ivals[1..]))
  }

  ghost predicate SortedByStart(ivals: seq<Interval>) {
    forall i, j :: 0 <= i < j < |ivals| ==> ivals[i].start <= ivals[j].start
  }

  /** The entries at one start address, in their order of appearance. */
  function AtStart(ivals: seq<Interval>, start: nat): seq<Interval> {
    if ivals == [] then []
    else (if ivals[0].start == start then [ivals[0]] else []) + AtStart(ivals[1..], start)
  }

  lemma {:induction false} InsertByStartKeeps(iv: Interval, sorted: seq<Interval>)
    ensures multiset(InsertByStart(iv, sorted)) == multiset{iv} + multiset(sorted)
  {
    if sorted != [] && iv.start > sorted[0].start {
      InsertByStartKeeps(iv, sorted[1..]);
      assert sorted == [sorted[0]] + sorted[1..];
    }
  }

  lemma StartCons(iv: Interval, ivals: seq<Interval>)
    requires SortedByStart(ivals) && forall x :: x in ivals ==> iv.start <= x.start
    ensures SortedByStart([iv] + ivals)
  {
  }

  lemma {:induction false} InsertByStartSorts(iv: Interval, sorted: seq<Interval>)
    requires SortedByStart(sorted)
    ensures SortedByStart(InsertByStart(iv, sorted))
    ensures multiset(InsertByStart(iv, sorted)) == multiset{iv} + multiset(sorted)
  {
    InsertByStartKeeps(iv, sorted);
    if sorted == [] || iv.start <= sorted[0].start {
      StartCons(iv, sorted);
    } else {
      var rest := InsertByStart(iv, sorted[1..]);
      InsertByStartSorts(iv, sorted[1..]);
      forall x | x in rest
        ensures sorted[0].start <= x.start
      {
        assert x in multiset(rest);
        assert x == iv || x in sorted[1..];
      }
      StartCons(sorted[0], rest);
    }
  }

  lemma {:induction false} InsertByStartIsStable(iv: Interval, sorted: seq<Interval>, start: nat)
    requires SortedByStart(sorted)
    ensures AtStart(InsertByStart(iv, sorted), start) == AtStart([iv] + sorted, start)
  {
    assert ([iv] + sorted)[1..] == sorted;
    if sorted == [] || iv.start <= sorted[0].start {
    } else {
      InsertByStartIsStable(iv, sorted[1..], start);
      assert ([iv] + sorted[1..])[1..] == sorted[1..];
    }
  }

  /** The sort orders by start address, loses nothing, and keeps entries that
      share a start in their original order. */
  lemma {:induction false} SortByStartIsStable(ivals: seq<Interval>, start: nat)
    ensures SortedByStart(SortByStart(ivals))
    ensures multiset(SortByStart(ivals)) == multiset(ivals)
    ensures AtStart(SortByStart(ivals), start) == AtStart(ivals, start)
  {
    if ivals != [] {
      var tail := SortByStart(ivals[1..]);
      SortByStartIsStable(ivals[1..], start);
      InsertByStartSorts(ivals[0], tail);
      InsertByStartIsStable(ivals[0], tail, start);
      assert ivals == [ivals[0]] + ivals[1..];
      assert ([ivals[0]] + tail)[1..] == tail;
    }
  }

  // ----- The greedy merge -----

  /** The match guard of `coalesce`. */
  predicate Joins(start: nat, end: nat, next: nat, nextEnd: nat, gap: nat, cap: nat) {
    SatSub(next, end) <= gap && SatSub(nextEnd, start) <= cap
  }

  function Fresh(iv: Interval): Run {
    Run(iv.start, iv.end, [iv.field.(wordOffset := 0)])
  }

  function Extend(run: Run, iv: Interval): Run {
    Run(run.start, Max(run.end, iv.end),
        run.fields + [iv.field.(wordOffset := TruncU16(SatSub(iv.start, run.start)))])
  }

  /** All runs that follow from an open run and the intervals not yet seen. */
  function Grow(run: Run, rest: seq<Interval>, gap: nat, cap: nat): (runs: seq<Run>)
    ensures runs != []
    decreases |rest|
  {
    if rest == [] then [run]
    else if Joins(run.start, run.end, rest[0].start, rest[0].end, gap, cap) then
      Grow(Extend(run, rest[0]), rest[1..], gap, cap)
    else
      [run] + Grow(Fresh(rest[0]), rest[1..], gap, cap)
  }

  /** The runs of a bucket whose intervals are already sorted. */
  function Runs(sorted: seq<Interval>, gap: nat, cap: nat): seq<Run> {
    if sorted == [] then [] else Grow(Fresh(sorted[0]), sorted[1..], gap, cap)
  }

  /** `emit`, with its truncations to 16 bits. */
  function Emit(area: Area, run: Run): Transaction {
    Transaction(Read(area, TruncU16(run.start), TruncU16(SatSub(run.end, run.start))),
                TruncU16(run.start), run.fields, |run.fields| > 1)
  }

  function EmitAll(area: Area, runs: seq<Run>): (txns: seq<Transaction>)
    ensures |txns| == |runs|
    ensures forall i :: 0 <= i < |runs| ==> txns[i] == Emit(area, runs[i])
  {
    seq(|runs|, i requires 0 <= i < |runs| => Emit(area, runs[i]))
  }

  /** What `coalesce` returns. */
  function Coalesced(area: Area, ivals: seq<Interval>, gap: nat): seq<Transaction> {
    EmitAll(area, Runs(SortByStart(ivals), gap, area.MaxQty()))
  }

  /** The loop of `coalesce`: one open run, closed when an interval does not fit. */
  method CoalesceIntervals(area: Area, ivals: seq<Interval>, gap: nat) returns (out: seq<Transaction>)
    ensures out == Coalesced(area, ivals, gap)
  {
    var sorted := SortByStart(ivals);
    var cap := area.MaxQty();
    out := [];
    var run: Option<Run> := None;
    ghost var closed: seq<Run> := [];
    for i := 0 to |sorted|
      invariant run.None? <==> i == 0
      invariant i == 0 ==> closed == []
      invariant out == EmitAll(area, closed)
      invariant run.Some? ==> Runs(sorted, gap, cap) == closed + Grow(run.value, sorted[i..], gap, cap)
    {
      var iv := sorted[i];
      assert sorted[i..][0] == iv && sorted[i..][1..] == sorted[i + 1..];
      if run.Some? && Joins(run.value.start, run.value.end, iv.start, iv.end, gap, cap) {
        run := Some(Extend(run.value, iv));
      } else {
        if run.Some? {
          out := out + [Emit(area, run.value)];
          assert (closed + [run.value]) + Grow(Fresh(iv), sorted[i + 1..], gap, cap)
              == closed + ([run.value] + Grow(Fresh(iv), sorted[i + 1..], gap, cap));
          closed := closed + [run.value];
        }
        run := Some(Fresh(iv));
      }
    }
    if run.Some? {
      out := out + [Emit(area, run.value)];
      assert Runs(sorted, gap, cap) == closed + [run.value];
    }
  }
}
