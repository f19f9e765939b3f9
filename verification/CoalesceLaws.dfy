/** What the greedy merge of `coalesce.rs` guarantees: requests inside the
    protocol's limits, holes inside the gap limit, increasing base addresses, and
    no fewer requests possible under the same two rules. */
module CoalesceLaws {
  import opened MbTypes
  import opened MbProto
  import opened Coalesce

  // ----- Limits -----

  /** What validation leaves of a register entry: `validate_read_entry` bounds the
      span by the area cap and keeps it inside the 16-bit address space. */
  predicate ValidInterval(iv: Interval, cap: nat) {
    && iv.start < iv.end <= ADDRESS_SPACE
    && iv.end - iv.start <= cap
    && iv.field.wordLen == iv.end - iv.start
  }

  ghost predicate ValidIntervals(ivals: seq<Interval>, cap: nat) {
    forall i :: 0 <= i < |ivals| ==> ValidInterval(ivals[i], cap)
  }

  predicate FieldInside(run: Run, f: Field) {
    1 <= f.wordLen && run.start + f.wordOffset + f.wordLen <= run.end
  }

  /** Some field covers an address of the window `[at, at + gap]`. */
  ghost predicate Touched(run: Run, at: nat, gap: nat) {
    exists f :: f in run.fields && run.start + f.wordOffset <= at + gap && at < run.start + f.wordOffset + f.wordLen
  }

  /** No hole inside the run is wider than `gap`: every window of `gap + 1`
      addresses meets a field. */
  ghost predicate HolesBounded(run: Run, gap: nat) {
    forall at: nat :: run.start <= at && at + gap < run.end ==> Touched(run, at, gap)
  }

  ghost predicate EndsOnField(run: Run) {
    exists f :: f in run.fields && run.start + f.wordOffset + f.wordLen == run.end
  }

  ghost predicate WithinLimits(run: Run, gap: nat, cap: nat) {
    && run.start < run.end <= ADDRESS_SPACE
    && run.end - run.start <= cap
    && run.fields != []
    && (forall f :: f in run.fields ==> FieldInside(run, f))
    && EndsOnField(run)
    && HolesBounded(run, gap)
  }

  lemma FreshWithinLimits(iv: Interval, gap: nat, cap: nat)
    requires ValidInterval(iv, cap)
    ensures WithinLimits(Fresh(iv), gap, cap)
  {
    var run := Fresh(iv);
    assert run.fields[0] in run.fields;
    forall at: nat | run.start <= at && at + gap < run.end
      ensures Touched(run, at, gap)
    {
      assert run.fields[0] in run.fields;
    }
  }

  lemma ExtendWithinLimits(run: Run, iv: Interval, gap: nat, cap: nat)
    requires WithinLimits(run, gap, cap) && ValidInterval(iv, cap)
    requires run.start <= iv.start
    requires Joins(run.start, run.end, iv.start, iv.end, gap, cap)
    ensures WithinLimits(Extend(run, iv), gap, cap)
  {
    var next := Extend(run, iv);
    var added := next.fields[|run.fields|];
    assert added in next.fields && added.wordOffset == iv.start - run.start;
    assert forall f :: f in run.fields ==> f in next.fields;
    var last :| last in run.fields && run.start + last.wordOffset + last.wordLen == run.end;
    assert last in next.fields && FieldInside(run, last);
    forall at: nat | next.start <= at && at + gap < next.end
      ensures Touched(next, at, gap)
    {
      if at + gap < run.end {
        assert Touched(run, at, gap);
        var f :| f in run.fields && run.start + f.wordOffset <= at + gap && at < run.start + f.wordOffset + f.wordLen;
        assert f in next.fields;
      } else if at < run.end {
        assert last in next.fields;
      } else {
        assert added in next.fields;
      }
    }
  }

  lemma {:induction false} GrowWithinLimits(run: Run, rest: seq<Interval>, gap: nat, cap: nat)
    requires WithinLimits(run, gap, cap) && ValidIntervals(rest, cap)
    requires SortedByStart(rest) && (rest != [] ==> run.start <= rest[0].start)
    ensures forall r :: r in Grow(run, rest, gap, cap) ==> WithinLimits(r, gap, cap)
    ensures forall i, j :: 0 <= i < j < |Grow(run, rest, gap, cap)|
              ==> Grow(run, rest, gap, cap)[i].start < Grow(run, rest, gap, cap)[j].start
    ensures Grow(run, rest, gap, cap)[0].start == run.start
    decreases |rest|
  {
    if rest != [] {
      if Joins(run.start, run.end, rest[0].start, rest[0].end, gap, cap) {
        ExtendWithinLimits(run, rest[0], gap, cap);
        GrowWithinLimits(Extend(run, rest[0]), rest[1..], gap, cap);
      } else {
        FreshWithinLimits(rest[0], gap, cap);
        GrowWithinLimits(Fresh(rest[0]), rest[1..], gap, cap);
      }
    }
  }

  /** The request bounds of sections 6.1 to 6.4 of the MODBUS Application Protocol
      Specification V1.1b3, with every tag's slice inside the reply. */
  predicate LegalRead(area: Area, txn: Transaction) {
    && txn.req.Read? && txn.req.area == area
    && txn.base == txn.req.addr
    && 1 <= txn.req.qty <= area.MaxQty()
    && txn.req.addr + txn.req.qty <= ADDRESS_SPACE
    && txn.fields != []
    && (forall f :: f in txn.fields ==> 1 <= f.wordLen && f.wordOffset + f.wordLen <= txn.req.qty)
  }

  ghost predicate Serves(txn: Transaction, at: nat, gap: nat) {
    exists f :: f in txn.fields && f.wordOffset <= at + gap && at < f.wordOffset + f.wordLen
  }

  /** Every window of `gap + 1` addresses inside the read meets a field. */
  ghost predicate SmallHoles(txn: Transaction, gap: nat) {
    forall at: nat :: txn.req.Read? && at + gap < txn.req.qty ==> Serves(txn, at, gap)
  }

  lemma EmitLegal(area: Area, run: Run, gap: nat)
    requires WithinLimits(run, gap, area.MaxQty())
    ensures LegalRead(area, Emit(area, run)) && SmallHoles(Emit(area, run), gap)
    ensures Emit(area, run).base == run.start && Emit(area, run).req.qty == run.end - run.start
  {
    var txn := Emit(area, run);
    forall f | f in txn.fields
      ensures 1 <= f.wordLen && f.wordOffset + f.wordLen <= txn.req.qty
    {
      assert FieldInside(run, f);
    }
    forall at: nat | txn.req.Read? && at + gap < txn.req.qty
      ensures Serves(txn, at, gap)
    {
      assert Touched(run, run.start + at, gap);
    }
  }

  /** Every read of a bucket of validated entries obeys the protocol's limits,
      bridges no hole wider than `max_gap`, and no two start at one address. */
  lemma MergedReadsAreLegal(area: Area, ivals: seq<Interval>, gap: nat)
    requires ValidIntervals(ivals, area.MaxQty())
    ensures forall t :: t in Coalesced(area, ivals, gap) ==> LegalRead(area, t) && SmallHoles(t, gap)
    ensures forall i, j :: 0 <= i < j < |Coalesced(area, ivals, gap)|
              ==> Coalesced(area, ivals, gap)[i].base < Coalesced(area, ivals, gap)[j].base
  {
    var cap := area.MaxQty();
    var sorted := SortByStart(ivals);
    SortedIsValid(ivals, cap);
    if sorted != [] {
      FreshWithinLimits(sorted[0], gap, cap);
      GrowWithinLimits(Fresh(sorted[0]), sorted[1..], gap, cap);
      var runs := Runs(sorted, gap, cap);
      forall i | 0 <= i < |runs|
        ensures var t := Emit(area, runs[i]);
                LegalRead(area, t) && SmallHoles(t, gap) && t.base == runs[i].start
      {
        assert runs[i] in runs;
        EmitLegal(area, runs[i], gap);
      }
    }
  }

  lemma SortedIsValid(ivals: seq<Interval>, cap: nat)
    requires ValidIntervals(ivals, cap)
    ensures SortedByStart(SortByStart(ivals)) && ValidIntervals(SortByStart(ivals), cap)
  {
    var sorted := SortByStart(ivals);
    SortByStartIsStable(ivals, 0);
    forall i | 0 <= i < |sorted|
      ensures ValidInterval(sorted[i], cap)
    {
      assert sorted[i] in multiset(ivals);
    }
  }

  // ----- Minimality -----

  /** `cuts[k]` says that a partition of the sorted intervals starts a new run at
      `rest[k]`; `[start, end)` is what its open run covers so far. */
  predicate LegalCuts(start: nat, end: nat, rest: seq<Interval>, cuts: seq<bool>, gap: nat, cap: nat)
    requires |cuts| == |rest|
    decreases |rest|
  {
    rest == [] ||
    if cuts[0] then LegalCuts(rest[0].start, rest[0].end, rest[1..], cuts[1..], gap, cap)
    else
      && rest[0].start <= end + gap && rest[0].end <= start + cap
      && LegalCuts(start, Max(end, rest[0].end), rest[1..], cuts[1..], gap, cap)
  }

  function CutCount(cuts: seq<bool>): nat {
    if cuts == [] then 0 else (if cuts[0] then 1 else 0) + CutCount(cuts[1..])
  }

  /** Stay-ahead: the greedy run starts no earlier than the rival's open run, or
      the rival has already spent one run more (`lead`). An interval at which the
      greedy merge cuts ends beyond every earlier interval, so the rival's end
      never passes the greedy one. */
  lemma {:induction false} StaysAhead(run: Run, start: nat, end: nat, rest: seq<Interval>, cuts: seq<bool>,
                                      gap: nat, cap: nat, lead: bool)
    requires |cuts| == |rest| && LegalCuts(start, end, rest, cuts, gap, cap)
    requires end <= run.end <= run.start + cap
    requires lead || start <= run.start
    requires SortedByStart(rest) && ValidIntervals(rest, cap)
    requires rest != [] ==> run.start <= rest[0].start && start <= rest[0].start
    ensures |Grow(run, rest, gap, cap)| <= 1 + CutCount(cuts) + (if lead then 1 else 0)
    decreases |rest|
  {
    if rest != [] {
      var iv := rest[0];
      assert ValidInterval(iv, cap);
      var joins := Joins(run.start, run.end, iv.start, iv.end, gap, cap);
      var next := if joins then Extend(run, iv) else Fresh(iv);
      var lead' := if joins then lead || cuts[0] else lead && cuts[0];
      if cuts[0] {
        StaysAhead(next, iv.start, iv.end, rest[1..], cuts[1..], gap, cap, lead');
      } else {
        StaysAhead(next, start, Max(end, iv.end), rest[1..], cuts[1..], gap, cap, lead');
      }
    }
  }

  function GreedyCuts(run: Run, rest: seq<Interval>, gap: nat, cap: nat): (cuts: seq<bool>)
    ensures |cuts| == |rest|
    decreases |rest|
  {
    if rest == [] then []
    else if Joins(run.start, run.end, rest[0].start, rest[0].end, gap, cap) then
      [false] + GreedyCuts(Extend(run, rest[0]), rest[1..], gap, cap)
    else
      [true] + GreedyCuts(Fresh(rest[0]), rest[1..], gap, cap)
  }

  lemma {:induction false} GreedyCutsAreLegal(run: Run, rest: seq<Interval>, gap: nat, cap: nat)
    ensures LegalCuts(run.start, run.end, rest, GreedyCuts(run, rest, gap, cap), gap, cap)
    ensures |Grow(run, rest, gap, cap)| == 1 + CutCount(GreedyCuts(run, rest, gap, cap))
    decreases |rest|
  {
    if rest != [] {
      var joins := Joins(run.start, run.end, rest[0].start, rest[0].end, gap, cap);
      var next := if joins then Extend(run, rest[0]) else Fresh(rest[0]);
      var cuts := GreedyCuts(next, rest[1..], gap, cap);
      assert GreedyCuts(run, rest, gap, cap)[1..] == cuts;
      GreedyCutsAreLegal(next, rest[1..], gap, cap);
    }
  }

  /** The number of requests is the least that any partition of the sorted
      intervals into consecutive runs under the gap and cap rules can reach. */
  lemma MergeIsMinimal(area: Area, ivals: seq<Interval>, gap: nat)
    requires ivals != [] && ValidIntervals(ivals, area.MaxQty())
    ensures var sorted := SortByStart(ivals); var cap := area.MaxQty();
            && |sorted| == |ivals|
            && cap == (if area.Coils? || area.DiscreteInputs? then 2000 else 125)
            && (exists cuts :: |cuts| == |sorted| - 1
                  && LegalCuts(sorted[0].start, sorted[0].end, sorted[1..], cuts, gap, cap)
                  && |Coalesced(area, ivals, gap)| == 1 + CutCount(cuts))
            && (forall cuts :: |cuts| == |sorted| - 1
                  && LegalCuts(sorted[0].start, sorted[0].end, sorted[1..], cuts, gap, cap)
                  ==> |Coalesced(area, ivals, gap)| <= 1 + CutCount(cuts))
  {
    var sorted := SortByStart(ivals);
    var cap := area.MaxQty();
    SortByStartIsStable(ivals, 0);
    SortedIsValid(ivals, cap);
    assert |sorted| == |multiset(sorted)| == |ivals|;
    assert ValidInterval(sorted[0], cap);
    var first := Fresh(sorted[0]);
    GreedyCutsAreLegal(first, sorted[1..], gap, cap);
    assert |GreedyCuts(first, sorted[1..], gap, cap)| == |sorted| - 1;
    forall cuts: seq<bool> | |cuts| == |sorted| - 1
      && LegalCuts(sorted[0].start, sorted[0].end, sorted[1..], cuts, gap, cap)
      ensures |Coalesced(area, ivals, gap)| <= 1 + CutCount(cuts)
    {
      StaysAhead(first, sorted[0].start, sorted[0].end, sorted[1..], cuts, gap, cap, false);
    }
  }
}
