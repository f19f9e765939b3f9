/** Adaptive de-coalescing settles: against device memories that stay fixed, holes
    included, every register tag shows its own words or Bad after two polls of its
    group, from any state a task can reach, and stays so. */
module Convergence {
  import opened MbTypes
  import opened MbProto
  import opened Coalesce
  import opened CoalesceLaws
  import opened Reading
  import opened Cache
  import opened Device
  import opened Wire
  import opened Ticks
  import opened ChannelLaws

  // ----- What a settled tag shows -----

  /** The tag's own words if its own span is mapped, else Bad. */
  ghost predicate Served(m: Memory, area: Area, t: Target, s: Snapshot) {
    if SpanMapped(m, area, t.addr, t.len) then s.quality == Good && s.value == OwnRead(m, area, t).1
    else s.quality == Bad
  }

  ghost predicate FieldServed(m: Memory, txn: Transaction, f: Field, slots: seq<Snapshot>)
    requires txn.req.Read?
  {
    f.tag < |slots| && Served(m, txn.req.area, FieldTarget(txn.base, f), slots[f.tag])
  }

  ghost predicate AllServed(m: Memory, txn: Transaction, slots: seq<Snapshot>)
    requires txn.req.Read?
  {
    forall i :: 0 <= i < |txn.fields| ==> FieldServed(m, txn, txn.fields[i], slots)
  }

  ghost predicate DistinctTags(fields: seq<Field>) {
    forall i, j :: 0 <= i < j < |fields| ==> fields[i].tag != fields[j].tag
  }

  /** Only a read of several fields is marked as merged; any other asks for its one
      field's own span. */
  predicate ExactIfSingle(txn: Transaction)
    requires txn.req.Read?
  {
    && (txn.coalesced <==> |txn.fields| > 1)
    && (!txn.coalesced ==>
      |txn.fields| == 1 && txn.fields[0].wordOffset == 0 && txn.fields[0].wordLen == txn.req.qty)
  }

  /** What compilation guarantees of a planned register read. */
  ghost predicate WellCut(txn: Transaction, tagCount: nat) {
    && txn.req.Read? && LegalRead(txn.req.area, txn)
    && DistinctTags(txn.fields) && ExactIfSingle(txn)
    && forall f :: f in txn.fields ==> f.tag < tagCount
  }

  /** A run of one entry covers just that entry. */
  predicate ExactRun(run: Run) {
    |run.fields| == 1 ==> run.fields[0].wordOffset == 0 && run.fields[0].wordLen == run.end - run.start
  }

  lemma {:induction false} GrowIsExact(run: Run, rest: seq<Interval>, gap: nat, cap: nat)
    requires ExactRun(run) && run.fields != [] && run.start <= run.end && ValidIntervals(rest, cap)
    ensures forall r :: r in Grow(run, rest, gap, cap) ==> ExactRun(r)
    decreases |rest|
  {
    if rest != [] {
      assert ValidInterval(rest[0], cap) && ValidIntervals(rest[1..], cap);
      if Joins(run.start, run.end, rest[0].start, rest[0].end, gap, cap) {
        GrowIsExact(Extend(run, rest[0]), rest[1..], gap, cap);
      } else {
        GrowIsExact(Fresh(rest[0]), rest[1..], gap, cap);
      }
    }
  }

  /** Coalescing leaves no read with a span wider than its single field. */
  lemma {:induction false} MergedReadsAreExact(area: Area, ivals: seq<Interval>, gap: nat)
    requires ValidIntervals(ivals, area.MaxQty())
    ensures forall t :: t in Coalesced(area, ivals, gap) ==> t.req.Read? && ExactIfSingle(t)
  {
    var sorted, cap := SortByStart(ivals), area.MaxQty();
    SortedIsValid(ivals, cap);
    if sorted != [] {
      assert ValidInterval(sorted[0], cap) && ValidIntervals(sorted[1..], cap);
      FreshWithinLimits(sorted[0], gap, cap);
      GrowWithinLimits(Fresh(sorted[0]), sorted[1..], gap, cap);
      GrowIsExact(Fresh(sorted[0]), sorted[1..], gap, cap);
      var runs := Runs(sorted, gap, cap);
      forall i | 0 <= i < |runs|
        ensures Emit(area, runs[i]).req.Read? && ExactIfSingle(Emit(area, runs[i]))
      {
        assert runs[i] in runs && ExactRun(runs[i]) && WithinLimits(runs[i], gap, cap);
      }
    }
  }

  // ----- One read -----

  /** A fully mapped read serves all its fields. */
  lemma {:induction false} MappedReadServes(m: Memory, txn: Transaction, slots: seq<Snapshot>)
    requires WellCut(txn, |slots|) && SpanMapped(m, txn.req.area, txn.req.addr, txn.req.qty)
    ensures MemoryReply(m, txn.req).Ok?
    ensures AllServed(m, txn, AfterScatter(slots, txn, MemoryReply(m, txn.req).resp))
  {
    var area := txn.req.area;
    ReadServesItsTargets(m, area, txn);
    var updates := OwnReads(m, area, Targets(txn.base, txn.fields));
    forall i | 0 <= i < |txn.fields|
      ensures FieldServed(m, txn, txn.fields[i], Publish(slots, updates))
    {
      assert txn.fields[i] in txn.fields;
      assert updates[i] == OwnRead(m, area, FieldTarget(txn.base, txn.fields[i]));
      PublishWrites(slots, updates, i);
    }
  }

  /** A refused read of one field shows that the field's own span is not mapped. */
  lemma {:induction false} RefusedSingleServes(m: Memory, txn: Transaction, slots: seq<Snapshot>)
    requires WellCut(txn, |slots|) && !txn.coalesced && !SpanMapped(m, txn.req.area, txn.req.addr, txn.req.qty)
    ensures AllServed(m, txn, Requalify(slots, TagsOf(txn.fields), Bad))
  {
    assert txn.fields[0] in txn.fields && TagsOf(txn.fields)[0] == txn.fields[0].tag;
  }

  lemma {:induction false} SingleServes(m: Memory, p: Poller, d: nat, group: nat, index: nat, txn: Transaction)
    requires d < |p.overrides| && WellCut(txn, |p.slots|) && !txn.coalesced
    ensures var q := PollOne(m, p, d, group, index, txn);
            AllServed(m, txn, q.slots) && q.overrides == p.overrides
  {
    if SpanMapped(m, txn.req.area, txn.req.addr, txn.req.qty) {
      MappedReadServes(m, txn, p.slots);
    } else {
      RefusedSingleServes(m, txn, p.slots);
    }
  }

  // ----- What one read leaves alone -----

  /** Only the given tags, and the override of one slot, may differ. */
  ghost predicate Touches(p: Poller, q: Poller, tags: seq<TagId>, d: nat, key: SlotKey) {
    && |q.slots| == |p.slots| && |q.overrides| == |p.overrides| && d < |p.overrides|
    && (forall t :: 0 <= t < |p.slots| && t !in tags ==> q.slots[t] == p.slots[t])
    && (forall e :: 0 <= e < |p.overrides| && e != d ==> q.overrides[e] == p.overrides[e])
    && (forall k :: k != key ==> (k in q.overrides[d] <==> k in p.overrides[d]))
    && (forall k :: k in p.overrides[d] ==> k in q.overrides[d] && q.overrides[d][k] == p.overrides[d][k])
  }

  lemma {:induction false} TouchesAfter(p: Poller, q: Poller, r: Poller, tags: seq<TagId>, d: nat, key: SlotKey)
    requires Touches(p, q, tags, d, key) && Touches(q, r, tags, d, key)
    ensures Touches(p, r, tags, d, key)
  {
  }

  lemma {:induction false} OneReadTouches(m: Memory, p: Poller, d: nat, group: nat, index: nat, txn: Transaction,
                                          tags: seq<TagId>)
    requires d < |p.overrides| && forall f :: f in txn.fields ==> f.tag in tags
    ensures Touches(p, PollOne(m, p, d, group, index, txn), tags, d, (group, index))
  {
    match MemoryReply(m, txn.req) {
      case Ok(resp) => ScatterTouches(p.slots, txn, resp, tags);
      case Err(_) => OwnFieldTags(txn, tags);
    }
  }

  lemma {:induction false} ReadsTouch(m: Memory, p: Poller, d: nat, group: nat, index: nat, txns: seq<Transaction>,
                                      tags: seq<TagId>)
    requires d < |p.overrides| && forall txn, f :: txn in txns && f in txn.fields ==> f.tag in tags
    ensures Touches(p, PollEach(m, p, d, group, index, txns), tags, d, (group, index))
    decreases |txns|
  {
    if txns != [] {
      var init, last := txns[..|txns| - 1], txns[|txns| - 1];
      ReadsTouch(m, p, d, group, index, init, tags);
      var q := PollEach(m, p, d, group, index, init);
      assert last in txns;
      OneReadTouches(m, q, d, group, index, last, tags);
      TouchesAfter(p, q, PollOne(m, q, d, group, index, last), tags, d, (group, index));
    }
  }

  // ----- One slot of the plan -----

  ghost predicate IsSlot(devices: seq<DevicePlan>, d: nat, group: nat, index: nat) {
    d < |devices| && group < |devices[d].byGroup| && index < |devices[d].byGroup[group]|
  }

  ghost predicate Apart(a: Transaction, b: Transaction) {
    forall f, g :: f in a.fields && g in b.fields ==> f.tag != g.tag
  }

  /** No tag is fed by two slots. */
  ghost predicate SlotsApart(devices: seq<DevicePlan>) {
    forall d: nat, g: nat, i: nat, e: nat, h: nat, j: nat ::
      IsSlot(devices, d, g, i) && IsSlot(devices, e, h, j) && (d, g, i) != (e, h, j) ==>
      Apart(devices[d].byGroup[g][i], devices[e].byGroup[h][j])
  }

  /** The slot's next poll cannot be refused for a neighbour's sake: it is split,
      or cannot split, or is mapped throughout. */
  ghost predicate Ready(m: Memory, o: Overrides, group: nat, index: nat, base: Transaction)
    requires base.req.Read?
  {
    (group, index) in o || !base.coalesced || SpanMapped(m, base.req.area, base.req.addr, base.req.qty)
  }

  /** How far a slot has come: 1 is ready, 2 is settled as well. */
  ghost predicate Stage(m: Memory, p: Poller, d: nat, group: nat, index: nat, base: Transaction, n: nat)
    requires d < |p.overrides| && base.req.Read?
  {
    && (n >= 1 ==> Ready(m, p.overrides[d], group, index, base))
    && (n >= 2 ==> AllServed(m, base, p.slots))
  }

  lemma {:induction false} SubReadIsWellCut(txn: Transaction, i: nat, tagCount: nat)
    requires WellCut(txn, tagCount) && i < |txn.fields|
    ensures var sub := SplitTxn(txn)[i];
            && WellCut(sub, tagCount) && !sub.coalesced && sub.req.area == txn.req.area
            && sub.fields == [txn.fields[i].(wordOffset := 0)]
            && FieldTarget(sub.base, sub.fields[0]) == FieldTarget(txn.base, txn.fields[i])
  {
    SplitReadsAreLegal(txn.req.area, txn, i);
    assert txn.fields[i] in txn.fields;
  }

  /** The first `n` fields of a read are served. */
  ghost predicate ServedUpTo(m: Memory, txn: Transaction, slots: seq<Snapshot>, n: nat)
    requires txn.req.Read? && n <= |txn.fields|
  {
    forall i :: 0 <= i < n ==> FieldServed(m, txn, txn.fields[i], slots)
  }

  lemma {:induction false} OneEach(m: Memory, p: Poller, d: nat, group: nat, index: nat, txn: Transaction)
    requires d < |p.overrides|
    ensures PollEach(m, p, d, group, index, [txn]) == PollOne(m, p, d, group, index, txn)
  {
    assert [txn][..|[txn]| - 1] == [];
    assert PollEach(m, p, d, group, index, []) == p;
  }

  lemma FieldKept(m: Memory, txn: Transaction, f: Field, before: seq<Snapshot>, after: seq<Snapshot>)
    requires txn.req.Read? && FieldServed(m, txn, f, before)
    requires |after| == |before| && after[f.tag] == before[f.tag]
    ensures FieldServed(m, txn, f, after)
  {
  }

  /** Serving a split read serves the field it was cut out for. */
  lemma SubFieldServed(m: Memory, txn: Transaction, k: nat, slots: seq<Snapshot>)
    requires WellCut(txn, |slots|) && k < |txn.fields|
    requires var sub := SplitTxn(txn)[k]; sub.req.Read? && AllServed(m, sub, slots)
    ensures FieldServed(m, txn, txn.fields[k], slots)
  {
    SubReadIsWellCut(txn, k, |slots|);
    var sub := SplitTxn(txn)[k];
    assert FieldServed(m, sub, sub.fields[0], slots);
  }

  /** One more field served, and no other tag touched. */
  lemma {:induction false} ServedGrows(m: Memory, txn: Transaction, before: seq<Snapshot>, after: seq<Snapshot>, k: nat)
    requires txn.req.Read? && k < |txn.fields| && ServedUpTo(m, txn, before, k) && |after| == |before|
    requires DistinctTags(txn.fields) && FieldServed(m, txn, txn.fields[k], after)
    requires forall t :: 0 <= t < |before| && t != txn.fields[k].tag ==> after[t] == before[t]
    ensures ServedUpTo(m, txn, after, k + 1)
  {
    forall i | 0 <= i < k + 1
      ensures FieldServed(m, txn, txn.fields[i], after)
    {
      if i < k {
        assert FieldServed(m, txn, txn.fields[i], before);
        FieldKept(m, txn, txn.fields[i], before, after);
      }
    }
  }

  lemma {:induction false} SubReadTouches(m: Memory, p: Poller, d: nat, group: nat, index: nat, txn: Transaction,
                                          k: nat)
    requires d < |p.overrides| && WellCut(txn, |p.slots|) && k < |txn.fields|
    ensures var q := PollOne(m, p, d, group, index, SplitTxn(txn)[k]);
            && |q.slots| == |p.slots|
            && forall t :: 0 <= t < |p.slots| && t != txn.fields[k].tag ==> q.slots[t] == p.slots[t]
  {
    SubReadIsWellCut(txn, k, |p.slots|);
    OneReadTouches(m, p, d, group, index, SplitTxn(txn)[k], [txn.fields[k].tag]);
  }

  /** Polling the read of field `k` alone serves that field and keeps the others. */
  lemma {:induction false} SubReadServes(m: Memory, p: Poller, d: nat, group: nat, index: nat, txn: Transaction, k: nat)
    requires d < |p.overrides| && WellCut(txn, |p.slots|) && k < |txn.fields| && ServedUpTo(m, txn, p.slots, k)
    ensures var q := PollOne(m, p, d, group, index, SplitTxn(txn)[k]);
            q.overrides == p.overrides && ServedUpTo(m, txn, q.slots, k + 1)
  {
    var sub := SplitTxn(txn)[k];
    SubReadIsWellCut(txn, k, |p.slots|);
    SingleServes(m, p, d, group, index, sub);
    SubReadTouches(m, p, d, group, index, txn, k);
    var q := PollOne(m, p, d, group, index, sub);
    SubFieldServed(m, txn, k, q.slots);
    ServedGrows(m, txn, p.slots, q.slots, k);
  }

  /** Polling a split serves the fields of the read it replaces. */
  lemma {:induction false} SplitServes(m: Memory, p: Poller, d: nat, group: nat, index: nat, txn: Transaction, n: nat)
    requires d < |p.overrides| && WellCut(txn, |p.slots|) && n <= |txn.fields|
    ensures var q := PollEach(m, p, d, group, index, SplitTxn(txn)[..n]);
            q.overrides == p.overrides && ServedUpTo(m, txn, q.slots, n)
  {
    if n > 0 {
      var before := PollEach(m, p, d, group, index, SplitTxn(txn)[..n - 1]);
      SplitServes(m, p, d, group, index, txn, n - 1);
      EachOneMore(m, p, d, group, index, SplitTxn(txn), n - 1);
      SubReadServes(m, before, d, group, index, txn, n - 1);
    }
  }

  /** One poll makes the slot ready; a poll of a ready slot settles it. */
  lemma {:induction false} PollAdvances(m: Memory, p: Poller, d: nat, dev: DevicePlan, group: nat, index: nat, n: nat)
    requires d < |p.overrides| && OverridesOk(dev, p.overrides[d])
    requires group < |dev.byGroup| && index < |dev.byGroup[group]|
    requires var base := dev.byGroup[group][index]; WellCut(base, |p.slots|) && Stage(m, p, d, group, index, base, n)
    ensures var base := dev.byGroup[group][index];
            Stage(m, SlotPolled(m, p, d, group, index, base), d, group, index, base, Min(n + 1, 2))
  {
    var base := dev.byGroup[group][index];
    if (group, index) in p.overrides[d] {
      SplitSettles(m, p, d, group, index, base);
    } else {
      PlannedReadAdvances(m, p, d, group, index, base, n);
    }
  }

  lemma {:induction false} SplitSettles(m: Memory, p: Poller, d: nat, group: nat, index: nat, base: Transaction)
    requires d < |p.overrides| && WellCut(base, |p.slots|)
    requires (group, index) in p.overrides[d] && p.overrides[d][(group, index)] == SplitTxn(base)
    ensures Stage(m, SlotPolled(m, p, d, group, index, base), d, group, index, base, 2)
  {
    SplitServes(m, p, d, group, index, base, |base.fields|);
    assert SplitTxn(base)[..|base.fields|] == SplitTxn(base);
  }

  lemma {:induction false} PlannedReadAdvances(m: Memory, p: Poller, d: nat, group: nat, index: nat, base: Transaction,
                                               n: nat)
    requires d < |p.overrides| && WellCut(base, |p.slots|) && (group, index) !in p.overrides[d]
    requires Stage(m, p, d, group, index, base, n)
    ensures Stage(m, SlotPolled(m, p, d, group, index, base), d, group, index, base, Min(n + 1, 2))
  {
    OneEach(m, p, d, group, index, base);
    if SpanMapped(m, base.req.area, base.req.addr, base.req.qty) {
      MappedReadServes(m, base, p.slots);
    } else if !base.coalesced {
      SingleServes(m, p, d, group, index, base);
    }
  }

  lemma {:induction false} SlotTouches(m: Memory, p: Poller, d: nat, dev: DevicePlan, group: nat, index: nat)
    requires d < |p.overrides| && OverridesOk(dev, p.overrides[d])
    requires group < |dev.byGroup| && index < |dev.byGroup[group]|
    ensures var base := dev.byGroup[group][index];
            Touches(p, SlotPolled(m, p, d, group, index, base), TagsOf(base.fields), d, (group, index))
  {
    var base := dev.byGroup[group][index];
    var txns := Effective(p.overrides[d], group, index, base);
    forall txn, f | txn in txns && f in txn.fields
      ensures f.tag in TagsOf(base.fields)
    {
      if (group, index) in p.overrides[d] {
        var i :| 0 <= i < |txns| && txns[i] == txn;
        assert TagsOf(base.fields)[i] == f.tag;
      } else {
        var i :| 0 <= i < |base.fields| && base.fields[i] == f;
        assert TagsOf(base.fields)[i] == f.tag;
      }
    }
    ReadsTouch(m, p, d, group, index, txns, TagsOf(base.fields));
  }

  /** Polling another slot leaves a slot where it was. */
  lemma {:induction false} OthersKeep(m: Memory, p: Poller, q: Poller, d: nat, group: nat, index: nat,
                                      base: Transaction, n: nat, other: Transaction, e: nat, key: SlotKey)
    requires d < |p.overrides| && base.req.Read? && Stage(m, p, d, group, index, base, n)
    requires Touches(p, q, TagsOf(other.fields), e, key) && Apart(base, other)
    ensures Stage(m, q, d, group, index, base, n)
  {
    if n >= 2 {
      forall i | 0 <= i < |base.fields|
        ensures FieldServed(m, base, base.fields[i], q.slots)
      {
        var t := base.fields[i].tag;
        assert FieldServed(m, base, base.fields[i], p.slots);
        assert base.fields[i] in base.fields;
        forall j | 0 <= j < |other.fields|
          ensures TagsOf(other.fields)[j] != t
        {
          assert other.fields[j] in other.fields;
        }
      }
    }
  }

  /** A slot poll keeps every override a split of its planned read. */
  lemma {:induction false} SlotKeepsSplits(m: Memory, p: Poller, devices: seq<DevicePlan>, d: nat, group: nat,
                                           index: nat)
    requires SplitsOk(devices, p.overrides) && IsSlot(devices, d, group, index)
    ensures SplitsOk(devices, SlotPolled(m, p, d, group, index, devices[d].byGroup[group][index]).overrides)
  {
    var base := devices[d].byGroup[group][index];
    if (group, index) in p.overrides[d] {
      EachKeepsSplits(m, p, d, group, index, p.overrides[d][(group, index)]);
    } else {
      OneEach(m, p, d, group, index, base);
    }
  }

  /** A slot that is split stays as it is: it splits at most once. */
  lemma {:induction false} EachKeepsSplits(m: Memory, p: Poller, d: nat, group: nat, index: nat, txns: seq<Transaction>)
    requires d < |p.overrides| && (group, index) in p.overrides[d]
    ensures PollEach(m, p, d, group, index, txns).overrides == p.overrides
    decreases |txns|
  {
    if txns != [] {
      EachKeepsSplits(m, p, d, group, index, txns[..|txns| - 1]);
    }
  }

  // ----- Passes -----

  /** A plan over fixed memories, and one of its slots. */
  ghost predicate Watched(devices: seq<DevicePlan>, p: Poller, d: nat, group: nat, index: nat) {
    && SplitsOk(devices, p.overrides) && SlotsApart(devices) && IsSlot(devices, d, group, index)
    && WellCut(devices[d].byGroup[group][index], |p.slots|)
  }

  /** The watched slot has come as far as stage `n`. */
  ghost predicate At(bench: Byte -> Memory, devices: seq<DevicePlan>, p: Poller, d: nat, group: nat, index: nat,
                     n: nat) {
    && Watched(devices, p, d, group, index)
    && Stage(bench(devices[d].unit), p, d, group, index, devices[d].byGroup[group][index], n)
  }

  /** One more poll of the slot itself. */
  function Later(n: nat, polled: bool): nat {
    if polled then Min(n + 1, 2) else n
  }

  lemma {:induction false} SlotStep(bench: Byte -> Memory, devices: seq<DevicePlan>, p: Poller, e: nat, h: nat, j: nat,
                                    d: nat, group: nat, index: nat, n: nat)
    requires At(bench, devices, p, d, group, index, n) && IsSlot(devices, e, h, j)
    ensures At(bench, devices, SlotPolled(bench(devices[e].unit), p, e, h, j, devices[e].byGroup[h][j]),
               d, group, index,
               Later(n, (e, h, j) == (d, group, index)))
  {
    var m := bench(devices[e].unit);
    SlotKeepsSplits(m, p, devices, e, h, j);
    if (e, h, j) == (d, group, index) {
      PollAdvances(m, p, d, devices[d], group, index, n);
    } else {
      SlotTouches(m, p, e, devices[e], h, j);
      OthersKeep(bench(devices[d].unit), p, SlotPolled(m, p, e, h, j, devices[e].byGroup[h][j]), d, group, index,
                 devices[d].byGroup[group][index], n, devices[e].byGroup[h][j], e, (h, j));
    }
  }

  lemma {:induction false} GroupOneMore(m: Memory, p: Poller, d: nat, group: nat, txns: seq<Transaction>, n: nat)
    requires d < |p.overrides| && n < |txns|
    ensures PollGroup(m, p, d, group, txns, n + 1)
         == SlotPolled(m, PollGroup(m, p, d, group, txns, n), d, group, n, txns[n])
  {
  }

  // ----- Climbing the stages step by step -----

  /** The first `n` steps. */
  ghost function Iterate(step: (Poller, nat) -> Poller, p: Poller, n: nat): Poller {
    if n == 0 then p else step(Iterate(step, p, n - 1), n - 1)
  }

  lemma {:induction false} IterateFollows(step: (Poller, nat) -> Poller, states: nat -> Poller, n: nat)
    requires forall i: nat :: i < n ==> states(i + 1) == step(states(i), i)
    ensures Iterate(step, states(0), n) == states(n)
  {
    if n > 0 {
      IterateFollows(step, states, n - 1);
    }
  }

  /** The stage after the first `k` steps, of which those in `polled` poll the slot. */
  ghost function Stages(n: nat, polled: nat -> bool, k: nat): nat {
    if k == 0 then n else Later(Stages(n, polled, k - 1), polled(k - 1))
  }

  /** Step `i` takes every stage to the next one it should. */
  ghost predicate Ascends(at: (Poller, nat) -> bool, step: (Poller, nat) -> Poller, polled: nat -> bool, i: nat) {
    forall q, j :: at(q, j) ==> at(step(q, i), Later(j, polled(i)))
  }

  lemma {:induction false} Climb(at: (Poller, nat) -> bool, step: (Poller, nat) -> Poller, polled: nat -> bool,
                                 p: Poller, n: nat, k: nat)
    requires at(p, n) && forall i: nat :: i < k ==> Ascends(at, step, polled, i)
    ensures at(Iterate(step, p, k), Stages(n, polled, k))
  {
    if k > 0 {
      Climb(at, step, polled, p, n, k - 1);
      assert Ascends(at, step, polled, k - 1);
    }
  }

  lemma {:induction false} OnePoll(n: nat, polled: nat -> bool, index: nat, same: bool, k: nat)
    requires forall i: nat :: polled(i) <==> same && i == index
    ensures Stages(n, polled, k) == Later(n, same && index < k)
  {
    if k > 0 {
      OnePoll(n, polled, index, same, k - 1);
    }
  }

  lemma {:induction false} SomePolls(n: nat, polled: nat -> bool, k: nat)
    requires n <= 2
    ensures n <= Stages(n, polled, k) <= 2
    ensures forall i: nat :: i < k && polled(i) ==> Stages(n, polled, k) >= Min(n + 1, 2)
  {
    if k > 0 {
      SomePolls(n, polled, k - 1);
    }
  }

  // ----- Groups -----

  ghost function SlotStepOf(m: Memory, d: nat, group: nat, txns: seq<Transaction>): (Poller, nat) -> Poller {
    (q: Poller, i: nat) => if d < |q.overrides| && i < |txns| then SlotPolled(m, q, d, group, i, txns[i]) else q
  }

  lemma GroupTakesStep(m: Memory, p: Poller, d: nat, group: nat, txns: seq<Transaction>, i: nat)
    requires d < |p.overrides| && i < |txns|
    ensures PollGroup(m, p, d, group, txns, i + 1)
         == SlotStepOf(m, d, group, txns)(PollGroup(m, p, d, group, txns, i), i)
  {
    GroupOneMore(m, p, d, group, txns, i);
    StepPolls(m, PollGroup(m, p, d, group, txns, i), d, group, txns, i);
  }

  lemma StepPolls(m: Memory, q: Poller, d: nat, group: nat, txns: seq<Transaction>, i: nat)
    requires d < |q.overrides| && i < |txns|
    ensures SlotStepOf(m, d, group, txns)(q, i) == SlotPolled(m, q, d, group, i, txns[i])
  {
  }

  lemma {:induction false} GroupIterates(m: Memory, p: Poller, d: nat, group: nat, txns: seq<Transaction>)
    requires d < |p.overrides|
    ensures PollGroup(m, p, d, group, txns, |txns|) == Iterate(SlotStepOf(m, d, group, txns), p, |txns|)
  {
    var step := SlotStepOf(m, d, group, txns);
    var states := (i: nat) => if i <= |txns| then PollGroup(m, p, d, group, txns, i) else p;
    forall i: nat | i < |txns|
      ensures states(i + 1) == step(states(i), i)
    {
      GroupTakesStep(m, p, d, group, txns, i);
    }
    IterateFollows(step, states, |txns|);
  }

  lemma {:induction false} GroupAscends(bench: Byte -> Memory, devices: seq<DevicePlan>, q: Poller, e: nat, h: nat,
                                        i: nat, d: nat, group: nat, index: nat, j: nat)
    requires e < |devices| && h < |devices[e].byGroup| && i < |devices[e].byGroup[h]|
    requires At(bench, devices, q, d, group, index, j)
    ensures At(bench, devices, SlotStepOf(bench(devices[e].unit), e, h, devices[e].byGroup[h])(q, i), d, group, index,
               Later(j, (e, h) == (d, group) && i == index))
  {
    SlotStep(bench, devices, q, e, h, i, d, group, index, j);
  }

  /** One poll of a whole group, seen from one slot. */
  lemma {:induction false} GroupStep(bench: Byte -> Memory, devices: seq<DevicePlan>, p: Poller, e: nat, h: nat,
                                     d: nat, group: nat, index: nat, n: nat)
    requires At(bench, devices, p, d, group, index, n)
    requires e < |devices| && h < |devices[e].byGroup|
    ensures At(bench, devices,
               PollGroup(bench(devices[e].unit), p, e, h, devices[e].byGroup[h], |devices[e].byGroup[h]|),
               d, group, index, Later(n, (e, h) == (d, group)))
  {
    var txns, same := devices[e].byGroup[h], (e, h) == (d, group);
    var at := (q: Poller, j: nat) => At(bench, devices, q, d, group, index, j);
    var step := SlotStepOf(bench(devices[e].unit), e, h, txns);
    var polled := (i: nat) => same && i == index;
    forall i: nat | i < |txns|
      ensures Ascends(at, step, polled, i)
    {
      forall q, j | at(q, j)
        ensures at(step(q, i), Later(j, polled(i)))
      {
        GroupAscends(bench, devices, q, e, h, i, d, group, index, j);
      }
    }
    Climb(at, step, polled, p, n, |txns|);
    OnePoll(n, polled, index, same, |txns|);
    GroupIterates(bench(devices[e].unit), p, e, h, txns);
  }

  // ----- Passes over a batch -----

  ghost function GroupStepOf(bench: Byte -> Memory, devices: seq<DevicePlan>, due: seq<(nat, nat)>):
    (Poller, nat) -> Poller
    requires DueInRange(devices, due)
  {
    (q: Poller, i: nat) =>
      if i < |due| && |q.overrides| == |devices| then
        PollGroup(bench(devices[due[i].0].unit), q, due[i].0, due[i].1, devices[due[i].0].byGroup[due[i].1],
                  |devices[due[i].0].byGroup[due[i].1]|)
      else q
  }

  lemma {:induction false} DueOneMore(bench: Byte -> Memory, devices: seq<DevicePlan>, p: Poller, due: seq<(nat, nat)>,
                                      n: nat)
    requires |p.overrides| == |devices| && DueInRange(devices, due) && n < |due|
    ensures PollDue(bench, devices, p, due, n + 1)
         == PollGroup(bench(devices[due[n].0].unit), PollDue(bench, devices, p, due, n), due[n].0, due[n].1,
                      devices[due[n].0].byGroup[due[n].1], |devices[due[n].0].byGroup[due[n].1]|)
  {
  }

  lemma {:induction false} DueIterates(bench: Byte -> Memory, devices: seq<DevicePlan>, p: Poller, due: seq<(nat, nat)>,
                                       n: nat)
    requires |p.overrides| == |devices| && DueInRange(devices, due) && n <= |due|
    ensures PollDue(bench, devices, p, due, n) == Iterate(GroupStepOf(bench, devices, due), p, n)
  {
    if n > 0 {
      DueIterates(bench, devices, p, due, n - 1);
      DueOneMore(bench, devices, p, due, n - 1);
    }
  }

  /** A stage, once reached, is never left. */
  lemma {:induction false} Weaken(bench: Byte -> Memory, devices: seq<DevicePlan>, p: Poller, d: nat, group: nat,
                                  index: nat, n: nat, k: nat)
    requires At(bench, devices, p, d, group, index, n) && k <= n
    ensures At(bench, devices, p, d, group, index, k)
  {
  }

  /** One pass over a scheduler batch, seen from one slot. */
  lemma {:induction false} PassStep(bench: Byte -> Memory, devices: seq<DevicePlan>, p: Poller, due: seq<(nat, nat)>,
                                    d: nat, group: nat, index: nat, n: nat)
    requires At(bench, devices, p, d, group, index, n) && DueInRange(devices, due) && n <= 2
    ensures At(bench, devices, PollDue(bench, devices, p, due, |due|), d, group, index, Later(n, (d, group) in due))
  {
    var at := (q: Poller, j: nat) => At(bench, devices, q, d, group, index, j);
    var step := GroupStepOf(bench, devices, due);
    var polled := (i: nat) => i < |due| && due[i] == (d, group);
    forall i: nat | i < |due|
      ensures Ascends(at, step, polled, i)
    {
      forall q, j | at(q, j)
        ensures at(step(q, i), Later(j, polled(i)))
      {
        GroupStep(bench, devices, q, due[i].0, due[i].1, d, group, index, j);
      }
    }
    Climb(at, step, polled, p, n, |due|);
    SomePolls(n, polled, |due|);
    DueIterates(bench, devices, p, due, |due|);
    if (d, group) in due {
      var i :| 0 <= i < |due| && due[i] == (d, group);
      assert polled(i);
    }
    Weaken(bench, devices, PollDue(bench, devices, p, due, |due|), d, group, index, Stages(n, polled, |due|),
           Later(n, (d, group) in due));
  }

  /** After two passes that each poll the slot's group, whatever else they poll and
      whatever state they start from, every tag of the slot shows its own words if
      its own span is mapped, else Bad; and its override, if any, is exactly the
      split of the planned read. */
  lemma {:induction false} TwoPassesSettle(bench: Byte -> Memory, devices: seq<DevicePlan>, p: Poller, d: nat,
                                           group: nat, index: nat, first: seq<(nat, nat)>, second: seq<(nat, nat)>)
    requires Watched(devices, p, d, group, index) && DueInRange(devices, first) && DueInRange(devices, second)
    requires (d, group) in first && (d, group) in second
    ensures var q := PollDue(bench, devices, PollDue(bench, devices, p, first, |first|), second, |second|);
            var base := devices[d].byGroup[group][index];
            && At(bench, devices, q, d, group, index, 2)
            && ((group, index) in q.overrides[d] ==> q.overrides[d][(group, index)] == SplitTxn(base))
            && forall i :: 0 <= i < |base.fields| ==>
                 Served(bench(devices[d].unit), base.req.area, FieldTarget(base.base, base.fields[i]),
                        q.slots[base.fields[i].tag])
  {
    PassStep(bench, devices, p, first, d, group, index, 0);
    var q := PollDue(bench, devices, p, first, |first|);
    PassStep(bench, devices, q, second, d, group, index, 1);
    SettledShows(bench, devices, PollDue(bench, devices, q, second, |second|), d, group, index);
  }

  lemma {:induction false} SettledShows(bench: Byte -> Memory, devices: seq<DevicePlan>, p: Poller, d: nat, group: nat,
                                        index: nat)
    requires At(bench, devices, p, d, group, index, 2)
    ensures var base := devices[d].byGroup[group][index];
            forall i :: 0 <= i < |base.fields| ==>
              (base.fields[i].tag < |p.slots|
               && Served(bench(devices[d].unit), base.req.area, FieldTarget(base.base, base.fields[i]),
                         p.slots[base.fields[i].tag]))
  {
    var base := devices[d].byGroup[group][index];
    forall i | 0 <= i < |base.fields|
      ensures FieldServed(bench(devices[d].unit), base, base.fields[i], p.slots)
    {
    }
  }

  /** A settled slot stays settled, its override unchanged, through every later
      pass. */
  lemma {:induction false} SettledStays(bench: Byte -> Memory, devices: seq<DevicePlan>, p: Poller, d: nat, group: nat,
                                        index: nat, due: seq<(nat, nat)>)
    requires At(bench, devices, p, d, group, index, 2) && DueInRange(devices, due)
    ensures At(bench, devices, PollDue(bench, devices, p, due, |due|), d, group, index, 2)
  {
    PassStep(bench, devices, p, due, d, group, index, 2);
  }
}
