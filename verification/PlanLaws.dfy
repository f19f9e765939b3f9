/** A compiled channel is what the channel task, the convergence of its splits and
    the protocol's limits rely on: `build_all` of `mb-poller/src/plan.rs` over a
    validated and resolved channel. */
module PlanLaws {
  import opened MbTypes
  import opened MbProto
  import opened Coalesce
  import opened CoalesceLaws
  import opened Reading
  import opened Device
  import opened Wire
  import opened ChannelLaws
  import opened Convergence
  import opened Ticks
  import opened Plan
  import Resolve

  // ----- Poll groups -----

  function GroupsOf(devs: seq<Resolve.ResolvedDevice>): seq<nat> {
    if devs == [] then []
    else GroupsOf(devs[..|devs| - 1])
         + if devs[|devs| - 1].enabled then RegisterGroups(devs[|devs| - 1].registers) else []
  }

  function RegisterGroups(rs: seq<Register>): (groups: seq<nat>)
    ensures |groups| == |rs| && forall i :: 0 <= i < |rs| ==> groups[i] == rs[i].entry.group
  {
    seq(|rs|, i requires 0 <= i < |rs| => rs[i].entry.group)
  }

  function InsertNat(g: nat, sorted: seq<nat>): seq<nat> {
    if sorted == [] || g <= sorted[0] then [g] + sorted else [sorted[0]] + InsertNat(g, sorted[1..])
  }

  function SortNats(groups: seq<nat>): seq<nat> {
    if groups == [] then [] else InsertNat(groups[0], SortNats(groups[1..]))
  }

  predicate Ascending(s: seq<nat>) {
    forall i, j :: 0 <= i < j < |s| ==> s[i] <= s[j]
  }

  lemma {:induction false} InsertNatSorts(g: nat, sorted: seq<nat>)
    requires Ascending(sorted)
    ensures Ascending(InsertNat(g, sorted))
    ensures forall x :: x in InsertNat(g, sorted) <==> x == g || x in sorted
  {
    if sorted != [] && g > sorted[0] {
      var rest := InsertNat(g, sorted[1..]);
      InsertNatSorts(g, sorted[1..]);
      assert sorted == [sorted[0]] + sorted[1..];
      forall i | 0 <= i < |rest|
        ensures sorted[0] <= rest[i]
      {
        assert rest[i] in rest;
      }
    }
  }

  lemma {:induction false} SortNatsSorts(groups: seq<nat>)
    ensures Ascending(SortNats(groups))
    ensures forall x :: x in SortNats(groups) <==> x in groups
  {
    if groups != [] {
      SortNatsSorts(groups[1..]);
      InsertNatSorts(groups[0], SortNats(groups[1..]));
      assert groups == [groups[0]] + groups[1..];
    }
  }

  /** Sorted without repeats, in place in the program. */
  method SortAndDedup(groups: seq<nat>) returns (out: seq<nat>)
    ensures StrictlyAscending(out) && forall x :: x in out <==> x in groups
  {
    var sorted := SortNats(groups);
    SortNatsSorts(groups);
    out := [];
    for i := 0 to |sorted|
      invariant StrictlyAscending(out)
      invariant forall x :: x in out <==> x in sorted[..i]
      invariant out != [] ==> i > 0 && out[|out| - 1] == sorted[i - 1]
      invariant out == [] ==> i == 0
    {
      assert sorted[..i + 1] == sorted[..i] + [sorted[i]];
      if out == [] || out[|out| - 1] != sorted[i] {
        out := out + [sorted[i]];
      }
    }
    assert sorted[..|sorted|] == sorted;
  }

  // ----- build_all, for one channel -----

  datatype PollGroup = PollGroup(periodMs: nat, priority: int)

  datatype ChannelPlan = ChannelPlan(
    groups: seq<nat>, periods: seq<nat>, priorities: seq<int>, devices: seq<DevicePlan>)

  function EnabledDevices(devs: seq<Resolve.ResolvedDevice>): seq<Resolve.ResolvedDevice> {
    if devs == [] then []
    else EnabledDevices(devs[..|devs| - 1]) + if devs[|devs| - 1].enabled then [devs[|devs| - 1]] else []
  }

  /** A plan lists the groups of its enabled devices, each once and in order, and
      compiles exactly those devices. */
  ghost predicate Compiled(ch: Resolve.ResolvedChannel, pollGroups: seq<PollGroup>, plan: ChannelPlan) {
    && StrictlyAscending(plan.groups)
    && (forall g :: g in plan.groups <==> g in GroupsOf(ch.devices))
    && |plan.periods| == |plan.priorities| == |plan.groups|
    && (forall g :: 0 <= g < |plan.groups| ==>
          && plan.groups[g] < |pollGroups|
          && plan.periods[g] == pollGroups[plan.groups[g]].periodMs
          && plan.priorities[g] == pollGroups[plan.groups[g]].priority)
    && |plan.devices| == |EnabledDevices(ch.devices)|
    && (forall d :: 0 <= d < |plan.devices| ==>
          plan.devices[d] == BuildDevice(EnabledDevices(ch.devices)[d], plan.groups))
  }

  method CompileChannel(ch: Resolve.ResolvedChannel, pollGroups: seq<PollGroup>) returns (plan: ChannelPlan)
    requires forall g :: g in GroupsOf(ch.devices) ==> g < |pollGroups|
    ensures Compiled(ch, pollGroups, plan)
  {
    var ids := GroupsOf(ch.devices);
    var groups := SortAndDedup(ids);
    var periods: seq<nat> := [];
    var priorities: seq<int> := [];
    for g := 0 to |groups|
      invariant |periods| == |priorities| == g
      invariant forall k :: 0 <= k < g ==>
                  && groups[k] < |pollGroups|
                  && periods[k] == pollGroups[groups[k]].periodMs && priorities[k] == pollGroups[groups[k]].priority
    {
      assert groups[g] in ids;
      periods := periods + [pollGroups[groups[g]].periodMs];
      priorities := priorities + [pollGroups[groups[g]].priority];
    }
    var devices := CompileEnabled(ch.devices, groups);
    plan := ChannelPlan(groups, periods, priorities, devices);
  }

  method CompileEnabled(devs: seq<Resolve.ResolvedDevice>, groups: seq<nat>) returns (devices: seq<DevicePlan>)
    ensures |devices| == |EnabledDevices(devs)|
    ensures forall d :: 0 <= d < |devices| ==> devices[d] == BuildDevice(EnabledDevices(devs)[d], groups)
  {
    devices := [];
    for i := 0 to |devs|
      invariant |devices| == |EnabledDevices(devs[..i])|
      invariant forall d :: 0 <= d < |devices| ==> devices[d] == BuildDevice(EnabledDevices(devs[..i])[d], groups)
    {
      assert devs[..i + 1][..i] == devs[..i];
      if devs[i].enabled {
        var dev := CompileDevice(devs[i], groups);
        devices := devices + [dev];
      }
    }
    assert devs[..|devs|] == devs;
  }

  // ----- What the parts of a channel promise -----

  predicate Separate(a: Resolve.ResolvedDevice, b: Resolve.ResolvedDevice) {
    forall i, j :: 0 <= i < |a.registers| && 0 <= j < |b.registers| ==> a.registers[i].tag != b.registers[j].tag
  }

  predicate AllSeparate(devs: seq<Resolve.ResolvedDevice>) {
    forall d, e :: 0 <= d < e < |devs| ==> Separate(devs[d], devs[e])
  }

  /** A device whose registers are valid and hold distinct tags of the range. */
  ghost predicate DeviceReady(dev: Resolve.ResolvedDevice, first: TagId, end: TagId) {
    && AllPollable(dev.registers) && Distinct(TagsOfRegisters(dev.registers))
    && (forall i :: 0 <= i < |dev.registers| ==> first <= dev.registers[i].tag < end)
    && dev.offlineAfter <= U32_MAX && dev.retry.Valid()
  }

  /** What validation and resolution leave of a channel. */
  ghost predicate ChannelReady(ch: Resolve.ResolvedChannel) {
    && (forall d :: 0 <= d < |ch.devices| && ch.devices[d].enabled ==>
          DeviceReady(ch.devices[d], ch.tagStart, ch.tagEnd))
    && AllSeparate(ch.devices)
  }

  lemma {:induction false} EnabledAreDevices(devs: seq<Resolve.ResolvedDevice>)
    ensures forall dev :: dev in EnabledDevices(devs) <==> dev in devs && dev.enabled
  {
    if devs != [] {
      var n := |devs| - 1;
      var before := EnabledDevices(devs[..n]);
      EnabledAreDevices(devs[..n]);
      forall dev: Resolve.ResolvedDevice
        ensures dev in devs <==> dev in devs[..n] || dev == devs[n]
        ensures dev in before + [devs[n]] <==> dev in before || dev == devs[n]
      {
        assert devs == devs[..n] + [devs[n]];
      }
      if devs[n].enabled {
        assert EnabledDevices(devs) == before + [devs[n]];
      } else {
        assert EnabledDevices(devs) == before + [] == before;
      }
    }
  }

  lemma SeparateAppends(devs: seq<Resolve.ResolvedDevice>, dev: Resolve.ResolvedDevice)
    requires AllSeparate(devs) && forall d :: 0 <= d < |devs| ==> Separate(devs[d], dev)
    ensures AllSeparate(devs + [dev])
  {
  }

  lemma {:induction false} EnabledAreSeparate(devs: seq<Resolve.ResolvedDevice>)
    requires AllSeparate(devs)
    ensures AllSeparate(EnabledDevices(devs))
  {
    if devs != [] {
      var n := |devs| - 1;
      var before := EnabledDevices(devs[..n]);
      assert AllSeparate(devs[..n]);
      EnabledAreSeparate(devs[..n]);
      EnabledAreDevices(devs[..n]);
      forall k | 0 <= k < |before|
        ensures Separate(before[k], devs[n])
      {
        assert before[k] in devs[..n];
        var d :| 0 <= d < n && devs[..n][d] == before[k];
        assert Separate(devs[d], devs[n]);
      }
      SeparateAppends(before, devs[n]);
      assert before + [] == before;
    }
  }

  lemma EnabledAreReady(devs: seq<Resolve.ResolvedDevice>, first: TagId, end: TagId)
    requires forall d :: 0 <= d < |devs| && devs[d].enabled ==> DeviceReady(devs[d], first, end)
    requires AllSeparate(devs)
    ensures var on := EnabledDevices(devs);
            && (forall k :: 0 <= k < |on| ==> DeviceReady(on[k], first, end))
            && AllSeparate(on)
  {
    var on := EnabledDevices(devs);
    EnabledAreSeparate(devs);
    EnabledAreDevices(devs);
    forall k | 0 <= k < |on|
      ensures DeviceReady(on[k], first, end)
    {
      assert on[k] in devs;
    }
  }

  /** Resolution delivers the tag half of it. */
  lemma ResolvedIsSeparate(cfg: Resolve.ChannelConfig, fallback: RetryConfig, ch: Resolve.ResolvedChannel)
    requires Resolve.ChannelResolved(cfg, fallback, ch)
    requires forall d :: 0 <= d < |ch.devices| && ch.devices[d].enabled ==>
               AllPollable(ch.devices[d].registers)
               && ch.devices[d].offlineAfter <= U32_MAX && ch.devices[d].retry.Valid()
    ensures ChannelReady(ch)
  {
    forall d, e | 0 <= d < e < |ch.devices|
      ensures Separate(ch.devices[d], ch.devices[e])
    {
      forall i, j | 0 <= i < |ch.devices[d].registers| && 0 <= j < |ch.devices[e].registers|
        ensures ch.devices[d].registers[i].tag != ch.devices[e].registers[j].tag
      {
        Resolve.TagsAreDistinct(cfg, fallback, ch, d, i, e, j);
      }
    }
    forall d | 0 <= d < |ch.devices| && ch.devices[d].enabled
      ensures DeviceReady(ch.devices[d], ch.tagStart, ch.tagEnd)
    {
      forall i, j | 0 <= i < j < |ch.devices[d].registers|
        ensures ch.devices[d].registers[i].tag != ch.devices[d].registers[j].tag
      {
        Resolve.TagsAreDistinct(cfg, fallback, ch, d, i, d, j);
      }
      forall i | 0 <= i < |ch.devices[d].registers|
        ensures Resolve.InRange(ch, ch.devices[d].registers[i].tag)
      {
        Resolve.TagsStayInRange(cfg, fallback, ch, d, i);
      }
    }
  }

  // ----- Counting the slots that feed a tag -----

  lemma {:induction false} FedHolds(txns: seq<Transaction>, i: nat, t: TagId)
    requires i < |txns|
    ensures multiset(Fed(txns))[t] >= multiset(TagsOf(txns[i].fields))[t]
  {
    if i < |txns| - 1 {
      FedHolds(txns[..|txns| - 1], i, t);
    }
  }

  lemma {:induction false} FedHoldsTwo(txns: seq<Transaction>, i: nat, j: nat, t: TagId)
    requires i < j < |txns|
    ensures multiset(Fed(txns))[t] >= multiset(TagsOf(txns[i].fields))[t] + multiset(TagsOf(txns[j].fields))[t]
  {
    if j == |txns| - 1 {
      FedHolds(txns[..j], i, t);
    } else {
      FedHoldsTwo(txns[..|txns| - 1], i, j, t);
    }
  }

  lemma {:induction false} GroupsHold(byGroup: seq<seq<Transaction>>, g: nat, t: TagId)
    requires g < |byGroup|
    ensures multiset(FedByGroups(byGroup))[t] >= multiset(Fed(byGroup[g]))[t]
  {
    if g < |byGroup| - 1 {
      GroupsHold(byGroup[..|byGroup| - 1], g, t);
    }
  }

  lemma {:induction false} GroupsHoldTwo(byGroup: seq<seq<Transaction>>, g: nat, h: nat, t: TagId)
    requires g < h < |byGroup|
    ensures multiset(FedByGroups(byGroup))[t] >= multiset(Fed(byGroup[g]))[t] + multiset(Fed(byGroup[h]))[t]
  {
    if h == |byGroup| - 1 {
      GroupsHold(byGroup[..h], g, t);
    } else {
      GroupsHoldTwo(byGroup[..|byGroup| - 1], g, h, t);
    }
  }

  lemma {:induction false} DistinctMeansOnce(tags: seq<TagId>, t: TagId)
    requires Distinct(tags)
    ensures multiset(tags)[t] <= 1
  {
    if tags != [] {
      var n := |tags| - 1;
      DistinctMeansOnce(tags[..n], t);
      assert tags == tags[..n] + [tags[n]];
      assert tags[n] !in tags[..n];
    }
  }

  lemma FieldHolds(fields: seq<Field>, f: Field)
    requires f in fields
    ensures multiset(TagsOf(fields))[f.tag] >= 1
  {
    var i :| 0 <= i < |fields| && fields[i] == f;
    assert TagsOf(fields)[i] == f.tag;
  }

  lemma FieldsTwice(fields: seq<Field>, i: nat, j: nat)
    requires i < j < |fields| && fields[i].tag == fields[j].tag
    ensures multiset(TagsOf(fields))[fields[i].tag] >= 2
  {
    var tags, t := TagsOf(fields), fields[i].tag;
    assert tags == tags[..j] + tags[j..];
    assert tags[..j][i] == t && tags[j..][0] == t;
  }

  /** A tag of the device is fed at most once, and nothing else is fed. */
  lemma FedOnce(dev: Resolve.ResolvedDevice, groups: seq<nat>, first: TagId, end: TagId, t: TagId)
    requires DeviceReady(dev, first, end) && StrictlyAscending(groups)
    requires forall i :: 0 <= i < |dev.registers| ==> dev.registers[i].entry.group in groups
    ensures var count := multiset(FedByGroups(BuildDevice(dev, groups).byGroup))[t];
            count <= 1 && (count == 1 ==> t in BuildDevice(dev, groups).allTags)
  {
    EveryRegisterOnce(dev, groups);
    DistinctMeansOnce(TagsOfRegisters(dev.registers), t);
  }

  predicate SlotIn(byGroup: seq<seq<Transaction>>, g: nat, i: nat) {
    g < |byGroup| && i < |byGroup[g]|
  }

  /** No slot holds a tag twice, and no two slots share one. */
  ghost predicate SlotsDisjoint(byGroup: seq<seq<Transaction>>) {
    && (forall g: nat, i: nat :: SlotIn(byGroup, g, i) ==> DistinctTags(byGroup[g][i].fields))
    && (forall g: nat, i: nat, h: nat, j: nat :: SlotIn(byGroup, g, i) && SlotIn(byGroup, h, j) && (g, i) != (h, j) ==>
          Apart(byGroup[g][i], byGroup[h][j]))
  }

  /** Two slots of one device share no tag, and one slot holds no tag twice. */
  lemma DeviceSlots(dev: Resolve.ResolvedDevice, groups: seq<nat>, first: TagId, end: TagId)
    requires DeviceReady(dev, first, end) && StrictlyAscending(groups)
    requires forall i :: 0 <= i < |dev.registers| ==> dev.registers[i].entry.group in groups
    ensures PlannedOwnTags(BuildDevice(dev, groups)) && SlotsDisjoint(BuildDevice(dev, groups).byGroup)
  {
    hide OwnTags, DistinctTags, Apart;
    var byGroup: seq<seq<Transaction>> := BuildDevice(dev, groups).byGroup;
    forall g: nat, i: nat | SlotIn(byGroup, g, i)
      ensures OwnTags(BuildDevice(dev, groups), byGroup[g][i]) && DistinctTags(byGroup[g][i].fields)
      ensures byGroup[g][i].coalesced ==> byGroup[g][i].fields != []
    {
      SlotOnce(dev, groups, first, end, g, i);
      SlotHasWork(dev, groups, first, end, g, i);
    }
    forall g: nat, i: nat, h: nat, j: nat | SlotIn(byGroup, g, i) && SlotIn(byGroup, h, j) && (g, i) != (h, j)
      ensures Apart(byGroup[g][i], byGroup[h][j])
    {
      SlotsOnce(dev, groups, first, end, g, i, h, j);
    }
  }

  lemma SlotHasWork(dev: Resolve.ResolvedDevice, groups: seq<nat>, first: TagId, end: TagId, g: nat, i: nat)
    requires DeviceReady(dev, first, end)
    requires g < |groups| && i < |BuildDevice(dev, groups).byGroup[g]|
    ensures BuildDevice(dev, groups).byGroup[g][i].fields != []
  {
    GroupIsGood(dev, groups[g], BuildDevice(dev, groups).byGroup[g][i]);
  }

  lemma SlotOnce(dev: Resolve.ResolvedDevice, groups: seq<nat>, first: TagId, end: TagId, g: nat, i: nat)
    requires DeviceReady(dev, first, end) && StrictlyAscending(groups)
    requires forall i :: 0 <= i < |dev.registers| ==> dev.registers[i].entry.group in groups
    requires g < |groups| && i < |BuildDevice(dev, groups).byGroup[g]|
    ensures var txn := BuildDevice(dev, groups).byGroup[g][i];
            OwnTags(BuildDevice(dev, groups), txn) && DistinctTags(txn.fields)
  {
    var byGroup: seq<seq<Transaction>> := BuildDevice(dev, groups).byGroup;
    var fields := byGroup[g][i].fields;
    forall f | f in fields
      ensures f.tag in BuildDevice(dev, groups).allTags
    {
      FieldHolds(fields, f);
      FedHolds(byGroup[g], i, f.tag);
      GroupsHold(byGroup, g, f.tag);
      FedOnce(dev, groups, first, end, f.tag);
    }
    forall a, b | 0 <= a < b < |fields|
      ensures fields[a].tag != fields[b].tag
    {
      if fields[a].tag == fields[b].tag {
        FieldsTwice(fields, a, b);
        FedHolds(byGroup[g], i, fields[a].tag);
        GroupsHold(byGroup, g, fields[a].tag);
        FedOnce(dev, groups, first, end, fields[a].tag);
      }
    }
  }

  lemma SlotsOnce(dev: Resolve.ResolvedDevice, groups: seq<nat>, first: TagId, end: TagId, g: nat, i: nat, h: nat,
                  j: nat)
    requires DeviceReady(dev, first, end) && StrictlyAscending(groups)
    requires forall i :: 0 <= i < |dev.registers| ==> dev.registers[i].entry.group in groups
    requires g < |groups| && i < |BuildDevice(dev, groups).byGroup[g]|
    requires h < |groups| && j < |BuildDevice(dev, groups).byGroup[h]| && (g, i) != (h, j)
    ensures Apart(BuildDevice(dev, groups).byGroup[g][i], BuildDevice(dev, groups).byGroup[h][j])
  {
    var byGroup: seq<seq<Transaction>> := BuildDevice(dev, groups).byGroup;
    var a, b := byGroup[g][i], byGroup[h][j];
    forall f, k | f in a.fields && k in b.fields
      ensures f.tag != k.tag
    {
      if f.tag == k.tag {
        FieldHolds(a.fields, f);
        FieldHolds(b.fields, k);
        FedOnce(dev, groups, first, end, f.tag);
        if g == h {
          if i < j {
            FedHoldsTwo(byGroup[g], i, j, f.tag);
          } else {
            FedHoldsTwo(byGroup[g], j, i, f.tag);
          }
          GroupsHold(byGroup, g, f.tag);
        } else {
          FedHolds(byGroup[g], i, f.tag);
          FedHolds(byGroup[h], j, f.tag);
          if g < h {
            GroupsHoldTwo(byGroup, g, h, f.tag);
          } else {
            GroupsHoldTwo(byGroup, h, g, f.tag);
          }
        }
      }
    }
  }

  // ----- Every read is legal -----

  lemma {:induction false} BucketIsValid(rs: seq<Register>, group: nat, area: Area)
    requires AllPollable(rs)
    ensures ValidIntervals(Bucket(rs, group, area), area.MaxQty())
  {
    if rs != [] {
      BucketIsValid(rs[..|rs| - 1], group, area);
      var r := rs[|rs| - 1];
      if ReadsArea(r, group, area) {
        assert Pollable(r);
        ValidatedEntryFits(r, area);
      }
    }
  }

  /** A read that stays inside the protocol's limits, with small holes, and exact
      when it was not merged. */
  ghost predicate GoodRead(txn: Transaction, gap: nat) {
    txn.req.Read? && LegalRead(txn.req.area, txn) && SmallHoles(txn, gap) && ExactIfSingle(txn)
  }

  lemma AreaReadsAreGood(dev: Resolve.ResolvedDevice, group: nat, area: Area)
    requires AllPollable(dev.registers)
    ensures forall t :: t in AreaTxns(dev, group, area) ==> GoodRead(t, dev.maxGap)
    ensures forall i, j :: 0 <= i < j < |AreaTxns(dev, group, area)| ==>
              AreaTxns(dev, group, area)[i].base < AreaTxns(dev, group, area)[j].base
  {
    BucketIsValid(dev.registers, group, area);
    MergedReadsAreLegal(area, Bucket(dev.registers, group, area), dev.maxGap);
    MergedReadsAreExact(area, Bucket(dev.registers, group, area), dev.maxGap);
  }

  lemma {:induction false} CustomsAreAlone(rs: seq<Register>, group: nat)
    ensures forall t :: t in CustomTxns(rs, group) ==> t.req.Custom? && !t.coalesced && |t.fields| == 1
  {
    if rs != [] {
      CustomsAreAlone(rs[..|rs| - 1], group);
    }
  }

  /** For a validated device: every transaction is a good read or a vendor request
      of one field. */
  lemma GroupIsGood(dev: Resolve.ResolvedDevice, group: nat, txn: Transaction)
    requires AllPollable(dev.registers) && txn in GroupTxns(dev, group)
    ensures GoodRead(txn, dev.maxGap) || (txn.req.Custom? && !txn.coalesced && |txn.fields| == 1)
  {
    AreaReadsAreGood(dev, group, Coils);
    AreaReadsAreGood(dev, group, DiscreteInputs);
    AreaReadsAreGood(dev, group, Holding);
    AreaReadsAreGood(dev, group, Input);
    CustomsAreAlone(dev.registers, group);
  }

  /** And so is every singleton that a split sends later. */
  lemma SplitsStayGood(txn: Transaction, gap: nat, i: nat)
    requires GoodRead(txn, gap) && i < |txn.fields|
    ensures GoodRead(SplitTxn(txn)[i], gap)
  {
    SplitReadsAreLegal(txn.req.area, txn, i);
    var sub := SplitTxn(txn)[i];
    assert sub.fields[0] in sub.fields;
    assert txn.fields[i] in txn.fields;
    forall at: nat | at + gap < sub.req.qty
      ensures Serves(sub, at, gap)
    {
      assert sub.fields[0] in sub.fields;
    }
  }

  // ----- The whole plan -----

  lemma {:induction false} EnabledGroups(devs: seq<Resolve.ResolvedDevice>, k: nat, i: nat)
    requires k < |EnabledDevices(devs)| && i < |EnabledDevices(devs)[k].registers|
    ensures EnabledDevices(devs)[k].registers[i].entry.group in GroupsOf(devs)
  {
    var n := |devs| - 1;
    if k < |EnabledDevices(devs[..n])| {
      EnabledGroups(devs[..n], k, i);
    } else {
      assert RegisterGroups(devs[n].registers)[i] == devs[n].registers[i].entry.group;
    }
  }

  /** A validated and resolved channel compiles to a plan on which the channel task
      and the convergence of splits can rely: own tags only, in the channel's own
      range, no tag in two slots, and every read within the limits. */
  lemma PlanIsSound(ch: Resolve.ResolvedChannel, pollGroups: seq<PollGroup>, plan: ChannelPlan, tagCount: nat)
    requires ChannelReady(ch) && Compiled(ch, pollGroups, plan) && ch.tagEnd <= tagCount
    ensures PlanOk(plan.devices, tagCount) && SlotsApart(plan.devices)
    ensures forall d, t :: 0 <= d < |plan.devices| && t in plan.devices[d].allTags ==> ch.tagStart <= t < ch.tagEnd
    ensures forall d: nat, g: nat, i: nat ::
              IsSlot(plan.devices, d, g, i) && plan.devices[d].byGroup[g][i].req.Read? ==>
              && WellCut(plan.devices[d].byGroup[g][i], tagCount)
              && GoodRead(plan.devices[d].byGroup[g][i], EnabledDevices(ch.devices)[d].maxGap)
  {
    var on := EnabledDevices(ch.devices);
    EnabledAreReady(ch.devices, ch.tagStart, ch.tagEnd);
    forall d | 0 <= d < |plan.devices|
      ensures DeviceFacts(on[d], plan.groups, ch.tagStart, ch.tagEnd)
      ensures TagsInRange(plan.devices[d], tagCount)
    {
      forall i | 0 <= i < |on[d].registers|
        ensures on[d].registers[i].entry.group in plan.groups
      {
        EnabledGroups(ch.devices, d, i);
      }
      DeviceIsSound(on[d], plan.groups, ch.tagStart, ch.tagEnd);
    }
    DevicesAreApart(plan.devices, on, plan.groups, ch.tagStart, ch.tagEnd);
    forall d: nat, g: nat, i: nat | IsSlot(plan.devices, d, g, i) && plan.devices[d].byGroup[g][i].req.Read?
      ensures WellCut(plan.devices[d].byGroup[g][i], tagCount) && GoodRead(plan.devices[d].byGroup[g][i], on[d].maxGap)
    {
      assert DeviceFacts(on[d], plan.groups, ch.tagStart, ch.tagEnd);
      assert SlotIn(plan.devices[d].byGroup, g, i);
      assert OwnTags(plan.devices[d], plan.devices[d].byGroup[g][i]);
    }
  }

  /** What one compiled device contributes. */
  ghost predicate DeviceFacts(dev: Resolve.ResolvedDevice, groups: seq<nat>, first: TagId, end: TagId) {
    var plan := BuildDevice(dev, groups);
    && dev.offlineAfter <= U32_MAX && dev.retry.Valid()
    && PlannedOwnTags(plan)
    && (forall t :: t in plan.allTags ==> first <= t < end)
    && SlotsDisjoint(plan.byGroup)
    && (forall g: nat, i: nat :: SlotIn(plan.byGroup, g, i) && plan.byGroup[g][i].req.Read? ==>
          GoodRead(plan.byGroup[g][i], dev.maxGap))
  }

  lemma DeviceIsSound(dev: Resolve.ResolvedDevice, groups: seq<nat>, first: TagId, end: TagId)
    requires DeviceReady(dev, first, end) && StrictlyAscending(groups)
    requires forall i :: 0 <= i < |dev.registers| ==> dev.registers[i].entry.group in groups
    ensures DeviceFacts(dev, groups, first, end)
  {
    var plan := BuildDevice(dev, groups);
    DeviceSlots(dev, groups, first, end);
    forall g: nat, i: nat | SlotIn(plan.byGroup, g, i) && plan.byGroup[g][i].req.Read?
      ensures GoodRead(plan.byGroup[g][i], dev.maxGap)
    {
      GroupIsGood(dev, groups[g], plan.byGroup[g][i]);
    }
  }

  lemma DevicesAreApart(devices: seq<DevicePlan>, on: seq<Resolve.ResolvedDevice>, groups: seq<nat>, first: TagId,
                        end: TagId)
    requires |devices| == |on| && forall d :: 0 <= d < |on| ==> devices[d] == BuildDevice(on[d], groups)
    requires forall d :: 0 <= d < |on| ==> DeviceFacts(on[d], groups, first, end)
    requires AllSeparate(on)
    ensures forall d, e :: 0 <= d < |devices| && 0 <= e < |devices| && d != e ==> Disjoint(devices[d], devices[e])
    ensures SlotsApart(devices)
  {
    forall d, e | 0 <= d < |devices| && 0 <= e < |devices| && d != e
      ensures Disjoint(devices[d], devices[e])
    {
      assert if d < e then Separate(on[d], on[e]) else Separate(on[e], on[d]);
    }
    forall d: nat, g: nat, i: nat, e: nat, h: nat, j: nat
      | IsSlot(devices, d, g, i) && IsSlot(devices, e, h, j) && (d, g, i) != (e, h, j)
      ensures Apart(devices[d].byGroup[g][i], devices[e].byGroup[h][j])
    {
      assert DeviceFacts(on[d], groups, first, end) && DeviceFacts(on[e], groups, first, end);
      assert SlotIn(devices[d].byGroup, g, i) && SlotIn(devices[e].byGroup, h, j);
      if d != e {
        assert OwnTags(devices[d], devices[d].byGroup[g][i]) && OwnTags(devices[e], devices[e].byGroup[h][j]);
        assert Disjoint(devices[d], devices[e]);
      }
    }
  }

  /** So every planned register read meets the conditions under which two passes
      settle it, in every state that keeps its splits exact. */
  lemma CompiledSlotIsWatched(ch: Resolve.ResolvedChannel, pollGroups: seq<PollGroup>, plan: ChannelPlan, p: Poller,
                              d: nat, g: nat, i: nat)
    requires ChannelReady(ch) && Compiled(ch, pollGroups, plan) && ch.tagEnd <= |p.slots|
    requires SplitsOk(plan.devices, p.overrides)
    requires IsSlot(plan.devices, d, g, i) && plan.devices[d].byGroup[g][i].req.Read?
    ensures Watched(plan.devices, p, d, g, i)
  {
    PlanIsSound(ch, pollGroups, plan, |p.slots|);
  }
}
