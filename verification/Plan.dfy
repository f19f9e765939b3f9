/** The compile step: `mb-poller/src/plan.rs`, with the entry rules of
    `config/src/validate.rs` that it relies on. Registers are bucketed by group and
    area and coalesced; vendor entries stay alone. */
module Plan {
  import opened MbTypes
  import opened MbProto
  import opened Coalesce
  import opened CoalesceLaws
  import opened Reading
  import opened Wire
  import opened ChannelLaws
  import opened Convergence
  import opened Decode
  import Resolve

  type Register = Resolve.Register

  // ----- One entry -----

  function Width(e: Resolve.Entry, area: Area): nat {
    if area.IsBitDomain() then 1
    else if e.dataType.RegisterCount().Some? then e.dataType.RegisterCount().value
    else if e.length.Some? then e.length.value
    else 1
  }

  /** `to_interval`. */
  function ToInterval(r: Register, area: Area): Interval {
    Span(r.entry.address, r.entry.address + Width(r.entry, area), Field(r.tag, 0, Width(r.entry, area)))
  }

  /** `custom_txn`. */
  function CustomTxn(r: Register, code: Byte): Transaction {
    Transaction(Custom(code, r.entry.request, r.entry.responseLen), r.entry.address,
                [Field(r.tag, 0, if r.entry.responseLen.Some? then r.entry.responseLen.value else 0)], false)
  }

  // ----- Validation of read entries -----

  const MAX_LENGTH_REGISTERS: nat := 125

  datatype Problem =
    | IncompatibleDataType
    | MissingBitIndex
    | BadBitNumber
    | MissingLength
    | ZeroLength
    | QtyExceedsCap(qty: nat, max: nat)
    | AddressOverflow

  predicate ReadEntryOk(e: Resolve.Entry, area: Area) {
    if area.IsBitDomain() then e.dataType.Bit?
    else
      && (e.dataType.Bit? ==> e.bit.Some?)
      && (e.bit.Some? ==> e.bit.value < 16)
      && (e.dataType.RegisterCount().Some? || e.length.Some?)
      && 1 <= Width(e, area) <= Min(area.MaxQty(), MAX_LENGTH_REGISTERS)
      && e.address + Width(e, area) <= ADDRESS_SPACE
  }

  /** `validate_read_entry`: no problem is reported exactly for the entries that
      may be polled. */
  method ValidateReadEntry(e: Resolve.Entry, area: Area) returns (errs: seq<Problem>)
    ensures errs == [] <==> ReadEntryOk(e, area)
    ensures area.IsBitDomain() ==> errs == if e.dataType.Bit? then [] else [IncompatibleDataType]
    ensures !area.IsBitDomain() ==>
              && (MissingBitIndex in errs <==> e.dataType.Bit? && e.bit.None?)
              && (BadBitNumber in errs <==> e.bit.Some? && e.bit.value > 15)
              && (MissingLength in errs <==> (e.dataType.Bcd? || e.dataType.Ascii?) && e.length.None?)
              && (ZeroLength in errs <==> (e.dataType.Bcd? || e.dataType.Ascii?) && e.length == Some(0))
              && (AddressOverflow in errs <==> Width(e, area) > 0 && e.address + Width(e, area) > 0x1_0000)
              && (forall qty, max :: QtyExceedsCap(qty, max) in errs <==> qty == Width(e, area) > 125 == max)
  {
    errs := [];
    if area.IsBitDomain() {
      if !e.dataType.Bit? {
        errs := errs + [IncompatibleDataType];
      }
      return;
    }
    if e.dataType.Bit? && e.bit.None? {
      errs := errs + [MissingBitIndex];
    }
    if e.bit.Some? && e.bit.value >= 16 {
      errs := errs + [BadBitNumber];
    }
    var span: nat;
    match e.dataType.RegisterCount() {
      case Some(n) => span := n;
      case None =>
        match e.length {
          case Some(l) => span := l;
          case None =>
            errs := errs + [MissingLength];
            return;
        }
    }
    if span == 0 {
      errs := errs + [ZeroLength];
      return;
    }
    var cap := Min(area.MaxQty(), MAX_LENGTH_REGISTERS);
    if span > cap {
      errs := errs + [QtyExceedsCap(span, cap)];
    }
    if e.address + span > ADDRESS_SPACE {
      errs := errs + [AddressOverflow];
    }
  }

  lemma ValidatedEntryFits(r: Register, area: Area)
    requires ReadEntryOk(r.entry, area)
    ensures ValidInterval(ToInterval(r, area), area.MaxQty())
  {
  }

  /** Every register is polled: read from an area by a valid entry, or by a vendor
      function. */
  predicate Pollable(r: Register) {
    match r.entry.source
    case ReadFrom(area) => ReadEntryOk(r.entry, area)
    case Vendor(_) => true
    case WriteOnly => false
  }

  predicate AllPollable(rs: seq<Register>) {
    forall i :: 0 <= i < |rs| ==> Pollable(rs[i])
  }

  // ----- build_device -----

  function ReadsArea(r: Register, group: nat, area: Area): bool {
    r.entry.group == group && r.entry.source == Resolve.ReadFrom(area)
  }

  function IsVendor(r: Register, group: nat): bool {
    r.entry.group == group && r.entry.source.Vendor?
  }

  /** The bucket of one (device, group, area). */
  function Bucket(rs: seq<Register>, group: nat, area: Area): seq<Interval> {
    if rs == [] then []
    else
      var init, r := rs[..|rs| - 1], rs[|rs| - 1];
      if ReadsArea(r, group, area) then Bucket(init, group, area) + [ToInterval(r, area)] else Bucket(init, group, area)
  }

  function CustomTxns(rs: seq<Register>, group: nat): seq<Transaction> {
    if rs == [] then []
    else
      var init, r := rs[..|rs| - 1], rs[|rs| - 1];
      if IsVendor(r, group) then CustomTxns(init, group) + [CustomTxn(r, r.entry.source.code)]
      else CustomTxns(init, group)
  }

  function AreaTxns(dev: Resolve.ResolvedDevice, group: nat, area: Area): seq<Transaction> {
    Coalesced(area, Bucket(dev.registers, group, area), dev.maxGap)
  }

  function GroupTxns(dev: Resolve.ResolvedDevice, group: nat): seq<Transaction> {
    AreaTxns(dev, group, Coils) + AreaTxns(dev, group, DiscreteInputs) + AreaTxns(dev, group, Holding)
    + AreaTxns(dev, group, Input) + CustomTxns(dev.registers, group)
  }

  function TagsOfRegisters(rs: seq<Register>): (tags: seq<TagId>)
    ensures |tags| == |rs| && forall i :: 0 <= i < |rs| ==> tags[i] == rs[i].tag
  {
    seq(|rs|, i requires 0 <= i < |rs| => rs[i].tag)
  }

  function BuildDevice(dev: Resolve.ResolvedDevice, groups: seq<nat>): (plan: DevicePlan)
    ensures |plan.byGroup| == |groups|
    ensures forall g :: 0 <= g < |groups| ==> plan.byGroup[g] == GroupTxns(dev, groups[g])
  {
    DevicePlan(dev.id, dev.unit, dev.offlineAfter, dev.requestTimeoutMs, dev.retry, TagsOfRegisters(dev.registers),
               seq(|groups|, g requires 0 <= g < |groups| => GroupTxns(dev, groups[g])))
  }

  /** The loop over the areas, and the one over the vendor entries. */
  method CompileGroup(dev: Resolve.ResolvedDevice, group: nat) returns (txns: seq<Transaction>)
    ensures txns == GroupTxns(dev, group)
  {
    var areas := [Coils, DiscreteInputs, Holding, Input];
    txns := [];
    for a := 0 to 4
      invariant a == 0 ==> txns == []
      invariant a == 1 ==> txns == AreaTxns(dev, group, Coils)
      invariant a == 2 ==> txns == AreaTxns(dev, group, Coils) + AreaTxns(dev, group, DiscreteInputs)
      invariant a == 3 ==> txns == AreaTxns(dev, group, Coils) + AreaTxns(dev, group, DiscreteInputs)
                                   + AreaTxns(dev, group, Holding)
      invariant a == 4 ==> txns == AreaTxns(dev, group, Coils) + AreaTxns(dev, group, DiscreteInputs)
                                   + AreaTxns(dev, group, Holding) + AreaTxns(dev, group, Input)
    {
      var ivals := Bucket(dev.registers, group, areas[a]);
      if ivals != [] {
        var merged := CoalesceIntervals(areas[a], ivals, dev.maxGap);
        txns := txns + merged;
      }
      assert AreaTxns(dev, group, areas[a]) == [] || ivals != [];
    }
    ghost var before := txns;
    for i := 0 to |dev.registers|
      invariant txns == before + CustomTxns(dev.registers[..i], group)
    {
      assert dev.registers[..i + 1][..i] == dev.registers[..i];
      if IsVendor(dev.registers[i], group) {
        txns := txns + [CustomTxn(dev.registers[i], dev.registers[i].entry.source.code)];
      }
    }
    assert dev.registers[..|dev.registers|] == dev.registers;
  }

  method CompileDevice(dev: Resolve.ResolvedDevice, groups: seq<nat>) returns (plan: DevicePlan)
    ensures plan == BuildDevice(dev, groups)
  {
    var byGroup: seq<seq<Transaction>> := [];
    for g := 0 to |groups|
      invariant |byGroup| == g && forall k :: 0 <= k < g ==> byGroup[k] == GroupTxns(dev, groups[k])
    {
      var txns := CompileGroup(dev, groups[g]);
      byGroup := byGroup + [txns];
    }
    plan := DevicePlan(dev.id, dev.unit, dev.offlineAfter, dev.requestTimeoutMs, dev.retry,
                       TagsOfRegisters(dev.registers),
                       byGroup);
    assert byGroup == BuildDevice(dev, groups).byGroup;
  }

  // ----- Every register in exactly one transaction -----

  /** The tags that transactions feed, with repetitions. */
  function Fed(txns: seq<Transaction>): seq<TagId> {
    if txns == [] then [] else Fed(txns[..|txns| - 1]) + TagsOf(txns[|txns| - 1].fields)
  }

  lemma {:induction false} FedConcat(a: seq<Transaction>, b: seq<Transaction>)
    ensures Fed(a + b) == Fed(a) + Fed(b)
  {
    if b == [] {
      assert a + b == a;
    } else {
      var n := |b| - 1;
      FedConcat(a, b[..n]);
      assert (a + b)[..|a + b| - 1] == a + b[..n] && (a + b)[|a + b| - 1] == b[n];
      Associate(Fed(a), Fed(b[..n]), TagsOf(b[n].fields));
    }
  }

  function IntervalTags(ivals: seq<Interval>): (tags: seq<TagId>)
    ensures |tags| == |ivals| && forall i :: 0 <= i < |ivals| ==> tags[i] == ivals[i].field.tag
  {
    seq(|ivals|, i requires 0 <= i < |ivals| => ivals[i].field.tag)
  }

  lemma {:induction false} InsertKeepsTags(iv: Interval, sorted: seq<Interval>)
    ensures multiset(IntervalTags(InsertByStart(iv, sorted))) == multiset{iv.field.tag} + multiset(IntervalTags(sorted))
  {
    if sorted == [] || iv.start <= sorted[0].start {
      assert IntervalTags([iv] + sorted) == [iv.field.tag] + IntervalTags(sorted);
    } else {
      InsertKeepsTags(iv, sorted[1..]);
      assert IntervalTags(InsertByStart(iv, sorted)) ==
             [sorted[0].field.tag] + IntervalTags(InsertByStart(iv, sorted[1..]));
      assert IntervalTags(sorted) == [sorted[0].field.tag] + IntervalTags(sorted[1..]);
    }
  }

  lemma {:induction false} SortKeepsTags(ivals: seq<Interval>)
    ensures multiset(IntervalTags(SortByStart(ivals))) == multiset(IntervalTags(ivals))
  {
    if ivals != [] {
      SortKeepsTags(ivals[1..]);
      InsertKeepsTags(ivals[0], SortByStart(ivals[1..]));
      assert IntervalTags(ivals) == [ivals[0].field.tag] + IntervalTags(ivals[1..]);
    }
  }

  function RunTags(runs: seq<Run>): seq<TagId> {
    if runs == [] then [] else TagsOf(runs[0].fields) + RunTags(runs[1..])
  }

  lemma RunTagsCons(run: Run, runs: seq<Run>)
    ensures RunTags([run] + runs) == TagsOf(run.fields) + RunTags(runs)
  {
    assert ([run] + runs)[1..] == runs;
  }

  lemma {:induction false} GrowKeepsTags(run: Run, rest: seq<Interval>, gap: nat, cap: nat)
    ensures RunTags(Grow(run, rest, gap, cap)) == TagsOf(run.fields) + IntervalTags(rest)
    decreases |rest|
  {
    if rest == [] {
      RunTagsCons(run, []);
      assert [run] + [] == [run];
    } else {
      var iv, tail := rest[0], rest[1..];
      IntervalTagsCons(rest);
      if Joins(run.start, run.end, iv.start, iv.end, gap, cap) {
        GrowKeepsTags(Extend(run, iv), tail, gap, cap);
        ExtendTags(run, iv);
        Associate(TagsOf(run.fields), [iv.field.tag], IntervalTags(tail));
      } else {
        GrowKeepsTags(Fresh(iv), tail, gap, cap);
        RunTagsCons(run, Grow(Fresh(iv), tail, gap, cap));
        ExtendTags(run, iv);
      }
    }
  }

  lemma ExtendTags(run: Run, iv: Interval)
    ensures TagsOf(Extend(run, iv).fields) == TagsOf(run.fields) + [iv.field.tag]
    ensures TagsOf(Fresh(iv).fields) == [iv.field.tag]
  {
  }

  lemma IntervalTagsCons(ivals: seq<Interval>)
    requires ivals != []
    ensures IntervalTags(ivals) == [ivals[0].field.tag] + IntervalTags(ivals[1..])
  {
  }

  lemma {:induction false} EmitKeepsTags(area: Area, runs: seq<Run>)
    ensures Fed(EmitAll(area, runs)) == RunTags(runs)
  {
    if runs != [] {
      EmitKeepsTags(area, runs[1..]);
      assert EmitAll(area, runs) == [Emit(area, runs[0])] + EmitAll(area, runs[1..]);
      FedConcat([Emit(area, runs[0])], EmitAll(area, runs[1..]));
      FedOne(Emit(area, runs[0]));
    }
  }

  lemma FedOne(txn: Transaction)
    ensures Fed([txn]) == TagsOf(txn.fields)
  {
    assert [txn][..0] == [];
    assert Fed([]) + TagsOf(txn.fields) == TagsOf(txn.fields);
  }

  /** Coalescing feeds every tag of its bucket exactly once. */
  lemma {:induction false} CoalescedFeeds(area: Area, ivals: seq<Interval>, gap: nat)
    ensures multiset(Fed(Coalesced(area, ivals, gap))) == multiset(IntervalTags(ivals))
  {
    var sorted := SortByStart(ivals);
    SortKeepsTags(ivals);
    EmitKeepsTags(area, Runs(sorted, gap, area.MaxQty()));
    if sorted != [] {
      GrowKeepsTags(Fresh(sorted[0]), sorted[1..], gap, area.MaxQty());
      assert TagsOf(Fresh(sorted[0]).fields) + IntervalTags(sorted[1..]) == IntervalTags(sorted);
    } else {
      assert IntervalTags(sorted) == [];
    }
  }

  /** The tags of the registers in one group. */
  function GroupTags(rs: seq<Register>, group: nat): seq<TagId> {
    if rs == [] then []
    else GroupTags(rs[..|rs| - 1], group) + if rs[|rs| - 1].entry.group == group then [rs[|rs| - 1].tag] else []
  }

  function BucketTags(rs: seq<Register>, group: nat, area: Area): multiset<TagId> {
    multiset(IntervalTags(Bucket(rs, group, area)))
  }

  function Share(r: Register, group: nat, area: Area): multiset<TagId> {
    if ReadsArea(r, group, area) then multiset{r.tag} else multiset{}
  }

  function VendorShare(r: Register, group: nat): multiset<TagId> {
    if IsVendor(r, group) then multiset{r.tag} else multiset{}
  }

  function GroupShare(r: Register, group: nat): multiset<TagId> {
    if r.entry.group == group then multiset{r.tag} else multiset{}
  }

  lemma BucketTagsGrow(rs: seq<Register>, group: nat, area: Area)
    requires rs != []
    ensures BucketTags(rs, group, area)
         == BucketTags(rs[..|rs| - 1], group, area) + Share(rs[|rs| - 1], group, area)
  {
    var r, init := rs[|rs| - 1], rs[..|rs| - 1];
    if ReadsArea(r, group, area) {
      assert IntervalTags(Bucket(rs, group, area)) == IntervalTags(Bucket(init, group, area)) + [r.tag];
    }
  }

  lemma CustomTagsGrow(rs: seq<Register>, group: nat)
    requires rs != []
    ensures multiset(Fed(CustomTxns(rs, group)))
         == multiset(Fed(CustomTxns(rs[..|rs| - 1], group))) + VendorShare(rs[|rs| - 1], group)
  {
    var r, init := rs[|rs| - 1], rs[..|rs| - 1];
    if IsVendor(r, group) {
      var txn := CustomTxn(r, r.entry.source.code);
      FedConcat(CustomTxns(init, group), [txn]);
      FedOne(txn);
      assert TagsOf(txn.fields) == [r.tag];
    }
  }

  lemma SharesAddUp(r: Register, group: nat)
    requires Pollable(r)
    ensures Share(r, group, Coils) + Share(r, group, DiscreteInputs) + Share(r, group, Holding) + Share(r, group, Input)
            + VendorShare(r, group) == GroupShare(r, group)
  {
  }

  function Sum5(a: multiset<TagId>, b: multiset<TagId>, c: multiset<TagId>, d: multiset<TagId>, e: multiset<TagId>):
    multiset<TagId> {
    a + b + c + d + e
  }

  lemma SumsAdd(a: multiset<TagId>, b: multiset<TagId>, c: multiset<TagId>, d: multiset<TagId>, e: multiset<TagId>,
                a': multiset<TagId>, b': multiset<TagId>, c': multiset<TagId>, d': multiset<TagId>, e': multiset<TagId>)
    ensures Sum5(a + a', b + b', c + c', d + d', e + e') == Sum5(a, b, c, d, e) + Sum5(a', b', c', d', e')
  {
  }

  function Buckets(rs: seq<Register>, group: nat): multiset<TagId> {
    Sum5(BucketTags(rs, group, Coils), BucketTags(rs, group, DiscreteInputs), BucketTags(rs, group, Holding),
         BucketTags(rs, group, Input), multiset(Fed(CustomTxns(rs, group))))
  }

  lemma BucketsGrow(rs: seq<Register>, group: nat)
    requires rs != [] && Pollable(rs[|rs| - 1])
    ensures Buckets(rs, group) == Buckets(rs[..|rs| - 1], group) + GroupShare(rs[|rs| - 1], group)
  {
    var r, init := rs[|rs| - 1], rs[..|rs| - 1];
    BucketTagsGrow(rs, group, Coils);
    BucketTagsGrow(rs, group, DiscreteInputs);
    BucketTagsGrow(rs, group, Holding);
    BucketTagsGrow(rs, group, Input);
    CustomTagsGrow(rs, group);
    SharesAddUp(r, group);
    SumsAdd(BucketTags(init, group, Coils), BucketTags(init, group, DiscreteInputs), BucketTags(init, group, Holding),
            BucketTags(init, group, Input), multiset(Fed(CustomTxns(init, group))),
            Share(r, group, Coils), Share(r, group, DiscreteInputs), Share(r, group, Holding), Share(r, group, Input),
            VendorShare(r, group));
  }

  /** Each register of a group is in one bucket, or alone. */
  lemma {:induction false} BucketsPartition(rs: seq<Register>, group: nat)
    requires AllPollable(rs)
    ensures Buckets(rs, group) == multiset(GroupTags(rs, group))
  {
    if rs != [] {
      BucketsPartition(rs[..|rs| - 1], group);
      BucketsGrow(rs, group);
    }
  }

  /** A group's transactions feed each of its registers exactly once. */
  lemma GroupFeeds(dev: Resolve.ResolvedDevice, group: nat)
    requires AllPollable(dev.registers)
    ensures multiset(Fed(GroupTxns(dev, group))) == multiset(GroupTags(dev.registers, group))
  {
    var rs := dev.registers;
    var c, d, h, i, v :=
        AreaTxns(dev, group, Coils), AreaTxns(dev, group, DiscreteInputs), AreaTxns(dev, group, Holding),
                         AreaTxns(dev, group, Input), CustomTxns(rs, group);
    FedConcat(c, d);
    FedConcat(c + d, h);
    FedConcat(c + d + h, i);
    FedConcat(c + d + h + i, v);
    CoalescedFeeds(Coils, Bucket(rs, group, Coils), dev.maxGap);
    CoalescedFeeds(DiscreteInputs, Bucket(rs, group, DiscreteInputs), dev.maxGap);
    CoalescedFeeds(Holding, Bucket(rs, group, Holding), dev.maxGap);
    CoalescedFeeds(Input, Bucket(rs, group, Input), dev.maxGap);
    BucketsPartition(rs, group);
  }

  function FedByGroups(byGroup: seq<seq<Transaction>>): seq<TagId> {
    if byGroup == [] then [] else FedByGroups(byGroup[..|byGroup| - 1]) + Fed(byGroup[|byGroup| - 1])
  }

  lemma FedByOneMore(byGroup: seq<seq<Transaction>>, n: nat)
    requires n < |byGroup|
    ensures FedByGroups(byGroup[..n + 1]) == FedByGroups(byGroup[..n]) + Fed(byGroup[n])
  {
    assert byGroup[..n + 1][..n] == byGroup[..n];
  }

  /** The tags of the registers whose group is listed. */
  function ListedTags(rs: seq<Register>, groups: seq<nat>): seq<TagId> {
    if rs == [] then []
    else ListedTags(rs[..|rs| - 1], groups) + if rs[|rs| - 1].entry.group in groups then [rs[|rs| - 1].tag] else []
  }

  lemma {:induction false} OneMoreGroup(rs: seq<Register>, groups: seq<nat>, g: nat)
    requires g !in groups
    ensures multiset(ListedTags(rs, groups + [g])) == multiset(ListedTags(rs, groups)) + multiset(GroupTags(rs, g))
  {
    if rs != [] {
      var init, r := rs[..|rs| - 1], rs[|rs| - 1];
      OneMoreGroup(init, groups, g);
      if r.entry.group == g {
        assert ListedTags(rs, groups + [g]) == ListedTags(init, groups + [g]) + [r.tag];
        assert GroupTags(rs, g) == GroupTags(init, g) + [r.tag];
      } else if r.entry.group in groups {
        assert ListedTags(rs, groups + [g]) == ListedTags(init, groups + [g]) + [r.tag];
        assert ListedTags(rs, groups) == ListedTags(init, groups) + [r.tag];
      } else {
        assert ListedTags(rs, groups + [g]) == ListedTags(init, groups + [g]);
      }
    }
  }

  lemma {:induction false} AllListed(rs: seq<Register>, groups: seq<nat>)
    requires forall i :: 0 <= i < |rs| ==> rs[i].entry.group in groups
    ensures ListedTags(rs, groups) == TagsOfRegisters(rs)
  {
    if rs != [] {
      AllListed(rs[..|rs| - 1], groups);
      assert TagsOfRegisters(rs) == TagsOfRegisters(rs[..|rs| - 1]) + [rs[|rs| - 1].tag];
    }
  }

  lemma {:induction false} NoneListed(rs: seq<Register>)
    ensures ListedTags(rs, []) == []
  {
    if rs != [] {
      NoneListed(rs[..|rs| - 1]);
    }
  }

  lemma ListedOneMore(rs: seq<Register>, groups: seq<nat>, n: nat)
    requires StrictlyAscending(groups) && n < |groups|
    ensures multiset(ListedTags(rs, groups[..n + 1]))
         == multiset(ListedTags(rs, groups[..n])) + multiset(GroupTags(rs, groups[n]))
  {
    assert groups[..n + 1] == groups[..n] + [groups[n]];
    OneMoreGroup(rs, groups[..n], groups[n]);
  }

  /** Each group's transactions feed that group's registers. */
  ghost predicate FeedsGroups(byGroup: seq<seq<Transaction>>, rs: seq<Register>, groups: seq<nat>) {
    && |byGroup| == |groups|
    && forall g :: 0 <= g < |groups| ==> multiset(Fed(byGroup[g])) == multiset(GroupTags(rs, groups[g]))
  }

  lemma {:induction false} GroupsFeed(byGroup: seq<seq<Transaction>>, rs: seq<Register>, groups: seq<nat>, n: nat)
    requires FeedsGroups(byGroup, rs, groups) && StrictlyAscending(groups) && n <= |groups|
    ensures multiset(FedByGroups(byGroup[..n])) == multiset(ListedTags(rs, groups[..n]))
  {
    if n == 0 {
      NoneListed(rs);
    } else {
      GroupsFeed(byGroup, rs, groups, n - 1);
      FedByOneMore(byGroup, n - 1);
      ListedOneMore(rs, groups, n - 1);
    }
  }

  lemma AllGroupsFeed(byGroup: seq<seq<Transaction>>, rs: seq<Register>, groups: seq<nat>)
    requires FeedsGroups(byGroup, rs, groups) && StrictlyAscending(groups)
    requires forall i :: 0 <= i < |rs| ==> rs[i].entry.group in groups
    ensures multiset(FedByGroups(byGroup)) == multiset(TagsOfRegisters(rs))
  {
    GroupsFeed(byGroup, rs, groups, |groups|);
    AllListed(rs, groups);
    assert byGroup[..|groups|] == byGroup && groups[..|groups|] == groups;
  }

  lemma DeviceFeedsGroups(dev: Resolve.ResolvedDevice, groups: seq<nat>, byGroup: seq<seq<Transaction>>)
    requires AllPollable(dev.registers) && |byGroup| == |groups|
    requires forall g :: 0 <= g < |groups| ==> byGroup[g] == GroupTxns(dev, groups[g])
    ensures FeedsGroups(byGroup, dev.registers, groups)
  {
    forall g | 0 <= g < |groups|
      ensures multiset(Fed(byGroup[g])) == multiset(GroupTags(dev.registers, groups[g]))
    {
      GroupFeeds(dev, groups[g]);
    }
  }

  /** Every register of a planned device is fed by exactly one field of one
      transaction of one group. */
  lemma EveryRegisterOnce(dev: Resolve.ResolvedDevice, groups: seq<nat>)
    requires AllPollable(dev.registers) && StrictlyAscending(groups)
    requires forall i :: 0 <= i < |dev.registers| ==> dev.registers[i].entry.group in groups
    ensures multiset(FedByGroups(BuildDevice(dev, groups).byGroup)) == multiset(TagsOfRegisters(dev.registers))
  {
    var byGroup := BuildDevice(dev, groups).byGroup;
    DeviceFeedsGroups(dev, groups, byGroup);
    AllGroupsFeed(byGroup, dev.registers, groups);
  }
}
