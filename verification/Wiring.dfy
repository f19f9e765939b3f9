/** From a configured register to the wire and to its tag: what one entry of the
    configuration is polled with and what its tag shows, told from the entry alone
    (`mb-poller/src/plan.rs`). */
module Wiring {
  import opened MbTypes
  import opened MbProto
  import opened Coalesce
  import opened CoalesceLaws
  import opened Reading
  import opened Wire
  import opened ChannelLaws
  import opened Convergence
  import opened Plan
  import opened PlanLaws
  import opened Decode
  import Resolve

  // ----- What an entry asks for -----

  /** An entry's width: one bit in a bit area; else that of its data type, or its
      configured length where the type has none. */
  predicate HasWidth(e: Resolve.Entry, area: Area, n: nat) {
    if area.Coils? || area.DiscreteInputs? then n == 1
    else
      match e.dataType
      case Bcd | Ascii => e.length == Some(n)
      case U32 | I32 | F32 => n == 2
      case U64 | I64 | F64 => n == 4
      case _ => n == 1
  }

  /** The slot shows the `n` words (or bits) from `addr` on, as they are now, or is
      Bad if any of them is unmapped. */
  ghost predicate Shows(m: Memory, area: Area, addr: nat, n: nat, s: Snapshot) {
    if forall a: nat :: addr <= a < addr + n ==> m.mapped(area, a) then
      && s.quality == Good
      && (if area.Coils? || area.DiscreteInputs? then
            s.value.Bits? && |s.value.bits| == n && forall k :: 0 <= k < n ==> s.value.bits[k] == m.bits(area, addr + k)
          else
            s.value.Registers? && |s.value.words| == n
            && forall k :: 0 <= k < n ==> s.value.words[k] == m.words(area, addr + k))
    else s.quality == Bad
  }

  lemma ServedIsShown(m: Memory, area: Area, t: Target, s: Snapshot)
    requires Served(m, area, t, s)
    ensures Shows(m, area, t.addr, t.len, s)
  {
  }

  /** A validated entry has a width. */
  lemma HasSomeWidth(e: Resolve.Entry, area: Area)
    requires ReadEntryOk(e, area)
    ensures HasWidth(e, area, Width(e, area))
  {
  }

  /** The registers of a validated entry decode, but for digits that are not decimal. */
  lemma ValidatedEntryDecodes(e: Resolve.Entry, area: Area, meta: DecodeMeta, regs: seq<Word>, n: nat)
    requires ReadEntryOk(e, area) && HasWidth(e, area, n) && |regs| == n
    requires area.Holding? || area.Input?
    requires meta.dataType == e.dataType && meta.bit == e.bit
    ensures DecodeRegisters(regs, meta).Ok? || (e.dataType.Bcd? && DecodeRegisters(regs, meta).error.BadBcd?)
  {
  }

  // ----- Which devices are planned -----

  /** The enabled devices keep their order, and no other is planned. */
  lemma {:induction false} EnabledAt(devs: seq<Resolve.ResolvedDevice>, c: nat) returns (d: nat)
    requires c < |devs| && devs[c].enabled
    ensures d < |EnabledDevices(devs)| && EnabledDevices(devs)[d] == devs[c]
    ensures d == |EnabledDevices(devs[..c])|
  {
    var n := |devs| - 1;
    if c < n {
      d := EnabledAt(devs[..n], c);
      assert devs[..n][..c] == devs[..c];
    } else {
      d := |EnabledDevices(devs[..n])|;
    }
  }

  lemma {:induction false} PlannedIsEnabled(devs: seq<Resolve.ResolvedDevice>, d: nat) returns (c: nat)
    requires d < |EnabledDevices(devs)|
    ensures c < |devs| && devs[c].enabled && EnabledDevices(devs)[d] == devs[c]
  {
    var n := |devs| - 1;
    if d < |EnabledDevices(devs[..n])| {
      c := PlannedIsEnabled(devs[..n], d);
    } else {
      c := n;
    }
  }

  /** A group is planned for the sake of some register of an enabled device. */
  lemma {:induction false} GroupIsUsed(devs: seq<Resolve.ResolvedDevice>, g: nat) returns (c: nat, r: nat)
    requires g in GroupsOf(devs)
    ensures c < |devs| && devs[c].enabled && r < |devs[c].registers| && devs[c].registers[r].entry.group == g
  {
    var n := |devs| - 1;
    if g in GroupsOf(devs[..n]) {
      c, r := GroupIsUsed(devs[..n], g);
    } else {
      c := n;
      r :| 0 <= r < |devs[n].registers| && RegisterGroups(devs[n].registers)[r] == g;
    }
  }

  // ----- Where it is planned -----

  /** Field `k` of the slot feeds the tag from `n` words at `addr` of the area. */
  ghost predicate ReadsFrom(devices: seq<DevicePlan>, d: nat, g: nat, i: nat, k: nat, tag: TagId, area: Area,
                            addr: nat, n: nat) {
    && IsSlot(devices, d, g, i)
    && var txn := devices[d].byGroup[g][i];
       && txn.req.Read? && txn.req.area == area && k < |txn.fields|
       && txn.fields[k].tag == tag && txn.req.addr + txn.fields[k].wordOffset == addr && txn.fields[k].wordLen == n
       && txn.base == txn.req.addr
  }

  /** The slot is one vendor request that feeds the tag. */
  ghost predicate AsksVendor(devices: seq<DevicePlan>, d: nat, g: nat, i: nat, tag: TagId, code: Byte, data: seq<Byte>,
                             expectLen: Option<Word>) {
    && IsSlot(devices, d, g, i)
    && var txn := devices[d].byGroup[g][i];
       txn.req == Custom(code, data, expectLen) && |txn.fields| == 1 && txn.fields[0].tag == tag
  }

  /** No other field of any slot feeds the tag. */
  ghost predicate FedBy(devices: seq<DevicePlan>, d: nat, g: nat, i: nat, k: nat, tag: TagId) {
    forall e: nat, h: nat, j: nat, l: nat ::
      IsSlot(devices, e, h, j) && l < |devices[e].byGroup[h][j].fields| && devices[e].byGroup[h][j].fields[l].tag == tag
      ==> (e, h, j, l) == (d, g, i, k)
  }

  lemma {:induction false} BucketHolds(rs: seq<Register>, group: nat, area: Area, k: nat)
    requires k < |rs| && ReadsArea(rs[k], group, area)
    ensures ToInterval(rs[k], area) in Bucket(rs, group, area)
  {
    var n := |rs| - 1;
    if k < n {
      BucketHolds(rs[..n], group, area, k);
    }
  }

  lemma {:induction false} CustomHolds(rs: seq<Register>, group: nat, k: nat)
    requires k < |rs| && IsVendor(rs[k], group)
    ensures CustomTxn(rs[k], rs[k].entry.source.code) in CustomTxns(rs, group)
  {
    var n := |rs| - 1;
    if k < n {
      CustomHolds(rs[..n], group, k);
    }
  }

  lemma {:induction false} TargetIsRead(txns: seq<Transaction>, t: Target) returns (i: nat, k: nat)
    requires t in AllTargets(txns)
    ensures i < |txns| && k < |txns[i].fields| && FieldTarget(txns[i].base, txns[i].fields[k]) == t
  {
    var first := Targets(txns[0].base, txns[0].fields);
    if t in first {
      i := 0;
      k :| 0 <= k < |first| && first[k] == t;
    } else {
      i, k := TargetIsRead(txns[1..], t);
      i := i + 1;
    }
  }

  lemma WidthIsConfigured(e: Resolve.Entry, area: Area, n: nat)
    requires ReadEntryOk(e, area) && HasWidth(e, area, n)
    ensures Width(e, area) == n
  {
  }

  /** In its bucket, a register is read from its own address and width. */
  lemma AreaReadsRegister(dev: Resolve.ResolvedDevice, r: nat, area: Area, n: nat) returns (txn: Transaction, k: nat)
    requires AllPollable(dev.registers) && r < |dev.registers|
    requires dev.registers[r].entry.source == Resolve.ReadFrom(area) && HasWidth(dev.registers[r].entry, area, n)
    ensures var e := dev.registers[r].entry;
            && txn in AreaTxns(dev, e.group, area) && k < |txn.fields|
            && FieldTarget(txn.base, txn.fields[k]) == Target(dev.registers[r].tag, e.address, n)
  {
    var reg := dev.registers[r];
    var e, gap := reg.entry, dev.maxGap;
    var ivals := Bucket(dev.registers, e.group, area);
    assert Pollable(reg);
    WidthIsConfigured(e, area, n);
    BucketHolds(dev.registers, e.group, area, r);
    BucketIsValid(dev.registers, e.group, area);
    PlanReadsEveryEntryOnce(area, ivals, gap);
    var iv, sorted := ToInterval(reg, area), SortByStart(ivals);
    assert iv in multiset(sorted);
    var s :| 0 <= s < |sorted| && sorted[s] == iv;
    assert EntryTargets(sorted)[s] == TargetOf(iv);
    var i;
    i, k := TargetIsRead(Coalesced(area, ivals, gap), TargetOf(iv));
    txn := Coalesced(area, ivals, gap)[i];
  }

  lemma SlotOf(dev: Resolve.ResolvedDevice, groups: seq<nat>, group: nat, txn: Transaction) returns (g: nat, i: nat)
    requires group in groups && txn in GroupTxns(dev, group)
    ensures g < |groups| && groups[g] == group
    ensures i < |BuildDevice(dev, groups).byGroup[g]| && BuildDevice(dev, groups).byGroup[g][i] == txn
  {
    g :| 0 <= g < |groups| && groups[g] == group;
    i :| 0 <= i < |GroupTxns(dev, group)| && GroupTxns(dev, group)[i] == txn;
  }

  lemma FeedsOnce(devices: seq<DevicePlan>, d: nat, g: nat, i: nat, k: nat)
    requires SlotsApart(devices) && IsSlot(devices, d, g, i) && k < |devices[d].byGroup[g][i].fields|
    requires DistinctTags(devices[d].byGroup[g][i].fields)
    ensures FedBy(devices, d, g, i, k, devices[d].byGroup[g][i].fields[k].tag)
  {
    var own := devices[d].byGroup[g][i].fields;
    forall e: nat, h: nat, j: nat, l: nat
      | IsSlot(devices, e, h, j) && l < |devices[e].byGroup[h][j].fields| && (e, h, j, l) != (d, g, i, k)
      ensures devices[e].byGroup[h][j].fields[l].tag != own[k].tag
    {
      var other := devices[e].byGroup[h][j].fields;
      if (e, h, j) != (d, g, i) {
        assert Apart(devices[d].byGroup[g][i], devices[e].byGroup[h][j]);
        assert own[k] in own && other[l] in other;
      } else if l < k {
        assert own[l].tag != own[k].tag;
      }
    }
  }

  /** Every register of an enabled device that reads an area is planned in exactly one
      field, in a read of that area and of its own poll group, from its own address
      and with its own width. */
  lemma RegisterIsPlanned(ch: Resolve.ResolvedChannel, pollGroups: seq<PollGroup>, plan: ChannelPlan, d: nat, r: nat,
                          area: Area, n: nat) returns (g: nat, i: nat, k: nat)
    requires ChannelReady(ch) && Compiled(ch, pollGroups, plan) && d < |EnabledDevices(ch.devices)|
    requires r < |EnabledDevices(ch.devices)[d].registers|
    requires var e := EnabledDevices(ch.devices)[d].registers[r].entry;
             e.source == Resolve.ReadFrom(area) && HasWidth(e, area, n)
    ensures var reg := EnabledDevices(ch.devices)[d].registers[r];
            && ReadsFrom(plan.devices, d, g, i, k, reg.tag, area, reg.entry.address, n)
            && FedBy(plan.devices, d, g, i, k, reg.tag)
            && g < |plan.groups| && plan.groups[g] == reg.entry.group
  {
    var dev := EnabledDevices(ch.devices)[d];
    EnabledAreReady(ch.devices, ch.tagStart, ch.tagEnd);
    assert DeviceReady(dev, ch.tagStart, ch.tagEnd);
    EnabledGroups(ch.devices, d, r);
    var txn;
    txn, k := AreaReadsRegister(dev, r, area, n);
    AreaReadsAreGood(dev, dev.registers[r].entry.group, area);
    assert txn in GroupTxns(dev, dev.registers[r].entry.group);
    g, i := SlotOf(dev, plan.groups, dev.registers[r].entry.group, txn);
    PlanIsSound(ch, pollGroups, plan, ch.tagEnd);
    assert IsSlot(plan.devices, d, g, i) && plan.devices[d].byGroup[g][i] == txn;
    FeedsOnce(plan.devices, d, g, i, k);
  }

  /** A vendor register is planned alone, with its own function code, payload and
      length. */
  lemma VendorIsPlanned(ch: Resolve.ResolvedChannel, pollGroups: seq<PollGroup>, plan: ChannelPlan, d: nat, r: nat)
    returns (g: nat, i: nat)
    requires ChannelReady(ch) && Compiled(ch, pollGroups, plan) && d < |EnabledDevices(ch.devices)|
    requires r < |EnabledDevices(ch.devices)[d].registers|
    requires EnabledDevices(ch.devices)[d].registers[r].entry.source.Vendor?
    ensures var reg := EnabledDevices(ch.devices)[d].registers[r];
            && AsksVendor(plan.devices, d, g, i, reg.tag, reg.entry.source.code, reg.entry.request,
                          reg.entry.responseLen)
            && g < |plan.groups| && plan.groups[g] == reg.entry.group
  {
    var dev := EnabledDevices(ch.devices)[d];
    var reg := dev.registers[r];
    EnabledGroups(ch.devices, d, r);
    CustomHolds(dev.registers, reg.entry.group, r);
    g, i := SlotOf(dev, plan.groups, reg.entry.group, CustomTxn(reg, reg.entry.source.code));
  }

  /** A planned device keeps the settings of its own, and a group its period. */
  lemma SettingsCarryOver(ch: Resolve.ResolvedChannel, pollGroups: seq<PollGroup>, plan: ChannelPlan, d: nat, g: nat)
    requires Compiled(ch, pollGroups, plan) && d < |plan.devices| && g < |plan.groups|
    ensures var dev := EnabledDevices(ch.devices)[d]; var p := plan.devices[d];
            && p.id == dev.id && p.unit == dev.unit && p.offlineAfter == dev.offlineAfter
            && p.requestTimeoutMs == dev.requestTimeoutMs && p.retry == dev.retry
            && |p.allTags| == |dev.registers|
            && (forall r :: 0 <= r < |dev.registers| ==> p.allTags[r] == dev.registers[r].tag)
            && plan.groups[g] < |pollGroups|
            && plan.periods[g] == pollGroups[plan.groups[g]].periodMs
            && plan.priorities[g] == pollGroups[plan.groups[g]].priority
  {
  }

  /** No partition of a bucket under the device's own gap limit needs fewer reads. */
  lemma PlannedReadsAreFewest(dev: Resolve.ResolvedDevice, group: nat, area: Area)
    requires AllPollable(dev.registers) && Bucket(dev.registers, group, area) != []
    ensures var sorted := SortByStart(Bucket(dev.registers, group, area));
            && sorted != []
            && forall cuts :: |cuts| == |sorted| - 1
                 && LegalCuts(sorted[0].start, sorted[0].end, sorted[1..], cuts, dev.maxGap,
                              if area.Coils? || area.DiscreteInputs? then 2000 else 125)
                 ==> |AreaTxns(dev, group, area)| <= 1 + CutCount(cuts)
  {
    BucketIsValid(dev.registers, group, area);
    MergeIsMinimal(area, Bucket(dev.registers, group, area), dev.maxGap);
  }
}
