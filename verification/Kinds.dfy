/** Every slot only ever holds the kind of value that its register's one read
    function answers with: from the plan (`mb-poller/src/plan.rs`) to the cache. */
module Kinds {
  import opened MbTypes
  import opened MbProto
  import opened Coalesce
  import opened CoalesceLaws
  import opened Reading
  import opened Cache
  import opened Wire
  import opened Ticks
  import opened ChannelLaws
  import opened ChannelMachine
  import opened Plan
  import opened PlanLaws
  import Resolve
  import Waves

  // ----- Each transaction feeds registers of one kind -----

  /** A register of the device that feeds tag `t` and answers with this kind. */
  ghost predicate Feeds(rs: seq<Register>, t: TagId, kind: RawKind) {
    exists r :: r in rs && r.tag == t && Resolve.KindOf(r.entry.source) == kind
  }

  lemma {:induction false} FeedsGrows(rs: seq<Register>, n: nat, t: TagId, kind: RawKind)
    requires n <= |rs| && Feeds(rs[..n], t, kind)
    ensures Feeds(rs, t, kind)
  {
    var r :| r in rs[..n] && r.tag == t && Resolve.KindOf(r.entry.source) == kind;
    assert r in rs;
  }

  function AreaKind(area: Area): RawKind {
    if area.IsBitDomain() then OfBits else OfRegisters
  }

  lemma {:induction false} BucketFeeds(rs: seq<Register>, group: nat, area: Area, t: TagId)
    requires t in IntervalTags(Bucket(rs, group, area))
    ensures Feeds(rs, t, AreaKind(area))
  {
    var n := |rs| - 1;
    var ivals := Bucket(rs, group, area);
    if ReadsArea(rs[n], group, area) && t == rs[n].tag {
      assert rs[n] in rs;
    } else {
      var i :| 0 <= i < |ivals| && IntervalTags(ivals)[i] == t;
      var before := Bucket(rs[..n], group, area);
      assert i < |before| && IntervalTags(before)[i] == t;
      BucketFeeds(rs[..n], group, area, t);
      FeedsGrows(rs, n, t, AreaKind(area));
    }
  }

  lemma {:induction false} CustomFeeds(rs: seq<Register>, group: nat, txn: Transaction, f: Field)
    requires txn in CustomTxns(rs, group) && f in txn.fields
    ensures Feeds(rs, f.tag, OfBytes) && txn.req.Custom?
  {
    var n := |rs| - 1;
    if IsVendor(rs[n], group) && txn == CustomTxn(rs[n], rs[n].entry.source.code) {
      assert rs[n] in rs;
    } else {
      CustomFeeds(rs[..n], group, txn, f);
      FeedsGrows(rs, n, f.tag, OfBytes);
    }
  }

  lemma {:induction false} AreaFeeds(dev: Resolve.ResolvedDevice, group: nat, area: Area, txn: Transaction, f: Field)
    requires AllPollable(dev.registers) && txn in AreaTxns(dev, group, area) && f in txn.fields
    ensures Feeds(dev.registers, f.tag, AreaKind(area)) && txn.req.Read? && txn.req.area == area
  {
    var txns, ivals := AreaTxns(dev, group, area), Bucket(dev.registers, group, area);
    BucketIsValid(dev.registers, group, area);
    MergedReadsAreLegal(area, ivals, dev.maxGap);
    CoalescedFeeds(area, ivals, dev.maxGap);
    var i :| 0 <= i < |txns| && txns[i] == txn;
    FedHolds(txns, i, f.tag);
    FieldHolds(txn.fields, f);
    assert f.tag in multiset(IntervalTags(ivals));
    BucketFeeds(dev.registers, group, area, f.tag);
  }

  /** In a compiled device, a transaction's kind of reply is the kind of every
      register it feeds. */
  lemma {:induction false} TransactionsFeedTheirKind(dev: Resolve.ResolvedDevice, group: nat, txn: Transaction,
                                                     f: Field)
    requires AllPollable(dev.registers) && txn in GroupTxns(dev, group) && f in txn.fields
    ensures Feeds(dev.registers, f.tag, ReplyKind(txn.req))
  {
    if txn in CustomTxns(dev.registers, group) {
      CustomFeeds(dev.registers, group, txn, f);
    } else {
      var area :| txn in AreaTxns(dev, group, area);
      AreaFeeds(dev, group, area, txn, f);
    }
  }

  // ----- What a channel polls -----

  /** The kind of each tag is that of its own register. */
  ghost predicate KindsOf(devs: seq<Resolve.ResolvedDevice>, kinds: seq<RawKind>) {
    forall d, i :: 0 <= d < |devs| && 0 <= i < |devs[d].registers| ==>
      KindIs(kinds, devs[d].registers[i].tag, Resolve.KindOf(devs[d].registers[i].entry.source))
  }

  predicate KindIs(kinds: seq<RawKind>, t: TagId, kind: RawKind) {
    t < |kinds| && kinds[t] == kind
  }

  lemma {:induction false} PlannedFeedsItsKind(ch: Resolve.ResolvedChannel, pollGroups: seq<PollGroup>,
                                               plan: ChannelPlan, kinds: seq<RawKind>, d: nat, g: nat, i: nat,
                                               txn: Transaction, f: Field)
    requires ChannelReady(ch) && Compiled(ch, pollGroups, plan) && KindsOf(EnabledDevices(ch.devices), kinds)
    requires d < |plan.devices| && Planned(plan.devices[d], g, i, txn) && f in txn.fields
    ensures KindIs(kinds, f.tag, ReplyKind(txn.req))
  {
    var dev, base := EnabledDevices(ch.devices)[d], plan.devices[d].byGroup[g][i];
    EnabledAreReady(ch.devices, ch.tagStart, ch.tagEnd);
    assert DeviceReady(dev, ch.tagStart, ch.tagEnd);
    var own := PlannedField(base, txn, f);
    TransactionsFeedTheirKind(dev, plan.groups[g], base, own);
    var r :| r in dev.registers && r.tag == f.tag && Resolve.KindOf(r.entry.source) == ReplyKind(base.req);
    var k :| 0 <= k < |dev.registers| && dev.registers[k] == r;
    assert KindIs(kinds, dev.registers[k].tag, Resolve.KindOf(dev.registers[k].entry.source));
  }

  /** The field of the planned transaction that a field of its split comes from. */
  lemma PlannedField(base: Transaction, txn: Transaction, f: Field) returns (own: Field)
    requires (txn == base || txn in SplitTxn(base)) && f in txn.fields
    ensures own in base.fields && own.tag == f.tag && ReplyKind(txn.req) == ReplyKind(base.req)
  {
    own := f;
    if txn != base {
      var k :| 0 <= k < |SplitTxn(base)| && SplitTxn(base)[k] == txn;
      own := base.fields[k];
    }
  }

  // ----- What it publishes -----

  ghost predicate UpdatesAdmitted(updates: seq<Update>, kinds: seq<RawKind>) {
    forall i :: 0 <= i < |updates| ==> UpdateAdmitted(updates[i], kinds)
  }

  predicate UpdateAdmitted(u: Update, kinds: seq<RawKind>) {
    u.0 < |kinds| ==> kinds[u.0].Admits(u.1)
  }

  lemma {:induction false} SlicesAdmitted(fields: seq<Field>, req: Request, resp: Response, kinds: seq<RawKind>)
    requires Answers(req, resp) && forall f :: f in fields ==> KindIs(kinds, f.tag, ReplyKind(req))
    ensures UpdatesAdmitted(SliceAll(fields, resp).updates, kinds)
  {
    if fields != [] {
      var n := |fields| - 1;
      assert fields[n] in fields;
      SlicesAdmitted(fields[..n], req, resp, kinds);
    }
  }

  lemma {:induction false} PublishAdmitted(slots: seq<Snapshot>, updates: seq<Update>, kinds: seq<RawKind>)
    requires Waves.Admitted(slots, kinds) && UpdatesAdmitted(updates, kinds)
    ensures Waves.Admitted(Publish(slots, updates), kinds)
  {
    if updates != [] {
      var n := |updates| - 1;
      PublishAdmitted(slots, updates[..n], kinds);
      assert UpdateAdmitted(updates[n], kinds);
    }
  }

  lemma RequalifyAdmitted(slots: seq<Snapshot>, tags: seq<TagId>, q: Quality, kinds: seq<RawKind>)
    requires Waves.Admitted(slots, kinds)
    ensures Waves.Admitted(Requalify(slots, tags, q), kinds)
  {
  }

  lemma ScatterAdmitted(slots: seq<Snapshot>, txn: Transaction, resp: Response, kinds: seq<RawKind>)
    requires Waves.Admitted(slots, kinds) && Answers(txn.req, resp)
    requires forall f :: f in txn.fields ==> KindIs(kinds, f.tag, ReplyKind(txn.req))
    ensures Waves.Admitted(AfterScatter(slots, txn, resp), kinds)
  {
    var s := Scatter(txn, resp);
    SlicesAdmitted(txn.fields, txn.req, resp, kinds);
    PublishAdmitted(slots, s.updates, kinds);
    RequalifyAdmitted(Publish(slots, s.updates), s.bad, Bad, kinds);
  }

  lemma {:induction false} SweptAdmitted(devices: seq<DevicePlan>, slots: seq<Snapshot>, n: nat, kinds: seq<RawKind>)
    requires n <= |devices| && Waves.Admitted(slots, kinds)
    ensures Waves.Admitted(SweptSlots(devices, slots, n), kinds)
  {
    if n > 0 {
      SweptAdmitted(devices, slots, n - 1, kinds);
      RequalifyAdmitted(SweptSlots(devices, slots, n - 1), devices[n - 1].allTags, Bad, kinds);
    }
  }

  // ----- In every run -----

  /** The transport answers each poll with the kind of reply its request asks for. */
  predicate ReplyFits(e: Entry) {
    e.kind.Poll? && e.reply.Ok? ==> Answers(e.req, e.reply.resp)
  }

  ghost predicate RepliesFit(log: Log) {
    forall i :: 0 <= i < |log| ==> ReplyFits(log[i])
  }

  lemma {:induction false} PublishKeepsKinds(ch: Resolve.ResolvedChannel, pollGroups: seq<PollGroup>, plan: ChannelPlan,
                                             cfg: Config, s: Task, slot: Slot, txn: Transaction, resp: Response,
                                             kinds: seq<RawKind>)
    requires ChannelReady(ch) && Compiled(ch, pollGroups, plan) && KindsOf(EnabledDevices(ch.devices), kinds)
    requires cfg.devices == plan.devices && cfg.Valid() && SplitsOk(cfg.devices, s.overrides)
    requires CanPoll(cfg, s, slot, txn) && JustReplied(s, slot.d, txn.req, Ok(resp))
    requires RepliesFit(s.log) && Waves.Admitted(s.slots, kinds)
    ensures Waves.Admitted(AfterScatter(s.slots, txn, resp), kinds)
  {
    CanPollIsPlanned(cfg, s, slot, txn);
    assert ReplyFits(s.log[|s.log| - 1]);
    forall f | f in txn.fields
      ensures KindIs(kinds, f.tag, ReplyKind(txn.req))
    {
      PlannedFeedsItsKind(ch, pollGroups, plan, kinds, slot.d, slot.group, slot.index, txn, f);
    }
    ScatterAdmitted(s.slots, txn, resp, kinds);
  }

  lemma {:induction false} SettledAdmitted(cfg: Config, s: Task, d: nat, log: Log, reply: Reply, kinds: seq<RawKind>)
    requires d < |cfg.devices| && d < |s.views| && log != [] && Waves.Admitted(s.slots, kinds)
    ensures Waves.Admitted(Settled(cfg, s, d, log, reply).slots, kinds)
  {
    RequalifyAdmitted(s.slots, cfg.devices[d].allTags, Bad, kinds);
  }

  lemma {:induction false} StepKeepsKinds(ch: Resolve.ResolvedChannel, pollGroups: seq<PollGroup>, plan: ChannelPlan,
                                          cfg: Config, s: Task, m: Move, kinds: seq<RawKind>)
    requires ChannelReady(ch) && Compiled(ch, pollGroups, plan) && KindsOf(EnabledDevices(ch.devices), kinds)
    requires cfg.devices == plan.devices && cfg.Valid() && SplitsOk(cfg.devices, s.overrides) && Enabled(cfg, s, m)
    requires RepliesFit(s.log) && Waves.Admitted(s.slots, kinds)
    ensures Waves.Admitted(Apply(cfg, s, m).slots, kinds)
  {
    match m {
      case Publishes(slot, txn, resp) => PublishKeepsKinds(ch, pollGroups, plan, cfg, s, slot, txn, resp, kinds);
      case Refuses(_, txn, _) => RequalifyAdmitted(s.slots, TagsOf(txn.fields), Bad, kinds);
      case Degrades(_, txn) => RequalifyAdmitted(s.slots, TagsOf(txn.fields), Uncertain, kinds);
      case PollEnds(slot, _, es, reply) => SettledAdmitted(cfg, s, slot.d, s.log + es, reply, kinds);
      case Writes(d, cmd, e) =>
        SettledAdmitted(cfg, Disposed(s, cmd, Sent(e.reply)), d, s.log + [e], e.reply, kinds);
      case Sweeps => SweptAdmitted(cfg.devices, s.slots, |cfg.devices|, kinds);
      case _ =>
    }
  }

  lemma {:induction false} NextKeepsKinds(ch: Resolve.ResolvedChannel, pollGroups: seq<PollGroup>, plan: ChannelPlan,
                                          cfg: Config, run: seq<Task>, k: nat, kinds: seq<RawKind>)
    requires ChannelReady(ch) && Compiled(ch, pollGroups, plan) && KindsOf(EnabledDevices(ch.devices), kinds)
    requires cfg.devices == plan.devices && cfg.Valid() && RunOk(cfg, run) && k + 1 < |run|
    requires RepliesFit(run[k].log) && Waves.Admitted(run[k].slots, kinds)
    ensures Waves.Admitted(run[k + 1].slots, kinds)
  {
    EveryRunKeepsSplits(cfg, run, k, k);
    var m := MoveAt(cfg, run, k);
    StepKeepsKinds(ch, pollGroups, plan, cfg, run[k], m, kinds);
  }

  lemma MoveAt(cfg: Config, run: seq<Task>, k: nat) returns (m: Move)
    requires RunOk(cfg, run) && k + 1 < |run|
    ensures Enabled(cfg, run[k], m) && run[k + 1] == Apply(cfg, run[k], m)
  {
    assert Comes(cfg, run, k + 1);
    m :| Enabled(cfg, run[k], m) && run[k + 1] == Apply(cfg, run[k], m);
  }

  /** What the first state has and each step keeps, every state has. */
  lemma {:induction false} Along(run: seq<Task>, holds: Task -> bool, k: nat)
    requires k < |run| && holds(run[0])
    requires forall j: nat :: j < k && holds(run[j]) ==> holds(run[j + 1])
    ensures holds(run[k])
  {
    if k > 0 {
      Along(run, holds, k - 1);
    }
  }

  /** In every run of a validated channel whose transport answers what it was asked,
      the cache admits every value: each slot keeps the kind of its register. */
  lemma {:induction false} EveryRunKeepsKinds(ch: Resolve.ResolvedChannel, pollGroups: seq<PollGroup>,
                                              plan: ChannelPlan, cfg: Config, run: seq<Task>, k: nat,
                                              kinds: seq<RawKind>)
    requires ChannelReady(ch) && Compiled(ch, pollGroups, plan) && KindsOf(EnabledDevices(ch.devices), kinds)
    requires cfg.devices == plan.devices && cfg.Valid() && RunOk(cfg, run) && k < |run|
    requires Waves.Admitted(run[0].slots, kinds) && forall j: nat :: j < k ==> RepliesFit(run[j].log)
    ensures Waves.Admitted(run[k].slots, kinds)
  {
    var holds := (s: Task) => Waves.Admitted(s.slots, kinds);
    forall j: nat | j < k && holds(run[j])
      ensures holds(run[j + 1])
    {
      NextKeepsKinds(ch, pollGroups, plan, cfg, run, j, kinds);
    }
    Along(run, holds, k);
  }
}
