/** From a resolved channel to its running task: the parts of `mb-poller` composed
    (`plan.rs`, `schedule.rs`, `channel.rs`). What compilation promises is what the
    task and the convergence of its splits ask for. */
module Deployment {
  import opened MbTypes
  import opened MbProto
  import opened Coalesce
  import opened CoalesceLaws
  import opened Reading
  import opened Cache
  import opened Device
  import opened Wire
  import opened Ticks
  import opened ChannelLaws
  import opened ChannelMachine
  import opened Channel
  import opened Convergence
  import opened Plan
  import opened PlanLaws
  import opened Schedule
  import opened Wiring
  import Resolve

  // ----- What reaches the wire -----

  /** The request of a read within the protocol's limits, whose fields lie inside
      it and whose inner holes are small. */
  ghost predicate GoodRequest(req: Request, gap: nat) {
    exists txn: Transaction :: txn.req == req && GoodRead(txn, gap)
  }

  lemma {:induction false} PlannedReadIsGood(ch: Resolve.ResolvedChannel, pollGroups: seq<PollGroup>, plan: ChannelPlan,
                                             tagCount: nat, d: nat, g: nat, i: nat, txn: Transaction)
    requires ChannelReady(ch) && Compiled(ch, pollGroups, plan) && ch.tagEnd <= tagCount
    requires d < |plan.devices| && Planned(plan.devices[d], g, i, txn) && txn.req.Read?
    ensures GoodRead(txn, EnabledDevices(ch.devices)[d].maxGap)
  {
    PlanIsSound(ch, pollGroups, plan, tagCount);
    var base := plan.devices[d].byGroup[g][i];
    assert IsSlot(plan.devices, d, g, i);
    if txn != base {
      var k :| 0 <= k < |SplitTxn(base)| && SplitTxn(base)[k] == txn;
      SplitsStayGood(base, EnabledDevices(ch.devices)[d].maxGap, k);
    }
  }

  /** For a validated configuration, every register read that any run ever polls,
      merged or split, is a good one of an enabled device. */
  lemma {:induction false} EveryPolledReadIsGood(ch: Resolve.ResolvedChannel, pollGroups: seq<PollGroup>,
                                                 plan: ChannelPlan, cfg: Config, run: seq<Task>, k: nat, i: nat)
    requires ChannelReady(ch) && Compiled(ch, pollGroups, plan) && ch.tagEnd <= cfg.tagCount
    requires cfg.devices == plan.devices && cfg.retry.Valid() && RunOk(cfg, run)
    requires k < |run| && i < |run[k].log| && run[k].log[i].kind.Poll?
    ensures var e := run[k].log[i]; var devices := EnabledDevices(ch.devices);
            && e.device.Some? && e.device.value < |devices| && e.unit == devices[e.device.value].unit
            && (e.req.Read? ==>
                  && 1 <= e.req.qty <= e.req.area.MaxQty() && e.req.addr + e.req.qty <= ADDRESS_SPACE
                  && GoodRequest(e.req, devices[e.device.value].maxGap))
  {
    PlanIsSound(ch, pollGroups, plan, cfg.tagCount);
    EveryRun(cfg, run, k);
    var e := run[k].log[i];
    assert PolledOk(cfg.devices, e);
    var d := e.device.value;
    if e.req.Read? {
      var g: nat, index: nat, txn :| Planned(cfg.devices[d], g, index, txn) && txn.req == e.req;
      PlannedReadIsGood(ch, pollGroups, plan, cfg.tagCount, d, g, index, txn);
    }
  }

  // ----- A channel on the bench -----

  /** Every field of the slot's planned read shows its own words, or Bad. */
  ghost predicate Settled(bench: Byte -> Memory, devices: seq<DevicePlan>, slots: seq<Snapshot>, d: nat, g: nat, i: nat)
    requires IsSlot(devices, d, g, i) && devices[d].byGroup[g][i].req.Read?
  {
    AllServed(bench(devices[d].unit), devices[d].byGroup[g][i], slots)
  }

  /** Both batches poll the group. */
  predicate InBoth(first: seq<(nat, nat)>, second: seq<(nat, nat)>, d: nat, g: nat) {
    (d, g) in first && (d, g) in second
  }

  lemma TwoTicksSettle(ch: Resolve.ResolvedChannel, pollGroups: seq<PollGroup>, plan: ChannelPlan,
                       bench: Byte -> Memory, p: Poller, first: seq<(nat, nat)>, second: seq<(nat, nat)>, d: nat,
                       g: nat, i: nat)
    requires ChannelReady(ch) && Compiled(ch, pollGroups, plan) && ch.tagEnd <= |p.slots|
    requires SplitsOk(plan.devices, p.overrides) && DueInRange(plan.devices, first) && DueInRange(plan.devices, second)
    requires IsSlot(plan.devices, d, g, i) && plan.devices[d].byGroup[g][i].req.Read? && InBoth(first, second, d, g)
    ensures var q := PollDue(bench, plan.devices, PollDue(bench, plan.devices, p, first, |first|), second, |second|);
            Settled(bench, plan.devices, q.slots, d, g, i)
  {
    CompiledSlotIsWatched(ch, pollGroups, plan, p, d, g, i);
    TwoPassesSettle(bench, plan.devices, p, d, g, i, first, second);
  }

  /** A validated channel compiles, and its task and its wheel start. */
  method Deploy(ch: Resolve.ResolvedChannel, pollGroups: seq<PollGroup>, retry: RetryConfig, halfDuplex: bool,
                delayMs: nat, sink: TagCache, bench: Option<Byte -> Memory>, submissions: seq<WriteCommand>)
    returns (plan: ChannelPlan, wheel: PollWheel, task: ChannelTask)
    requires ChannelReady(ch) && retry.Valid() && ch.tagStart <= ch.tagEnd <= |sink.slots|
    requires forall g :: g in GroupsOf(ch.devices) ==> g < |pollGroups|
    requires forall d, e :: 0 <= d < e < |EnabledDevices(ch.devices)| ==>
               EnabledDevices(ch.devices)[d].id != EnabledDevices(ch.devices)[e].id
    ensures Compiled(ch, pollGroups, plan)
    ensures wheel.Valid() && wheel.plan == plan && fresh(wheel)
    ensures fresh(task) && fresh(task.rt) && task.Valid() && !task.healthy
    ensures task.devices == plan.devices && task.sink == sink && task.bench == bench && task.tagCount == |sink.slots|
    ensures Spawned(task.Cfg(), task.st) && AllOnline(task.st.views) && task.Commands() == submissions
  {
    plan := CompileChannel(ch, pollGroups);
    CompiledIsShaped(ch, pollGroups, plan);
    wheel := new PollWheel(plan);
    PlanIsSound(ch, pollGroups, plan, |sink.slots|);
    task := new ChannelTask(plan.devices, retry, halfDuplex, delayMs, ch.tagStart, ch.tagEnd, sink, bench, submissions);
  }

  /** Two ticks over a bench, with the queued commands serviced between them, are
      two passes, unless shutdown was requested. */
  method TickTwice(task: ChannelTask, first: seq<(nat, nat)>, second: seq<(nat, nat)>)
    requires task.Ready() && task.Serving() && |task.st.overrides| == |task.devices|
    requires DueInRange(task.devices, first) && DueInRange(task.devices, second)
    modifies task, task.rt, task.sink
    ensures task.Ready() && task.Serving()
    ensures !task.stopping ==>
              var p := PollDue(task.bench.value, task.devices, PassOf(old(task.st)), first, |first|);
              PassOf(task.st) == PollDue(task.bench.value, task.devices, p, second, |second|)
  {
    var o, finished := task.RunTick(first);
    if finished {
      o := task.DrainPendingWrites();
      o, finished := task.RunTick(second);
    }
  }

  /** The cache itself shows it: the slot's tags are the channel's own. */
  lemma SinkSettles(task: ChannelTask, d: nat, g: nat, i: nat)
    requires task.Valid() && task.bench.Some? && IsSlot(task.devices, d, g, i)
    requires task.devices[d].byGroup[g][i].req.Read? && Settled(task.bench.value, task.devices, task.st.slots, d, g, i)
    ensures Settled(task.bench.value, task.devices, task.sink.slots, d, g, i)
  {
    var txn := task.devices[d].byGroup[g][i];
    var m := task.bench.value(task.devices[d].unit);
    forall k | 0 <= k < |txn.fields|
      ensures FieldServed(m, txn, txn.fields[k], task.sink.slots)
    {
      assert FieldServed(m, txn, txn.fields[k], task.st.slots);
      assert OwnTags(task.devices[d], txn) && txn.fields[k] in txn.fields;
      assert task.sink.slots[txn.fields[k].tag] == task.st.slots[txn.fields[k].tag];
    }
  }

  /** Over a bench, after two ticks every register tag whose group both ticks poll is
      settled, unless shutdown was requested. */
  method RunTwoTicks(ghost ch: Resolve.ResolvedChannel, ghost pollGroups: seq<PollGroup>, wheel: PollWheel,
                     task: ChannelTask, fired: seq<nat>, refired: seq<nat>)
    returns (first: seq<(nat, nat)>, second: seq<(nat, nat)>)
    requires ChannelReady(ch) && Compiled(ch, pollGroups, wheel.plan) && ch.tagEnd <= task.tagCount
    requires wheel.Valid() && wheel.plan.devices == task.devices
    requires StrictlyAscending(fired) && forall i :: 0 <= i < |fired| ==> fired[i] < |wheel.periods|
    requires StrictlyAscending(refired) && forall i :: 0 <= i < |refired| ==> refired[i] < |wheel.periods|
    requires task.Ready() && task.Serving()
    modifies task, task.rt, task.sink
    ensures task.Ready() && task.Serving()
    ensures first == Pairs(SortUnits(Gathered(wheel.dueMap, fired)))
    ensures second == Pairs(SortUnits(Gathered(wheel.dueMap, refired)))
    ensures !task.stopping ==>
              forall d: nat, g: nat, i: nat ::
                IsSlot(task.devices, d, g, i) && task.devices[d].byGroup[g][i].req.Read?
                   && InBoth(first, second, d, g) ==>
                  Settled(task.bench.value, task.devices, task.sink.slots, d, g, i)
  {
    ghost var start := PassOf(task.st);
    RunFacts(task.Cfg(), task.run);
    first := wheel.NextDue(fired);
    second := wheel.NextDue(refired);
    TickTwice(task, first, second);
    if !task.stopping {
      forall d: nat, g: nat, i: nat
        | IsSlot(task.devices, d, g, i) && task.devices[d].byGroup[g][i].req.Read? && InBoth(first, second, d, g)
        ensures Settled(task.bench.value, task.devices, task.sink.slots, d, g, i)
      {
        TwoTicksSettle(ch, pollGroups, wheel.plan, task.bench.value, start, first, second, d, g, i);
        SinkSettles(task, d, g, i);
      }
    }
  }

  /** When every timer has fired, the batch polls every group with work. */
  lemma FullBatchHasAll(wheel: PollWheel, fired: seq<nat>, d: nat, g: nat)
    requires wheel.Valid() && |fired| == |wheel.periods| && forall i :: 0 <= i < |fired| ==> fired[i] == i
    requires d < |wheel.plan.devices| && g < |wheel.plan.groups| && wheel.plan.devices[d].byGroup[g] != []
    ensures (d, g) in Pairs(SortUnits(Gathered(wheel.dueMap, fired)))
  {
    var plan, u := wheel.plan, Unit(wheel.plan.priorities[g], d, g);
    assert plan.periods[g] in wheel.periods;
    var s :| 0 <= s < |wheel.periods| && wheel.periods[s] == plan.periods[g];
    assert wheel.periods[fired[s]] == plan.periods[g];
    wheel.BatchIsExact(fired, u);
    var batch := SortUnits(Gathered(wheel.dueMap, fired));
    assert u in multiset(batch);
    var i :| 0 <= i < |batch| && batch[i] == u;
    assert Pairs(batch)[i] == (d, g);
  }

  /** Every register of an enabled device that reads an area shows what is at its own
      configured address, in its own width, or Bad if any of it is unmapped. */
  ghost predicate RegistersShow(devs: seq<Resolve.ResolvedDevice>, bench: Byte -> Memory, slots: seq<Snapshot>) {
    forall c: nat, r: nat, area: Area, n: nat ::
      c < |devs| && devs[c].enabled && r < |devs[c].registers|
      && devs[c].registers[r].entry.source == Resolve.ReadFrom(area)
      && HasWidth(devs[c].registers[r].entry, area, n) ==>
        var reg := devs[c].registers[r];
        reg.tag < |slots| && Shows(bench(devs[c].unit), area, reg.entry.address, n, slots[reg.tag])
  }

  lemma RegisterIsShown(ch: Resolve.ResolvedChannel, pollGroups: seq<PollGroup>, plan: ChannelPlan,
                        bench: Byte -> Memory, slots: seq<Snapshot>, d: nat, r: nat, area: Area, n: nat)
    requires ChannelReady(ch) && Compiled(ch, pollGroups, plan) && d < |EnabledDevices(ch.devices)|
    requires forall d: nat, g: nat, i: nat {:trigger IsSlot(plan.devices, d, g, i)} ::
               IsSlot(plan.devices, d, g, i) && plan.devices[d].byGroup[g][i].req.Read? ==>
                 Settled(bench, plan.devices, slots, d, g, i)
    requires r < |EnabledDevices(ch.devices)[d].registers|
    requires var e := EnabledDevices(ch.devices)[d].registers[r].entry;
             e.source == Resolve.ReadFrom(area) && HasWidth(e, area, n)
    ensures var dev := EnabledDevices(ch.devices)[d]; var reg := dev.registers[r];
            reg.tag < |slots| && Shows(bench(dev.unit), area, reg.entry.address, n, slots[reg.tag])
  {
    hide ChannelReady, Compiled, HasWidth, FedBy, Served, Shows;
    var g, i, k := RegisterIsPlanned(ch, pollGroups, plan, d, r, area, n);
    SettingsCarryOver(ch, pollGroups, plan, d, g);
    var txn, m := plan.devices[d].byGroup[g][i], bench(plan.devices[d].unit);
    assert Settled(bench, plan.devices, slots, d, g, i);
    assert FieldServed(m, txn, txn.fields[k], slots);
    ServedIsShown(m, area, FieldTarget(txn.base, txn.fields[k]), slots[txn.fields[k].tag]);
  }

  /** A validated channel, started over a bench: it connects, every timer fires
      twice, and unless shutdown was requested, every register of every enabled
      device shows what is at its own address, or Bad. */
  method DeployOnBench(ch: Resolve.ResolvedChannel, pollGroups: seq<PollGroup>, retry: RetryConfig, halfDuplex: bool,
                       delayMs: nat, sink: TagCache, bench: Byte -> Memory, submissions: seq<WriteCommand>)
    returns (plan: ChannelPlan, task: ChannelTask)
    requires ChannelReady(ch) && retry.Valid() && ch.tagStart <= ch.tagEnd <= |sink.slots|
    requires forall g :: g in GroupsOf(ch.devices) ==> g < |pollGroups|
    requires forall d, e :: 0 <= d < e < |EnabledDevices(ch.devices)| ==>
               EnabledDevices(ch.devices)[d].id != EnabledDevices(ch.devices)[e].id
    modifies sink
    ensures Compiled(ch, pollGroups, plan) && task.Ready() && task.Serving()
    ensures !task.stopping ==> RegistersShow(ch.devices, bench, sink.slots)
    ensures !task.stopping ==>
              forall d: nat, g: nat, i: nat ::
                IsSlot(plan.devices, d, g, i) && plan.devices[d].byGroup[g][i].req.Read? ==>
                  Settled(bench, plan.devices, sink.slots, d, g, i)
  {
    var wheel;
    plan, wheel, task := Deploy(ch, pollGroups, retry, halfDuplex, delayMs, sink, Some(bench), submissions);
    task.Connect();
    FireAllTwice(ch, pollGroups, wheel, task);
    if !task.stopping {
      RegistersAreShown(ch, pollGroups, plan, bench, sink.slots);
    }
  }

  lemma RegistersAreShown(ch: Resolve.ResolvedChannel, pollGroups: seq<PollGroup>, plan: ChannelPlan,
                          bench: Byte -> Memory, slots: seq<Snapshot>)
    requires ChannelReady(ch) && Compiled(ch, pollGroups, plan)
    requires forall d: nat, g: nat, i: nat {:trigger IsSlot(plan.devices, d, g, i)} ::
               IsSlot(plan.devices, d, g, i) && plan.devices[d].byGroup[g][i].req.Read? ==>
                 Settled(bench, plan.devices, slots, d, g, i)
    ensures RegistersShow(ch.devices, bench, slots)
  {
    hide ChannelReady, Compiled, Settled, Shows;
    var devs := ch.devices;
    forall c: nat, r: nat, area: Area, n: nat
      | c < |devs| && devs[c].enabled && r < |devs[c].registers|
        && devs[c].registers[r].entry.source == Resolve.ReadFrom(area) && HasWidth(devs[c].registers[r].entry, area, n)
      ensures var reg := devs[c].registers[r];
              reg.tag < |slots| && Shows(bench(devs[c].unit), area, reg.entry.address, n, slots[reg.tag])
    {
      var d := EnabledAt(devs, c);
      RegisterIsShown(ch, pollGroups, plan, bench, slots, d, r, area, n);
    }
  }

  method FireAllTwice(ghost ch: Resolve.ResolvedChannel, ghost pollGroups: seq<PollGroup>, wheel: PollWheel,
                      task: ChannelTask)
    requires ChannelReady(ch) && Compiled(ch, pollGroups, wheel.plan) && ch.tagEnd <= task.tagCount
    requires wheel.Valid() && wheel.plan.devices == task.devices
    requires task.Ready() && task.Serving()
    modifies task, task.rt, task.sink
    ensures task.Ready() && task.Serving()
    ensures !task.stopping ==>
              forall d: nat, g: nat, i: nat ::
                IsSlot(task.devices, d, g, i) && task.devices[d].byGroup[g][i].req.Read? ==>
                  Settled(task.bench.value, task.devices, task.sink.slots, d, g, i)
  {
    hide ChannelReady, Compiled, Settled;
    var timers := seq(|wheel.periods|, i => i);
    var first, second := RunTwoTicks(ch, pollGroups, wheel, task, timers, timers);
    if !task.stopping {
      forall d: nat, g: nat, i: nat | IsSlot(task.devices, d, g, i) && task.devices[d].byGroup[g][i].req.Read?
        ensures Settled(task.bench.value, task.devices, task.sink.slots, d, g, i)
      {
        FullBatchHasAll(wheel, timers, d, g);
        assert InBoth(first, second, d, g);
      }
    }
  }
}
