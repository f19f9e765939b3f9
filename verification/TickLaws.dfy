/** What a poll tick owes to the devices that it names, told from the wire: what was
    asked since a point of the log, and which devices went offline since. */
module TickLaws {
  import opened MbTypes
  import opened MbProto
  import opened Coalesce
  import opened Reading
  import opened Device
  import opened Wire
  import opened Ticks
  import opened ChannelLaws
  import opened ChannelMachine

  // ----- Since a point of the log -----

  ghost predicate AllAsked(log: Log, n: nat, d: nat, txns: seq<Transaction>) {
    forall k :: 0 <= k < |txns| ==> Asked(log, n, d, txns[k].req)
  }

  /** With the planned read itself, or with all those of its split. */
  ghost predicate SlotAsked(log: Log, n: nat, d: nat, base: Transaction) {
    Asked(log, n, d, base.req) || AllAsked(log, n, d, SplitTxn(base))
  }

  ghost predicate GroupAsked(log: Log, n: nat, d: nat, txns: seq<Transaction>) {
    forall i {:trigger txns[i]} :: 0 <= i < |txns| ==> SlotAsked(log, n, d, txns[i])
  }

  /** Since entry `n`, the device's failures have reached its threshold. */
  ghost predicate FellOffline(log: Log, n: nat, dev: DevicePlan, d: nat) {
    exists j :: n <= j <= |log| && OfflineAt(log, j, dev, d)
  }

  predicate OfflineAt(log: Log, j: nat, dev: DevicePlan, d: nat)
    requires j <= |log|
  {
    FailuresSinceAnswer(History(log[..j], d)) >= Threshold(dev)
  }

  lemma AskedGrows(log: Log, log': Log, n: nat, n': nat, d: nat, req: Request)
    requires log <= log' && n' <= n && Asked(log, n, d, req)
    ensures Asked(log', n', d, req)
  {
    var k :| n <= k < |log| && log[k].kind == Poll(0) && log[k].device == Some(d) && log[k].req == req;
    assert log'[k] == log[k];
  }

  lemma EffectiveIsAsked(dev: DevicePlan, overrides: Overrides, log: Log, n: nat, d: nat, group: nat, index: nat)
    requires OverridesOk(dev, overrides) && PlannedOwnTags(dev)
    requires group < |dev.byGroup| && index < |dev.byGroup[group]|
    ensures var base := dev.byGroup[group][index]; var txns := Effective(overrides, group, index, base);
            txns != [] && (AllAsked(log, n, d, txns) ==> SlotAsked(log, n, d, base))
  {
    var base := dev.byGroup[group][index];
    assert OwnTags(dev, base);
    if (group, index) !in overrides && AllAsked(log, n, d, [base]) {
      assert Asked(log, n, d, [base][0].req);
    }
  }

  lemma AllAskedGrows(log: Log, log': Log, n: nat, n': nat, d: nat, txns: seq<Transaction>)
    requires log <= log' && n' <= n && AllAsked(log, n, d, txns)
    ensures AllAsked(log', n', d, txns)
  {
    forall k | 0 <= k < |txns|
      ensures Asked(log', n', d, txns[k].req)
    {
      AskedGrows(log, log', n, n', d, txns[k].req);
    }
  }

  lemma NoneAsked(log: Log, n: nat, d: nat, txns: seq<Transaction>)
    ensures AllAsked(log, n, d, txns[..0]) && GroupAsked(log, n, d, txns[..0])
  {
  }

  lemma OneMoreAsked(log: Log, n: nat, d: nat, txns: seq<Transaction>, k: nat)
    requires k < |txns| && AllAsked(log, n, d, txns[..k]) && Asked(log, n, d, txns[k].req)
    ensures AllAsked(log, n, d, txns[..k + 1])
  {
    var init, next := txns[..k], txns[..k + 1];
    forall j | 0 <= j < |next|
      ensures Asked(log, n, d, next[j].req)
    {
      assert j < k ==> next[j] == init[j];
    }
  }

  lemma OneMoreSlotAsked(log: Log, n: nat, d: nat, txns: seq<Transaction>, i: nat)
    requires i < |txns| && GroupAsked(log, n, d, txns[..i]) && SlotAsked(log, n, d, txns[i])
    ensures GroupAsked(log, n, d, txns[..i + 1])
  {
    var init, next := txns[..i], txns[..i + 1];
    forall j | 0 <= j < |next|
      ensures SlotAsked(log, n, d, next[j])
    {
      assert j < i ==> next[j] == init[j];
    }
  }

  lemma SlotAskedGrows(log: Log, log': Log, n: nat, n': nat, d: nat, base: Transaction)
    requires log <= log' && n' <= n && SlotAsked(log, n, d, base)
    ensures SlotAsked(log', n', d, base)
  {
    if Asked(log, n, d, base.req) {
      AskedGrows(log, log', n, n', d, base.req);
    } else {
      AllAskedGrows(log, log', n, n', d, SplitTxn(base));
    }
  }

  lemma GroupAskedGrows(log: Log, log': Log, n: nat, n': nat, d: nat, txns: seq<Transaction>)
    requires log <= log' && n' <= n && GroupAsked(log, n, d, txns)
    ensures GroupAsked(log', n', d, txns)
  {
    forall i | 0 <= i < |txns|
      ensures SlotAsked(log', n', d, txns[i])
    {
      SlotAskedGrows(log, log', n, n', d, txns[i]);
    }
  }

  lemma FellOfflineGrows(log: Log, log': Log, n: nat, n': nat, dev: DevicePlan, d: nat)
    requires log <= log' && n' <= n && FellOffline(log, n, dev, d)
    ensures FellOffline(log', n', dev, d)
  {
    var j :| n <= j <= |log| && OfflineAt(log, j, dev, d);
    assert log'[..j] == log[..j];
    assert OfflineAt(log', j, dev, d);
  }

  lemma OfflineNow(log: Log, n: nat, dev: DevicePlan, d: nat, w: Watch)
    requires n <= |log| && w == WatchOf(dev, History(log, d)) && !w.online
    requires dev.offlineAfter <= U32_MAX && dev.retry.Valid()
    ensures FellOffline(log, n, dev, d)
  {
    WatchCountsFailures(History(log, d), Threshold(dev), dev.retry);
    assert log[..|log|] == log;
    assert OfflineAt(log, |log|, dev, d);
  }

  /** A longer log has seen at least as many requests of a device end; if not more,
      the same ones. */
  lemma {:induction false} HistoryGrows(log: Log, log': Log, d: nat)
    requires log <= log'
    ensures |History(log, d)| <= |History(log', d)|
    ensures |History(log, d)| == |History(log', d)| ==>
              History(log, d) == History(log', d)
    decreases |log'|
  {
    if |log| < |log'| {
      HistoryGrows(log, log'[..|log'| - 1], d);
    } else {
      assert log == log';
    }
  }

  // ----- What one tick owes -----

  /** The device is online, or its next probe is due. */
  predicate DueToPoll(s: Task, d: nat, now: nat)
    requires d < |s.views|
  {
    s.views[d].online || (s.views[d].probeAt.Some? && s.views[d].probeAt.value <= now)
  }

  /** In a tick from state `s` on, a due device with work in the group has had a
      request end; and if it was online, it was asked for all of the group, or went
      offline meanwhile. */
  ghost predicate Served(devices: seq<DevicePlan>, s: Task, now: nat, log: Log, d: nat, g: nat)
    requires d < |devices| == |s.views| && g < |devices[d].byGroup|
  {
    devices[d].byGroup[g] != [] ==>
      && (DueToPoll(s, d, now) ==> |History(log, d)| > |History(s.log, d)|)
      && (s.views[d].online ==>
            || GroupAsked(log, |s.log|, d, devices[d].byGroup[g])
            || FellOffline(log, |s.log|, devices[d], d))
  }

  /** So is each of the first `n` of the batch. */
  ghost predicate AllServed(devices: seq<DevicePlan>, s: Task, now: nat, log: Log, due: seq<(nat, nat)>, n: nat)
    requires DueInRange(devices, due) && |devices| == |s.views| && n <= |due|
  {
    forall i {:trigger due[i]} :: 0 <= i < n ==> Served(devices, s, now, log, due[i].0, due[i].1)
  }

  lemma ServedGrows(devices: seq<DevicePlan>, s: Task, now: nat, log: Log, log': Log, d: nat, g: nat)
    requires d < |devices| == |s.views| && g < |devices[d].byGroup|
    requires log <= log' && Served(devices, s, now, log, d, g)
    ensures Served(devices, s, now, log', d, g)
  {
    HistoryGrows(log, log', d);
    if GroupAsked(log, |s.log|, d, devices[d].byGroup[g]) {
      GroupAskedGrows(log, log', |s.log|, |s.log|, d, devices[d].byGroup[g]);
    }
    if FellOffline(log, |s.log|, devices[d], d) {
      FellOfflineGrows(log, log', |s.log|, |s.log|, devices[d], d);
    }
  }

  lemma AllServedGrows(devices: seq<DevicePlan>, s: Task, now: nat, log: Log, log': Log, due: seq<(nat, nat)>, n: nat)
    requires DueInRange(devices, due) && |devices| == |s.views| && n <= |due|
    requires log <= log' && AllServed(devices, s, now, log, due, n)
    ensures AllServed(devices, s, now, log', due, n)
  {
    forall i | 0 <= i < n
      ensures Served(devices, s, now, log', due[i].0, due[i].1)
    {
      ServedGrows(devices, s, now, log, log', due[i].0, due[i].1);
    }
  }

  lemma NoneServed(devices: seq<DevicePlan>, s: Task, now: nat, log: Log, due: seq<(nat, nat)>)
    requires DueInRange(devices, due) && |devices| == |s.views|
    ensures AllServed(devices, s, now, log, due, 0)
  {
  }

  lemma OneMoreServed(devices: seq<DevicePlan>, s: Task, now: nat, log: Log, due: seq<(nat, nat)>, n: nat)
    requires DueInRange(devices, due) && |devices| == |s.views| && n < |due|
    requires AllServed(devices, s, now, log, due, n) && Served(devices, s, now, log, due[n].0, due[n].1)
    ensures AllServed(devices, s, now, log, due, n + 1)
  {
  }

  /** A device that is found offline and not due owes this to requests of its own. */
  lemma SkippedIsServed(devices: seq<DevicePlan>, s: Task, now: nat, t: Task, later: nat, d: nat, g: nat)
    requires d < |devices| && g < |devices[d].byGroup| && s.log <= t.log && now <= later
    requires WatchesFollow(devices, s.views, s.log) && WatchesFollow(devices, t.views, t.log)
    requires devices[d].offlineAfter <= U32_MAX && devices[d].retry.Valid()
    requires !t.views[d].online && (t.views[d].probeAt.Some? ==> later < t.views[d].probeAt.value)
    ensures Served(devices, s, now, t.log, d, g)
  {
    HistoryGrows(s.log, t.log, d);
    OfflineNow(t.log, |s.log|, devices[d], d, t.views[d]);
  }

  /** A device that has been polled for the group. */
  lemma PolledIsServed(devices: seq<DevicePlan>, s: Task, now: nat, before: Log, log: Log, d: nat, g: nat)
    requires d < |devices| == |s.views| && g < |devices[d].byGroup| && s.log <= before <= log
    requires devices[d].byGroup[g] != [] ==> |History(log, d)| > |History(before, d)|
    requires GroupAsked(log, |before|, d, devices[d].byGroup[g]) || FellOffline(log, |before|, devices[d], d)
    ensures Served(devices, s, now, log, d, g)
  {
    HistoryGrows(s.log, before, d);
    if GroupAsked(log, |before|, d, devices[d].byGroup[g]) {
      GroupAskedGrows(log, log, |before|, |s.log|, d, devices[d].byGroup[g]);
    } else {
      FellOfflineGrows(log, log, |before|, |s.log|, devices[d], d);
    }
  }
}
