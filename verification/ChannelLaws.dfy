/** What one answer, failure or sweep on a channel keeps: the watchdogs follow the
    wire, and a dead device or channel shows only Bad tags. Stated on values, for
    the methods of `ChannelTask`. */
module ChannelLaws {
  import opened MbTypes
  import opened MbProto
  import opened Coalesce
  import opened Reading
  import opened Cache
  import opened Device
  import opened Wire
  import opened Ticks

  ghost predicate OwnTags(dev: DevicePlan, txn: Transaction) {
    forall f :: f in txn.fields ==> f.tag in dev.allTags
  }

  ghost predicate PlannedOwnTags(dev: DevicePlan) {
    forall g, i :: 0 <= g < |dev.byGroup| && 0 <= i < |dev.byGroup[g]| ==>
      OwnTags(dev, dev.byGroup[g][i]) && (dev.byGroup[g][i].coalesced ==> dev.byGroup[g][i].fields != [])
  }

  ghost predicate TagsInRange(dev: DevicePlan, tagCount: nat) {
    forall t :: t in dev.allTags ==> t < tagCount
  }

  ghost predicate Disjoint(a: DevicePlan, b: DevicePlan) {
    forall t :: t in a.allTags ==> t !in b.allTags
  }

  /** Tags lie in the cache, each belongs to one device, and a device's transactions
      feed its own tags. */
  ghost predicate PlanOk(devices: seq<DevicePlan>, tagCount: nat) {
    && (forall d :: 0 <= d < |devices| ==>
          (TagsInRange(devices[d], tagCount) && PlannedOwnTags(devices[d])
           && devices[d].offlineAfter <= U32_MAX && devices[d].retry.Valid()))
    && (forall d, e {:trigger Disjoint(devices[d], devices[e])} ::
          0 <= d < |devices| && 0 <= e < |devices| && d != e ==> Disjoint(devices[d], devices[e]))
  }

  /** `offline_after` as the runtime uses it. */
  function Threshold(dev: DevicePlan): nat {
    Max(dev.offlineAfter, 1)
  }

  function WatchOf(dev: DevicePlan, history: seq<Event>): Watch {
    WatchAfter(history, Threshold(dev), dev.retry)
  }

  /** Every device's watchdog is what its requests on the wire say. */
  ghost predicate WatchesFollow(devices: seq<DevicePlan>, views: seq<Watch>, log: Log) {
    && |views| == |devices|
    && forall d :: 0 <= d < |devices| ==> views[d] == WatchOf(devices[d], History(log, d))
  }

  ghost predicate AllBad(slots: seq<Snapshot>, tags: seq<TagId>) {
    forall t :: t in tags && t < |slots| ==> slots[t].quality == Bad
  }

  /** An offline device, or a swept channel, shows only Bad tags. */
  ghost predicate DeadTagsBad(devices: seq<DevicePlan>, views: seq<Watch>, swept: bool, slots: seq<Snapshot>)
    requires |views| == |devices|
  {
    forall d :: 0 <= d < |devices| && (swept || !views[d].online) ==> AllBad(slots, devices[d].allTags)
  }

  /** Each override is exactly the split of a coalesced planned transaction. */
  ghost predicate OverridesOk(dev: DevicePlan, overrides: Overrides) {
    forall key :: key in overrides ==>
      (&& key.0 < |dev.byGroup| && key.1 < |dev.byGroup[key.0]|
       && dev.byGroup[key.0][key.1].coalesced
       && overrides[key] == SplitTxn(dev.byGroup[key.0][key.1]))
  }

  ghost predicate SplitsOk(devices: seq<DevicePlan>, overrides: seq<Overrides>) {
    && |overrides| == |devices|
    && forall d :: 0 <= d < |devices| ==> OverridesOk(devices[d], overrides[d])
  }

  /** Overrides are only ever added. */
  ghost predicate SplitsKept(before: seq<Overrides>, after: seq<Overrides>) {
    && |before| == |after|
    && forall d, key :: 0 <= d < |before| && key in before[d] ==> key in after[d] && after[d][key] == before[d][key]
  }

  /** Slots are unchanged or have turned Bad. */
  ghost predicate OnlyFalls(before: seq<Snapshot>, after: seq<Snapshot>) {
    && |after| == |before|
    && forall t {:trigger after[t]} :: 0 <= t < |before| ==> after[t] == before[t] || after[t].quality == Bad
  }

  /** The commands taken since the first `n` all met the same fate. */
  predicate AllMet(fates: seq<Fate>, n: nat, fate: Fate) {
    forall i :: n <= i < |fates| ==> fates[i] == fate
  }

  /** Of the commands taken since the first `n`, only the newest may be a diagnostic. */
  predicate OneDiagnostic(taken: seq<WriteCommand>, n: nat) {
    forall i :: n <= i < |taken| - 1 ==> taken[i].diagnostic.None?
  }

  ghost predicate AllOnline(views: seq<Watch>) {
    forall d :: 0 <= d < |views| ==> views[d].online
  }

  /** `is_retryable`. */
  predicate IsRetryable(e: ProtoError, halfDuplex: bool) {
    match e
    case Timeout => !halfDuplex
    case Exception(code) => code.ServerDeviceBusy? || code.GatewayTargetDevice?
    case _ => false
  }

  /** `retry_budget`: probes of offline devices are single-shot. */
  function RetryBudget(online: bool, retry: RetryConfig): nat {
    if online then retry.maxRetries else 0
  }

  /** A poll stays within the budget that its device has at the time, and one that
      ends in an error that may be retried has used it up. */
  predicate RetryOk(devices: seq<DevicePlan>, halfDuplex: bool, log: Log, i: nat)
    requires i < |log|
  {
    log[i].kind.Poll? && log[i].device.Some? && log[i].device.value < |devices| ==>
      var d := log[i].device.value;
      var budget := RetryBudget(WatchOf(devices[d], History(log[..i], d)).online, devices[d].retry);
      && log[i].kind.attempt <= budget
      && (!log[i].settled ==> log[i].reply.Err? && IsRetryable(log[i].reply.error, halfDuplex))
      && (log[i].settled && log[i].reply.Err? && IsRetryable(log[i].reply.error, halfDuplex) ==>
            log[i].kind.attempt == budget)
  }

  ghost predicate RetriesOk(devices: seq<DevicePlan>, halfDuplex: bool, log: Log) {
    forall i :: 0 <= i < |log| ==> RetryOk(devices, halfDuplex, log, i)
  }

  lemma {:induction false} RetriesOkAppends(devices: seq<DevicePlan>, halfDuplex: bool, log: Log, e: Entry)
    requires RetriesOk(devices, halfDuplex, log) && RetryOk(devices, halfDuplex, log + [e], |log|)
    ensures RetriesOk(devices, halfDuplex, log + [e])
  {
    forall i | 0 <= i < |log|
      ensures RetryOk(devices, halfDuplex, log + [e], i)
    {
      assert RetryOk(devices, halfDuplex, log, i);
      assert (log + [e])[..i] == log[..i];
    }
  }

  // ----- A channel's own part of the cache -----

  ghost predicate TagsWithin(devices: seq<DevicePlan>, first: TagId, end: TagId) {
    forall d, t :: 0 <= d < |devices| && t in devices[d].allTags ==> first <= t < end
  }

  ghost predicate AgreeOn(a: seq<Snapshot>, b: seq<Snapshot>, first: TagId, end: TagId) {
    |a| == |b| && end <= |a| && forall t {:trigger a[t]} :: first <= t < end ==> a[t] == b[t]
  }

  lemma RequalifyAgrees(a: seq<Snapshot>, b: seq<Snapshot>, tags: seq<TagId>, q: Quality, first: TagId, end: TagId)
    requires AgreeOn(a, b, first, end)
    ensures AgreeOn(Requalify(a, tags, q), Requalify(b, tags, q), first, end)
  {
  }

  lemma {:induction false} PublishAgrees(a: seq<Snapshot>, b: seq<Snapshot>, updates: seq<Update>, first: TagId,
                                         end: TagId)
    requires AgreeOn(a, b, first, end)
    ensures AgreeOn(Publish(a, updates), Publish(b, updates), first, end)
  {
    if updates != [] {
      PublishAgrees(a, b, updates[..|updates| - 1], first, end);
    }
  }

  lemma ScatterAgrees(a: seq<Snapshot>, b: seq<Snapshot>, txn: Transaction, resp: Response, first: TagId, end: TagId)
    requires AgreeOn(a, b, first, end)
    ensures AgreeOn(AfterScatter(a, txn, resp), AfterScatter(b, txn, resp), first, end)
  {
    var s := Scatter(txn, resp);
    PublishAgrees(a, b, s.updates, first, end);
    RequalifyAgrees(Publish(a, s.updates), Publish(b, s.updates), s.bad, Bad, first, end);
  }

  // ----- Events -----

  /** The log now says one event more of device `d`, and nothing more of others. */
  ghost predicate NewlyDone(before: Log, log: Log, d: nat, e: Event) {
    forall i: nat :: History(log, i) == History(before, i) + if i == d then [e] else []
  }

  lemma {:induction false} WatchAppends(history: seq<Event>, e: Event, offlineAfter: nat, retry: RetryConfig)
    ensures WatchAfter(history + [e], offlineAfter, retry)
         == AfterEvent(WatchAfter(history, offlineAfter, retry), e, offlineAfter, retry)
  {
    assert (history + [e])[..|history + [e]| - 1] == history;
  }

  lemma {:induction false} EventFollows(devices: seq<DevicePlan>, views: seq<Watch>, before: Log, log: Log, d: nat,
                                        e: Event)
    requires WatchesFollow(devices, views, before) && NewlyDone(before, log, d, e) && d < |devices|
    ensures WatchesFollow(devices,
              views[d := AfterEvent(views[d], e, Threshold(devices[d]), devices[d].retry)], log)
  {
    var next := views[d := AfterEvent(views[d], e, Threshold(devices[d]), devices[d].retry)];
    forall i | 0 <= i < |devices|
      ensures next[i] == WatchOf(devices[i], History(log, i))
    {
      WatchAppends(History(before, i), e, Threshold(devices[i]), devices[i].retry);
      assert History(log, i) == History(before, i) + if i == d then [e] else [];
      assert next[i] == if i == d then AfterEvent(views[i], e, Threshold(devices[i]), devices[i].retry) else views[i];
      assert History(before, i) + [] == History(before, i);
    }
  }

  /** An entry that no watchdog counts. */
  lemma {:induction false} QuietEntry(log: Log, e: Entry)
    requires e.device.None? || !e.settled
    ensures forall i: nat :: History(log + [e], i) == History(log, i)
  {
    assert (log + [e])[..|log|] == log;
    forall i: nat
      ensures History(log + [e], i) == History(log, i)
    {
    }
  }

  lemma {:induction false} CountedEntry(log: Log, e: Entry)
    requires e.device.Some? && e.settled
    ensures NewlyDone(log, log + [e], e.device.value, EventOf(e))
  {
    assert (log + [e])[..|log|] == log;
  }

  // ----- Cache effects -----

  lemma {:induction false} RequalifyKeepsBad(slots: seq<Snapshot>, tags: seq<TagId>, kept: seq<TagId>)
    requires AllBad(slots, kept)
    ensures AllBad(Requalify(slots, tags, Bad), kept)
  {
  }

  /** Marking tags Bad is always safe. */
  lemma {:induction false} BadKeepsDead(devices: seq<DevicePlan>, views: seq<Watch>, swept: bool, slots: seq<Snapshot>,
                                        tags: seq<TagId>)
    requires |views| == |devices| && DeadTagsBad(devices, views, swept, slots)
    ensures DeadTagsBad(devices, views, swept, Requalify(slots, tags, Bad))
  {
    forall d | 0 <= d < |devices| && (swept || !views[d].online)
      ensures AllBad(Requalify(slots, tags, Bad), devices[d].allTags)
    {
      RequalifyKeepsBad(slots, tags, devices[d].allTags);
    }
  }

  /** A device that crosses its threshold has its tags swept. */
  lemma {:induction false} SweepDevice(devices: seq<DevicePlan>, views: seq<Watch>, swept: bool, slots: seq<Snapshot>,
                                       d: nat, w: Watch)
    requires |views| == |devices| && d < |devices| && DeadTagsBad(devices, views, swept, slots)
    ensures DeadTagsBad(devices, views[d := w], swept, Requalify(slots, devices[d].allTags, Bad))
  {
    var next := Requalify(slots, devices[d].allTags, Bad);
    forall e | 0 <= e < |devices| && (swept || !views[d := w][e].online)
      ensures AllBad(next, devices[e].allTags)
    {
      if e != d {
        RequalifyKeepsBad(slots, devices[d].allTags, devices[e].allTags);
      }
    }
  }

  /** Writes to the tags of an online device leave the dead ones alone. */
  lemma {:induction false} LiveWritesKeepDead(devices: seq<DevicePlan>, views: seq<Watch>, slots: seq<Snapshot>,
                                              next: seq<Snapshot>, d: nat)
    requires |views| == |devices| && d < |devices| && DeadTagsBad(devices, views, false, slots)
    requires views[d].online && PlanOk(devices, |slots|) && |next| == |slots|
    requires forall t :: 0 <= t < |slots| && t !in devices[d].allTags ==> next[t] == slots[t]
    ensures DeadTagsBad(devices, views, false, next)
  {
    forall e | 0 <= e < |devices| && !views[e].online
      ensures AllBad(next, devices[e].allTags)
    {
      assert Disjoint(devices[e], devices[d]);
      assert AllBad(slots, devices[e].allTags);
    }
  }

  /** What one reply writes lies among the transaction's own tags. */
  lemma {:induction false} SliceAllOwnTags(fields: seq<Field>, resp: Response, tags: seq<TagId>)
    requires forall f :: f in fields ==> f.tag in tags
    ensures var s := SliceAll(fields, resp);
            (forall i :: 0 <= i < |s.updates| ==> s.updates[i].0 in tags) && (forall t :: t in s.bad ==> t in tags)
  {
    if fields != [] {
      SliceAllOwnTags(fields[..|fields| - 1], resp, tags);
      assert fields[|fields| - 1] in fields;
    }
  }

  lemma {:induction false} OwnFieldTags(txn: Transaction, tags: seq<TagId>)
    requires forall f :: f in txn.fields ==> f.tag in tags
    ensures forall t :: t in TagsOf(txn.fields) ==> t in tags
  {
    forall t | t in TagsOf(txn.fields)
      ensures t in tags
    {
      var i :| 0 <= i < |txn.fields| && TagsOf(txn.fields)[i] == t;
      assert txn.fields[i] in txn.fields;
    }
  }

  lemma {:induction false} ScatterOwnTags(txn: Transaction, resp: Response, tags: seq<TagId>)
    requires forall f :: f in txn.fields ==> f.tag in tags
    ensures var s := Scatter(txn, resp);
            (forall i :: 0 <= i < |s.updates| ==> s.updates[i].0 in tags) && (forall t :: t in s.bad ==> t in tags)
  {
    SliceAllOwnTags(txn.fields, resp, tags);
    OwnFieldTags(txn, tags);
  }

  lemma {:induction false} ScatterTouches(slots: seq<Snapshot>, txn: Transaction, resp: Response, tags: seq<TagId>)
    requires forall f :: f in txn.fields ==> f.tag in tags
    ensures forall t :: 0 <= t < |slots| && t !in tags ==> AfterScatter(slots, txn, resp)[t] == slots[t]
  {
    var s := Scatter(txn, resp);
    ScatterOwnTags(txn, resp, tags);
    forall t | 0 <= t < |slots| && t !in tags
      ensures AfterScatter(slots, txn, resp)[t] == slots[t]
    {
      PublishTouches(slots, s.updates, t);
    }
  }

  // ----- What is polled -----

  /** What may be polled for a slot of the plan: the planned transaction, or one of
      the singletons of its split. */
  ghost predicate Planned(dev: DevicePlan, group: nat, index: nat, txn: Transaction) {
    && group < |dev.byGroup| && index < |dev.byGroup[group]|
    && OwnTags(dev, txn)
    && var base := dev.byGroup[group][index];
       (txn == base || (base.coalesced && txn in SplitTxn(base)))
  }

  /** What the slot is polled with now: its planned transaction, until it has been
      split; then the singletons only. */
  ghost predicate InSlot(dev: DevicePlan, overrides: Overrides, group: nat, index: nat, txn: Transaction) {
    && group < |dev.byGroup| && index < |dev.byGroup[group]|
    && txn in Effective(overrides, group, index, dev.byGroup[group][index])
  }

  lemma {:induction false} EffectiveIsPlanned(dev: DevicePlan, overrides: Overrides, group: nat, index: nat)
    requires OverridesOk(dev, overrides) && PlannedOwnTags(dev)
    requires group < |dev.byGroup| && index < |dev.byGroup[group]|
    ensures forall txn :: txn in Effective(overrides, group, index, dev.byGroup[group][index])
              ==> Planned(dev, group, index, txn)
  {
    var base := dev.byGroup[group][index];
    assert OwnTags(dev, base);
    var txns := Effective(overrides, group, index, base);
    forall txn | txn in txns
      ensures Planned(dev, group, index, txn)
    {
      if (group, index) in overrides {
        var i :| 0 <= i < |txns| && txns[i] == txn;
        assert base.fields[i] in base.fields;
      }
    }
  }

  // ----- Polled requests -----

  ghost predicate PlannedRequest(dev: DevicePlan, req: Request) {
    exists group: nat, index: nat, txn :: Planned(dev, group, index, txn) && txn.req == req
  }

  /** A polled request is one of its device's plan, or of its splits. */
  ghost predicate PolledOk(devices: seq<DevicePlan>, e: Entry) {
    e.kind.Poll? ==>
      && e.device.Some? && e.device.value < |devices|
      && e.unit == devices[e.device.value].unit && PlannedRequest(devices[e.device.value], e.req)
  }

  ghost predicate AllPolledOk(devices: seq<DevicePlan>, log: Log) {
    forall i {:trigger PolledOk(devices, log[i])} :: 0 <= i < |log| ==> PolledOk(devices, log[i])
  }

  lemma {:induction false} PolledOkAppends(devices: seq<DevicePlan>, log: Log, es: Log)
    requires AllPolledOk(devices, log) && AllPolledOk(devices, es)
    ensures AllPolledOk(devices, log + es)
  {
    forall i | 0 <= i < |log + es|
      ensures PolledOk(devices, (log + es)[i])
    {
      assert if i < |log| then PolledOk(devices, log[i]) else PolledOk(devices, es[i - |log|]);
    }
  }

  /** Since entry `n`, device `d` was polled with this request. */
  ghost predicate Asked(log: Log, n: nat, d: nat, req: Request) {
    exists k :: n <= k < |log| && log[k].kind == Poll(0) && log[k].device == Some(d) && log[k].req == req
  }

  // ----- Splits -----

  lemma {:induction false} SplitIsOk(devices: seq<DevicePlan>, overrides: seq<Overrides>, d: nat, group: nat,
                                     index: nat, txn: Transaction, exc: ExceptionCode)
    requires SplitsOk(devices, overrides) && d < |devices|
    requires Planned(devices[d], group, index, txn)
    requires MustSplit(overrides[d], (group, index), txn, exc)
    ensures var next := overrides[d := overrides[d][(group, index) := SplitTxn(txn)]];
            SplitsOk(devices, next) && SplitsKept(overrides, next)
  {
    assert txn == devices[d].byGroup[group][index];
  }
}
