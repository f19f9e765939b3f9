/** Per-device runtime state: `mb-poller/src/device.rs`. The failure counter, the
    online flag and the probe interval are described by the history of the
    device's requests; the split overrides by the transactions they replace. */
module Device {
  import opened MbTypes
  import opened MbProto
  import opened Coalesce
  import opened Reading
  import opened Cache

  const U32_MAX: nat := 0xFFFF_FFFF
  const U64_MAX: nat := 0xFFFF_FFFF_FFFF_FFFF

  datatype RetryConfig = RetryConfig(maxRetries: nat, baseBackoffMs: nat, maxBackoffMs: nat) {
    predicate Valid() {
      baseBackoffMs <= U64_MAX && maxBackoffMs <= U64_MAX
    }
  }

  function SatDouble(ms: nat): nat {
    Min(2 * ms, U64_MAX)
  }

  // ----- The watchdog -----

  /** What a device did with one request, retries included, and when it failed. */
  datatype Event = Answered | Failed(at: nat)

  datatype Edge = WentOffline | BackOnline

  /** `probeAt` is when an offline device is due for its next probe. */
  datatype Watch = Watch(fails: nat, online: bool, probeBackoffMs: nat, probeAt: Option<nat>)

  function NewWatch(retry: RetryConfig): Watch {
    Watch(0, true, retry.baseBackoffMs, None)
  }

  /** `on_success`. */
  function AfterAnswer(w: Watch, retry: RetryConfig): Watch {
    Watch(0, true, retry.baseBackoffMs, None)
  }

  /** `on_comm_failure`. */
  function AfterFailure(w: Watch, offlineAfter: nat, retry: RetryConfig, at: nat): Watch {
    var fails := Min(w.fails + 1, U32_MAX);
    if w.online then
      if fails >= offlineAfter then Watch(fails, false, retry.baseBackoffMs, Some(at + retry.baseBackoffMs))
      else Watch(fails, true, w.probeBackoffMs, None)
    else
      var backoffMs := Min(Max(SatDouble(w.probeBackoffMs), 1), retry.maxBackoffMs);
      Watch(fails, false, backoffMs, Some(at + backoffMs))
  }

  function AfterEvent(w: Watch, e: Event, offlineAfter: nat, retry: RetryConfig): Watch {
    if e.Answered? then AfterAnswer(w, retry) else AfterFailure(w, offlineAfter, retry, e.at)
  }

  function WatchAfter(history: seq<Event>, offlineAfter: nat, retry: RetryConfig): Watch {
    if history == [] then NewWatch(retry)
    else AfterEvent(WatchAfter(history[..|history| - 1], offlineAfter, retry),
                    history[|history| - 1], offlineAfter, retry)
  }

  /** Failures since the last answer, or since the start. */
  function FailuresSinceAnswer(history: seq<Event>): nat {
    if history == [] || history[|history| - 1].Answered? then 0
    else FailuresSinceAnswer(history[..|history| - 1]) + 1
  }

  /** The state changes a history reports, in order. */
  function Edges(history: seq<Event>, offlineAfter: nat, retry: RetryConfig): seq<Edge> {
    if history == [] then []
    else
      var before := WatchAfter(history[..|history| - 1], offlineAfter, retry);
      var after := WatchAfter(history, offlineAfter, retry);
      Edges(history[..|history| - 1], offlineAfter, retry)
      + (if before.online && !after.online then [WentOffline]
         else if !before.online && after.online then [BackOnline] else [])
  }

  /** A delay doubled `k` times from `base`, where zero first becomes one. */
  function Doubled(base: nat, k: nat): nat {
    if k == 0 then base else Max(2 * Doubled(base, k - 1), 1)
  }

  lemma {:induction false} DoubledIsPower(base: nat, k: nat)
    requires base >= 1
    ensures Doubled(base, k) == base * Pow2(k) >= 1
  {
    if k > 0 {
      DoubledIsPower(base, k - 1);
    }
  }

  /** The probe interval after `k` failed probes. */
  function ProbeInterval(retry: RetryConfig, k: nat): nat {
    if k == 0 then retry.baseBackoffMs else Min(Doubled(retry.baseBackoffMs, k), retry.maxBackoffMs)
  }

  /** A device is online exactly while its failures since its last answer stay
      below the threshold; each further failure doubles the probe interval, up to
      the limit; and the next probe is due that long after the last failure. */
  lemma {:induction false} WatchCountsFailures(history: seq<Event>, offlineAfter: nat, retry: RetryConfig)
    requires 1 <= offlineAfter <= U32_MAX && retry.Valid()
    ensures var w := WatchAfter(history, offlineAfter, retry); var n := FailuresSinceAnswer(history);
            && w.fails == Min(n, U32_MAX)
            && (w.online <==> n < offlineAfter)
            && w.probeBackoffMs == ProbeInterval(retry, SatSub(n, offlineAfter))
            && (w.online ==> w.probeAt == None)
            && (!w.online ==>
                  && history != [] && history[|history| - 1].Failed?
                  && w.probeAt == Some(history[|history| - 1].at + ProbeInterval(retry, n - offlineAfter)))
  {
    if history != [] {
      WatchCountsFailures(history[..|history| - 1], offlineAfter, retry);
    }
  }

  /** For a positive base: after k >= 1 failed probes the interval is
      `min(base * 2^k, max)`. */
  lemma ProbeIntervalIsExponential(history: seq<Event>, offlineAfter: nat, retry: RetryConfig)
    requires 1 <= offlineAfter <= U32_MAX && retry.Valid() && retry.baseBackoffMs >= 1
    requires FailuresSinceAnswer(history) > offlineAfter
    ensures var k := FailuresSinceAnswer(history) - offlineAfter;
            WatchAfter(history, offlineAfter, retry).probeBackoffMs
            == Min(retry.baseBackoffMs * Pow2(k), retry.maxBackoffMs)
  {
    WatchCountsFailures(history, offlineAfter, retry);
    DoubledIsPower(retry.baseBackoffMs, FailuresSinceAnswer(history) - offlineAfter);
  }

  /** Going offline and coming back strictly alternate, and the last edge tells
      the state. */
  lemma {:induction false} EdgesAlternate(history: seq<Event>, offlineAfter: nat, retry: RetryConfig)
    ensures var edges := Edges(history, offlineAfter, retry);
            && (forall i :: 0 <= i < |edges| ==> edges[i] == if i % 2 == 0 then WentOffline else BackOnline)
            && (WatchAfter(history, offlineAfter, retry).online <==> |edges| % 2 == 0)
  {
    if history != [] {
      EdgesAlternate(history[..|history| - 1], offlineAfter, retry);
    }
  }

  // ----- Split overrides -----

  type SlotKey = (nat, nat)

  predicate MustSplit(overrides: map<SlotKey, seq<Transaction>>, key: SlotKey, txn: Transaction, exc: ExceptionCode) {
    txn.coalesced && exc.IllegalDataAddress? && key !in overrides
  }

  class DeviceRuntime {
    var fails: nat
    var online: bool
    /** The device's place in the plan. */
    ghost const index: nat
    const offlineAfter: nat
    const retry: RetryConfig
    var probeBackoffMs: nat
    var nextProbeAt: nat
    var splitOverrides: map<SlotKey, seq<Transaction>>

    ghost predicate Valid() {
      1 <= offlineAfter <= U32_MAX && retry.Valid()
    }

    ghost function View(): Watch
      reads this
    {
      Watch(fails, online, probeBackoffMs, if online then None else Some(nextProbeAt))
    }

    constructor (offlineAfter: nat, retry: RetryConfig, now: nat, ghost index: nat)
      requires offlineAfter <= U32_MAX && retry.Valid()
      ensures Valid() && View() == WatchAfter([], this.offlineAfter, retry)
      ensures this.offlineAfter == Max(offlineAfter, 1) && this.retry == retry
      ensures splitOverrides == map[] && this.index == index
    {
      this.index := index;
      this.fails := 0;
      this.online := true;
      this.offlineAfter := Max(offlineAfter, 1);
      this.retry := retry;
      this.probeBackoffMs := retry.baseBackoffMs;
      this.nextProbeAt := now;
      this.splitOverrides := map[];
    }

    /** Any answer, an exception included. */
    method OnSuccess() returns (recovered: bool)
      requires Valid()
      modifies this`fails, this`online, this`probeBackoffMs
      ensures Valid()
      ensures View() == AfterAnswer(old(View()), retry)
      ensures recovered <==> !old(online)
    {
      recovered := !online;
      fails := 0;
      online := true;
      probeBackoffMs := retry.baseBackoffMs;
    }

    /** A timeout or a fatal error. */
    method OnCommFailure(now: nat) returns (crossed: bool)
      requires Valid()
      modifies this`fails, this`online, this`probeBackoffMs, this`nextProbeAt
      ensures Valid()
      ensures View() == AfterFailure(old(View()), offlineAfter, retry, now)
      ensures crossed <==> old(online) && !online
      ensures crossed || !old(online) ==> nextProbeAt == now + probeBackoffMs
    {
      fails := Min(fails + 1, U32_MAX);
      crossed := false;
      if online {
        if fails >= offlineAfter {
          online := false;
          probeBackoffMs := retry.baseBackoffMs;
          nextProbeAt := now + probeBackoffMs;
          crossed := true;
        }
      } else {
        probeBackoffMs := Min(Max(SatDouble(probeBackoffMs), 1), retry.maxBackoffMs);
        nextProbeAt := now + probeBackoffMs;
      }
    }

    /** The gate that skips a dead device until its next probe is due. */
    predicate IsOfflineAndNotDueToProbe(now: nat)
      reads this
    {
      !online && now < nextProbeAt
    }

    function EffectiveTxns(group: nat, index: nat): Option<seq<Transaction>>
      reads this
    {
      if (group, index) in splitOverrides then Some(splitOverrides[(group, index)]) else None
    }

    /** An exception either splits a coalesced read, once, or marks the tags of
        this transaction Bad. */
    method HandleException(group: nat, index: nat, txn: Transaction, exc: ExceptionCode, sink: TagCache)
      returns (split: bool)
      requires forall f :: f in txn.fields ==> f.tag < |sink.slots|
      modifies this`splitOverrides, sink
      ensures split <==> exc == IllegalDataAddress && txn.coalesced && (group, index) !in old(splitOverrides)
      ensures splitOverrides == if split then old(splitOverrides)[(group, index) := SplitTxn(txn)]
                              else old(splitOverrides)
      ensures sink.slots == if split then old(sink.slots) else Requalify(old(sink.slots), TagsOf(txn.fields), Bad)
      ensures sink.sent == if split then old(sink.sent) else old(sink.sent) + [TagsOf(txn.fields)]
    {
      if MustSplit(splitOverrides, (group, index), txn, exc) {
        var subs := SplitTxn(txn);
        splitOverrides := splitOverrides[(group, index) := subs];
        return true;
      }
      sink.SetDeviceQuality(TagsOf(txn.fields), Bad);
      return false;
    }
  }
}
