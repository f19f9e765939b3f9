/** The task that owns one physical channel: `mb-poller/src/channel.rs`. Replies,
    connection attempts, arrivals of commands, the shutdown signal and the clock
    are arbitrary; a channel built over a bench answers every request from fixed
    device memories instead. Each step refines one of `ChannelMachine`. A method
    hides the predicates that it hands on without looking into them. */
module Channel {
  import opened MbTypes
  import opened MbProto
  import opened Coalesce
  import opened Reading
  import opened Cache
  import opened Device
  import opened Wire
  import opened Ticks
  import opened ChannelLaws
  import opened ChannelMachine
  import opened TickLaws

  /** What a poll tick or a serviced command asks the connection loop to do. */
  datatype Outcome = Continue | Reconnect

  /** What one polled transaction asks the tick to do. */
  datatype TxnOutcome = NextTxn | SkipDevice | DropLink

  class ChannelTask {
    const devices: seq<DevicePlan>
    const retry: RetryConfig
    const halfDuplex: bool
    const interRequestDelayMs: nat
    const rt: seq<DeviceRuntime>
    const devIndex: map<nat, nat>
    const sink: TagCache
    const tagCount: nat
    /** The channel's own tags; other tasks write the other slots. */
    const tagStart: TagId
    const tagEnd: TagId
    const bench: Option<Byte -> Memory>

    var now: nat
    /** Every command not yet taken, in the order of submission; the first
        `queued` of them are in the queue, the others have yet to be submitted. */
    var inbox: seq<WriteCommand>
    var queued: nat

    /** Set once shutdown has been requested, and never taken back. */
    var stopping: bool
    /** The reply to each command taken, in order. */
    var answers: seq<Reply>

    var counters: Counters
    var reconnects: nat
    var writesOk: nat
    var writesErr: nat

    var consecTimeouts: nat
    var healthy: bool
    var swept: bool
    var backoffMs: nat

    /** The abstract state, and every one since the task was spawned. */
    ghost var st: Task
    ghost var run: seq<Task>
    /** Every request that the transport was asked for. */
    ghost var wire: seq<Call>

    // ----- The abstract state and the real one -----

    ghost function Cfg(): Config {
      Config(devices, retry, halfDuplex, GapMs(), tagCount)
    }

    /** The silent gap between two requests of a connection. */
    function GapMs(): nat {
      if halfDuplex then interRequestDelayMs else 0
    }

    /** The watchdogs and the remembered splits of the device records. */
    ghost predicate Records(views: seq<Watch>, overrides: seq<Overrides>)
      reads rt
    {
      && |rt| == |views| == |overrides|
      && forall d :: 0 <= d < |rt| ==> rt[d].View() == views[d] && rt[d].splitOverrides == overrides[d]
    }

    /** One runtime record per planned device, and an index of device identities. */
    ghost predicate Built() {
      match Cfg()
      case Config(plans, _, _, _, _) =>
        && |rt| == |plans|
        && (forall d :: 0 <= d < |rt| ==>
              (rt[d].index == d && rt[d].Valid()
               && rt[d].offlineAfter == Threshold(plans[d]) && rt[d].retry == plans[d].retry))
        && (forall id :: id in devIndex ==> devIndex[id] < |plans| && plans[devIndex[id]].id == id)
        && (forall d :: 0 <= d < |plans| ==> plans[d].id in devIndex)
        && Cfg().Valid() && tagStart <= tagEnd && TagsWithin(plans, tagStart, tagEnd)
    }

    /** The channel's own part of the cache. */
    ghost predicate Shows(slots: seq<Snapshot>)
      reads sink
    {
      AgreeOn(sink.slots, slots, tagStart, tagEnd)
    }

    /** The device records and the channel's slots are those of the abstract state. */
    ghost predicate Linked()
      reads this`st, rt, sink
    {
      && Built() && |st.slots| == tagCount
      && Records(st.views, st.overrides) && Shows(st.slots)
    }

    /** The task's own fields are those of the abstract state, but for the traffic. */
    ghost predicate Tied(s: Task)
      reads this`answers, this`writesOk, this`writesErr, this`reconnects, this`backoffMs
      reads this`consecTimeouts, this`healthy, this`swept
    {
      && answers == s.orders.answers && writesOk == s.orders.writesOk && writesErr == s.orders.writesErr
      && reconnects == s.pauses.reconnects && backoffMs == s.pauses.backoffMs
      && consecTimeouts == s.consec && healthy == s.healthy && swept == s.swept
    }

    /** The requests so far are counted, and over. */
    ghost predicate Counted(traffic: Traffic)
      reads this`counters, this`wire, this`now, this`queued, this`inbox
    {
      counters == traffic.counters && wire == traffic.wire && traffic.endedAt <= now && queued <= |inbox|
    }

    /** The abstract state is reached by a run of the machine. */
    ghost predicate Reached()
      reads this`st, this`run
    {
      RunOk(Cfg(), run) && Last(run) == st
    }

    ghost predicate Valid()
      reads this, rt, sink
    {
      Linked() && Tied(st) && Counted(st.traffic) && Reached()
    }

    /** The connection has come to its end. */
    ghost predicate Broken()
      reads this`st
    {
      Spent(st.log, halfDuplex, st.conn)
    }

    /** The silent gap after the last request is over. */
    ghost predicate LineFree()
      reads this`st, this`now
    {
      Quiet(st.log, GapMs(), st.conn, now)
    }

    /** Connected, and the next request may be sent now. */
    ghost predicate Ready()
      reads this, rt, sink
    {
      Connected() && LineFree()
    }

    /** Time goes on, and what is on the wire stays; a shutdown is not taken back. */
    twostate predicate Onward()
      reads this`st, this`now, this`stopping
    {
      && old(st).log <= st.log && old(st).conn <= st.conn && |old(st).taken| <= |st.taken|
      && old(now) <= now && (old(stopping) ==> stopping)
    }

    /** Connected, and the connection may carry another request. */
    ghost predicate Connected()
      reads this, rt, sink
    {
      Valid() && Alive(Cfg(), st)
    }

    /** Every device is online, and answers from a fixed memory. */
    ghost predicate Serving()
      reads this`st
    {
      bench.Some? && AllOnline(st.views)
    }

    static ghost predicate IsNew(r: DeviceRuntime, d: nat, dev: DevicePlan)
      reads r
    {
      && r.Valid() && r.offlineAfter == Threshold(dev) && r.retry == dev.retry
      && r.splitOverrides == map[] && r.View() == NewWatch(dev.retry) && r.index == d
    }

    constructor (devices: seq<DevicePlan>, retry: RetryConfig, halfDuplex: bool, interRequestDelayMs: nat,
                 tagStart: TagId, tagEnd: TagId, sink: TagCache, bench: Option<Byte -> Memory>,
                 submissions: seq<WriteCommand>)
      requires PlanOk(devices, |sink.slots|) && retry.Valid()
      requires tagStart <= tagEnd <= |sink.slots| && TagsWithin(devices, tagStart, tagEnd)
      requires forall d, e :: 0 <= d < e < |devices| ==> devices[d].id != devices[e].id
      ensures Valid() && fresh(rt)
      ensures this.devices == devices && this.sink == sink && this.bench == bench
      ensures this.tagStart == tagStart && this.tagEnd == tagEnd
      ensures Spawned(Cfg(), st) && st.slots == old(sink.slots) && !healthy && !stopping
      ensures Commands() == submissions
    {
      var built := BuildRuntimes(devices);
      var index := BuildIndex(devices);
      ghost var gapMs := if halfDuplex then interRequestDelayMs else 0;
      this.devices, this.retry, this.halfDuplex := devices, retry, halfDuplex;
      this.interRequestDelayMs, this.sink, this.bench := interRequestDelayMs, sink, bench;
      this.tagCount, this.tagStart, this.tagEnd := |sink.slots|, tagStart, tagEnd;
      this.rt, this.devIndex := built, index;
      this.now, this.inbox, this.queued := 0, submissions, 0;
      this.counters := Counters(0, 0, 0, 0, 0);
      this.reconnects, this.writesOk, this.writesErr := 0, 0, 0;
      this.stopping, this.answers, this.wire := false, [], [];
      this.consecTimeouts, this.healthy, this.swept := 0, false, false;
      this.backoffMs := retry.baseBackoffMs;
      this.st := SpawnState(Config(devices, retry, halfDuplex, gapMs, |sink.slots|), sink.slots);
      this.run := [SpawnState(Config(devices, retry, halfDuplex, gapMs, |sink.slots|), sink.slots)];
      new;
      SpawnRuns(Cfg(), sink.slots);
    }

    static method BuildRuntimes(devices: seq<DevicePlan>) returns (built: seq<DeviceRuntime>)
      requires forall d :: 0 <= d < |devices| ==> devices[d].offlineAfter <= U32_MAX && devices[d].retry.Valid()
      ensures |built| == |devices| && fresh(built)
      ensures forall i :: 0 <= i < |built| ==> IsNew(built[i], i, devices[i])
    {
      built := [];
      for d := 0 to |devices|
        invariant |built| == d && fresh(built)
        invariant forall i :: 0 <= i < d ==> IsNew(built[i], i, devices[i])
      {
        var one := new DeviceRuntime(devices[d].offlineAfter, devices[d].retry, 0, d);
        built := built + [one];
      }
    }

    /** Commands name devices by identity, never by position. */
    static method BuildIndex(devices: seq<DevicePlan>) returns (index: map<nat, nat>)
      ensures forall id :: id in index ==> index[id] < |devices| && devices[index[id]].id == id
      ensures forall d :: 0 <= d < |devices| ==> devices[d].id in index
    {
      index := map[];
      for d := 0 to |devices|
        invariant forall id :: id in index ==> index[id] < d && devices[index[id]].id == id
        invariant forall i :: 0 <= i < d ==> devices[i].id in index
      {
        index := index[devices[d].id := d];
      }
    }

    /** The invariants of the machine hold of the abstract state. */
    lemma Invariants()
      requires Valid()
      ensures Inv(Cfg(), st)
    {
      hide Inv;
      EveryRun(Cfg(), run, |run| - 1);
    }

    // What a method needs to know of a state whose parts it does not look into.

    lemma Shape()
      requires Linked() && Reached()
      ensures Cfg().Valid() && |rt| == |devices| == |st.views| == |st.overrides|
      ensures forall d :: 0 <= d < |rt| ==> rt[d].View() == st.views[d] && rt[d].splitOverrides == st.overrides[d]
      ensures forall d :: 0 <= d < |devices| ==>
                PlannedOwnTags(devices[d]) && devices[d].offlineAfter <= U32_MAX && devices[d].retry.Valid()
    {
      RunFacts(Cfg(), run);
    }

    lemma Course()
      requires Linked() && Reached()
      ensures WatchesFollow(devices, st.views, st.log) && SplitsOk(devices, st.overrides)
      ensures |st.taken| == |st.fates| && st.traffic == TrafficOf(st.log) && Paced(st.log, GapMs())
    {
      RunFacts(Cfg(), run);
    }

    lemma OwnTagsFit(d: nat)
      requires Linked() && d < |rt|
      ensures d < |devices| && TagsInRange(devices[d], tagCount)
      ensures forall t :: t in devices[d].allTags ==> tagStart <= t < tagEnd
    {
    }

    /** The last request was one of this connection, or of an earlier one. */
    lemma Quietly()
      requires Linked() && Reached()
      ensures st.log != [] ==> st.log[|st.log| - 1].conn <= st.conn
      ensures st.traffic.endedAt == EndOf(st.log)
    {
      EveryRun(Cfg(), run, |run| - 1);
    }

    lemma Identities()
      requires Linked()
      ensures forall id :: id in devIndex ==> devIndex[id] < |devices| && devices[devIndex[id]].id == id
      ensures forall d :: 0 <= d < |devices| ==> devices[d].id in devIndex
    {
    }

    /** The real state is already that of `next`. */
    ghost predicate Matches(next: Task)
      reads this, rt, sink
    {
      && Built() && |next.slots| == tagCount
      && Records(next.views, next.overrides) && Shows(next.slots)
      && Tied(next) && Counted(next.traffic)
    }

    /** The abstract state takes its next step. */
    ghost method Advance(next: Task)
      requires RunOk(Cfg(), run + [next]) && Matches(next)
      modifies this`st, this`run
      ensures st == next && Valid()
    {
      st := next;
      run := run + [next];
    }

    /** Every command of this task, in the order of submission. */
    ghost function Commands(): seq<WriteCommand>
      reads this
    {
      st.taken + inbox
    }

    // ----- The environment -----

    method Clock() returns (t: nat)
      modifies this`now
      ensures old(now) <= now == t
    {
      var elapsed: nat :| true;
      now := now + elapsed;
      t := now;
    }

    /** Submitters may queue commands at any time. */
    method Arrive()
      requires queued <= |inbox|
      modifies this`queued
      ensures old(queued) <= queued <= |inbox|
    {
      var n: nat :| queued <= n <= |inbox|;
      queued := n;
    }

    /** Meanwhile the tasks of other channels write their own slots. */
    method OthersPublish()
      requires Linked()
      modifies sink
      ensures Linked()
    {
      var next: seq<Snapshot> := *;
      if |next| == tagCount {
        sink.slots := next[..tagStart] + sink.slots[tagStart..tagEnd] + next[tagEnd..];
      }
    }

    /** The shutdown signal may come at any time, and stays. */
    method ShutdownRequested() returns (b: bool)
      modifies this`stopping
      ensures b == stopping && (old(stopping) ==> stopping)
    {
      var signal: bool := *;
      stopping := stopping || signal;
      b := stopping;
    }

    /** One request on the transport. */
    method Request(unit: Byte, req: Request, timeoutMs: nat) returns (reply: Reply, ghost call: Call)
      requires Linked()
      modifies this`now, this`wire, sink
      ensures Linked()
      ensures call == Call(st.conn, unit, req, timeoutMs, old(now), now, reply) && old(now) <= now
      ensures wire == old(wire) + [call]
      ensures bench.Some? ==> reply == MemoryReply(bench.value(unit), req)
    {
      ghost var sentAt := now;
      var _ := Clock();
      OthersPublish();
      if bench.Some? {
        reply := MemoryReply(bench.value(unit), req);
      } else {
        reply := *;
      }
      call := Call(st.conn, unit, req, timeoutMs, sentAt, now, reply);
      wire := wire + [call];
    }

    /** The silent gap after every request on a half-duplex line. */
    method InterRequestGap()
      modifies this`now
      ensures now == old(now) + GapMs()
    {
      if halfDuplex && interRequestDelayMs > 0 {
        now := now + interRequestDelayMs;
      }
    }

    // ----- Effects on the device records and the cache -----

    /** Counts a reply: an answer revives the device and clears the streak of
        timeouts; a failure that crosses the threshold sweeps the device's tags. */
    method CountReply(d: nat, reply: Reply)
      requires Linked() && d < |rt| && consecTimeouts == st.consec && healthy == st.healthy
      modifies this`consecTimeouts, this`healthy, rt[d], sink
      ensures consecTimeouts == NextConsec(st, reply) && healthy == (st.healthy || reply.IsAnswer())
      ensures Shows(CountedSlots(Cfg(), st, d, reply)) && Records(CountedViews(Cfg(), st, d, reply, now), st.overrides)
    {
      if reply.IsAnswer() {
        consecTimeouts, healthy := 0, true;
        Revive(d);
      } else {
        if reply.IsTimeout() {
          consecTimeouts := consecTimeouts + 1;
        }
        CountFailure(d);
      }
    }

    method Revive(d: nat)
      requires Linked() && d < |rt|
      modifies rt[d]
      ensures Records(st.views[d := AfterAnswer(st.views[d], devices[d].retry)], st.overrides)
    {
      var _ := rt[d].OnSuccess();
    }

    method CountFailure(d: nat)
      requires Linked() && d < |rt|
      modifies rt[d], sink
      ensures Shows(DroppedSlots(Cfg(), st, d)) && Records(DroppedViews(Cfg(), st, d, now), st.overrides)
    {
      hide Records, PlanOk;
      OwnTagsFit(d);
      var crossed := RecordFailure(d);
      if crossed {
        RequalifyAgrees(sink.slots, st.slots, devices[d].allTags, Bad, tagStart, tagEnd);
        sink.SetDeviceQuality(devices[d].allTags, Bad);
      }
    }

    method RecordFailure(d: nat) returns (crossed: bool)
      requires Linked() && d < |rt|
      modifies rt[d]
      ensures Records(DroppedViews(Cfg(), st, d, now), st.overrides)
      ensures crossed <==> st.views[d].online && !Endures(Cfg(), st, d)
    {
      crossed := rt[d].OnCommFailure(now);
    }

    /** The request and write counters after a write's reply. */
    method CountWrite(reply: Reply)
      modifies this`counters, this`writesOk, this`writesErr
      ensures counters == Bump(old(counters), reply)
      ensures writesOk == old(writesOk) + (if reply.Ok? then 1 else 0)
      ensures writesErr == old(writesErr) + (if reply.Ok? then 0 else 1)
    {
      counters := Bump(counters, reply);
      if reply.Ok? {
        writesOk := writesOk + 1;
      } else {
        writesErr := writesErr + 1;
      }
    }

    /** `scatter`: one batch for the published fields, one for the bad ones. */
    method ScatterReply(d: nat, txn: Transaction, resp: Response)
      requires Linked() && d < |devices| && OwnTags(devices[d], txn)
      modifies sink
      ensures Shows(AfterScatter(st.slots, txn, resp))
    {
      ScatterAgrees(sink.slots, st.slots, txn, resp, tagStart, tagEnd);
      WriteReply(d, txn, resp);
    }

    method WriteReply(d: nat, txn: Transaction, resp: Response)
      requires Linked() && d < |devices| && OwnTags(devices[d], txn)
      modifies sink
      ensures sink.slots == AfterScatter(old(sink.slots), txn, resp)
    {
      var updates, bad := SliceReply(txn, resp);
      assert TagsInRange(devices[d], tagCount);
      ScatterOwnTags(txn, resp, devices[d].allTags);
      if updates != [] {
        sink.PublishBatch(updates);
      }
      if bad != [] {
        sink.SetDeviceQuality(bad, Bad);
      }
    }

    method ExceptionReply(d: nat, group: nat, index: nat, txn: Transaction, exc: ExceptionCode)
      requires Linked() && d < |devices| && OwnTags(devices[d], txn)
      modifies rt[d], sink
      ensures Records(st.views, AfterException(st, d, group, index, txn, exc).overrides)
      ensures Shows(AfterException(st, d, group, index, txn, exc).slots)
    {
      RequalifyAgrees(sink.slots, st.slots, TagsOf(txn.fields), Bad, tagStart, tagEnd);
      assert TagsInRange(devices[d], tagCount);
      var split := rt[d].HandleException(group, index, txn, exc, sink);
      assert forall e :: 0 <= e < |rt| && e != d ==> rt[e].index != rt[d].index;
    }

    // ----- Polling -----

    /** Every request so far is counted, and on the wire, with the gap between. */
    ghost predicate Carried(log: Log)
      reads this`counters, this`wire
    {
      counters == Tally(log) && wire == Calls(log) && Paced(log, GapMs())
    }

    /** One counted request of a device. */
    method Attempt(d: nat, req: Request, ghost log: Log) returns (res: Reply, ghost call: Call)
      requires Linked() && d < |devices| && Carried(log) && Quiet(log, GapMs(), st.conn, now)
      modifies this`now, this`counters, this`wire, sink
      ensures Linked() && CallFits(Cfg(), st.conn, d, req, call) && call.reply == res
      ensures forall e: Entry :: e.call == call ==> Carried(log + [e])
      ensures old(now) <= now == call.endedAt
      ensures bench.Some? ==> res == MemoryReply(bench.value(devices[d].unit), req)
    {
      res, call := Request(devices[d].unit, req, devices[d].requestTimeoutMs);
      counters := Bump(counters, res);
      forall e: Entry | e.call == call
        ensures Carried(log + [e])
      {
        TallyOfOneMore(log, e);
        CallsOfOneMore(log, e);
        PacedAppends(log, GapMs(), e);
      }
    }

    /** All attempts so far may be retried, and the line is free for the next. */
    ghost predicate Trying(d: nat, req: Request, es: Log)
      requires d < |devices|
      reads this`counters, this`wire, this`st, this`now
    {
      Retried(Cfg(), st.conn, d, req, es) && Carried(st.log + es) && Quiet(st.log + es, GapMs(), st.conn, now)
    }

    /** One attempt, and the gap before the next if there is to be one. */
    method TryOnce(d: nat, req: Request, budget: nat, attempt: nat, ghost es: Log)
      returns (res: Reply, again: bool, ghost es': Log)
      requires Linked() && d < |devices| && attempt == |es| <= budget && Trying(d, req, es)
      modifies this`now, this`counters, this`wire, sink
      ensures Linked() && old(now) <= now && |es'| == |es| + 1
      ensures again ==> |es'| <= budget && Trying(d, req, es')
      ensures !again ==> Exchange(Cfg(), st.conn, d, req, es', res) && Carried(st.log + es')
      ensures !again ==> es'[|es'| - 1].call.endedAt == now
      ensures !again && res == Err(Timeout) && !halfDuplex ==> |es'| == 1 + budget
      ensures !again && (res == Err(Exception(ServerDeviceBusy)) || res == Err(Exception(GatewayTargetDevice))) ==>
                |es'| == 1 + budget
      ensures bench.Some? ==> res == MemoryReply(bench.value(devices[d].unit), req)
    {
      hide Built, Records, Shows, Carried;
      ghost var call;
      res, call := Attempt(d, req, st.log + es);
      again := res.Err? && !res.IsFatal() && IsRetryable(res.error, halfDuplex) && attempt < budget;
      ghost var e := Entry(Poll(attempt), Some(d), call, !again);
      es' := es + [e];
      assert (st.log + es) + [e] == st.log + es';
      if again {
        RetriedGrows(Cfg(), st.conn, d, req, es, call);
        InterRequestGap();
        assert (st.log + es')[|st.log + es'| - 1] == e;
      } else {
        ExchangeCloses(Cfg(), st.conn, d, req, es, call);
      }
    }

    /** One request with its retries on the same connection. */
    method PollWithRetry(d: nat, req: Request, budget: nat) returns (r: Reply, ghost es: Log)
      requires Linked() && d < |devices| && Carried(st.log) && LineFree()
      modifies this`now, this`counters, this`wire, sink
      ensures Linked() && old(now) <= now
      ensures Exchange(Cfg(), st.conn, d, req, es, r) && |es| <= 1 + budget
      ensures r == Err(Timeout) && !halfDuplex ==> |es| == 1 + budget
      ensures r == Err(Exception(ServerDeviceBusy)) || r == Err(Exception(GatewayTargetDevice)) ==> |es| == 1 + budget
      ensures Carried(st.log + es) && es[|es| - 1].call.endedAt == now
      ensures bench.Some? ==> r == MemoryReply(bench.value(devices[d].unit), req)
    {
      var attempt, again := 0, true;
      es := [];
      assert st.log + es == st.log;
      while true
        invariant Linked() && attempt == |es| <= budget && old(now) <= now && Trying(d, req, es)
        decreases budget - attempt
      {
        r, again, es := TryOnce(d, req, budget, attempt, es);
        if !again {
          return;
        }
        attempt := attempt + 1;
      }
    }

    /** The point between a poll's last reply and its effects: `next` is the state
        with the reply counted. */
    ghost predicate Replied(slot: Slot, txn: Transaction, result: Reply, next: Task)
      reads this, sink, rt
    {
      && Linked() && Reached() && RunOk(Cfg(), run + [next])
      && PollEnded(Cfg(), st, next, slot, txn, result, now)
      && Tied(st) && Counted(next.traffic)
    }

    /** The task may poll `txn` for this slot, or deal with the reply to it. */
    ghost predicate Polling(slot: Slot, txn: Transaction)
      reads this`st
    {
      && slot.d < |devices| && CanPoll(Cfg(), st, slot, txn)
      && Planned(devices[slot.d], slot.group, slot.index, txn)
    }

    /** One transaction of a tick, and the write drain at its boundary. */
    method PollTransaction(d: nat, group: nat, index: nat, txn: Transaction) returns (o: TxnOutcome)
      requires Ready() && Polling(Slot(d, group, index), txn)
      modifies this, rt, sink
      ensures Valid() && (o != DropLink ==> Ready()) && SplitsKept(old(st).overrides, st.overrides)
      ensures old(Serving()) ==>
                && o == NextTxn && Serving()
                && PassOf(st) == PollOne(bench.value(devices[d].unit), PassOf(old(st)), d, group, index, txn)
      ensures Commands() == old(Commands()) && Onward()
      ensures Asked(st.log, |old(st).log|, d, txn.req) && |History(st.log, d)| > |History(old(st).log, d)|
      ensures o == SkipDevice ==> FellOffline(st.log, |old(st).log|, devices[d], d)
      ensures o == DropLink ==> Broken()
      ensures o != DropLink && old(queued) > 0 ==> |st.taken| > |old(st).taken|
    {
      hide Built, Records, Shows, RunOk, PlanOk, Reached;
      hide Alive, Asked, FellOffline, History, PollOne;
      var result;
      ghost var next;
      result, next := AskAndCount(d, group, index, txn);
      o := TakeReply(d, group, index, txn, result, next);
      AskedGrows(next.log, st.log, |old(st).log|, |old(st).log|, d, txn.req);
      HistoryGrows(next.log, st.log, d);
    }

    /** The request with its retries, up to the point where its reply takes effect. */
    method AskAndCount(d: nat, group: nat, index: nat, txn: Transaction) returns (result: Reply, ghost next: Task)
      requires Ready() && Polling(Slot(d, group, index), txn)
      modifies this`now, this`counters, this`wire, sink
      ensures Replied(Slot(d, group, index), txn, result, next) && Polling(Slot(d, group, index), txn)
      ensures old(now) <= now && (bench.Some? ==> result == MemoryReply(bench.value(devices[d].unit), txn.req))
    {
      hide Built, Records, Shows, PlanOk, Exchange, PollEnded, Alive, Paced;
      Shape();
      Course();
      var budget := RetryBudget(rt[d].online, devices[d].retry);
      ghost var es;
      result, es := PollWithRetry(d, txn.req, budget);
      next := RunPolls(Cfg(), run, Slot(d, group, index), txn, es, result);
    }

    method TakeReply(d: nat, group: nat, index: nat, txn: Transaction, result: Reply, ghost next: Task)
      returns (o: TxnOutcome)
      requires Replied(Slot(d, group, index), txn, result, next) && Polling(Slot(d, group, index), txn)
      modifies this, rt, sink
      ensures Valid() && (o != DropLink ==> Ready()) && SplitsKept(old(st).overrides, st.overrides)
      ensures old(Serving()) && result == MemoryReply(bench.value(devices[d].unit), txn.req) ==>
                && o == NextTxn && Serving()
                && PassOf(st) == PollOne(bench.value(devices[d].unit), PassOf(old(st)), d, group, index, txn)
      ensures Commands() == old(Commands()) && Onward() && next.log <= st.log
      ensures o == SkipDevice ==> FellOffline(st.log, |old(st).log|, devices[d], d)
      ensures o == DropLink ==> Broken()
      ensures o == NextTxn ==> d < |next.views| && next.views[d].online
      ensures o != DropLink && old(queued) > 0 ==> |st.taken| > |old(st).taken|
    {
      hide Built, Records, Shows, RunOk, PlanOk, Reached, Alive, FellOffline, PollOne;
      if result.IsAnswer() {
        o := ServeAnswer(d, group, index, txn, result, next);
      } else {
        o := FailedPoll(d, group, index, txn, result, next);
      }
    }

    method ServeAnswer(d: nat, group: nat, index: nat, txn: Transaction, result: Reply, ghost next: Task)
      returns (o: TxnOutcome)
      requires result.IsAnswer() && Replied(Slot(d, group, index), txn, result, next)
      requires Polling(Slot(d, group, index), txn)
      modifies this, rt, sink
      ensures Valid() && (o != DropLink ==> Ready()) && o != SkipDevice && Commands() == old(Commands())
      ensures SplitsKept(old(st).overrides, st.overrides) && Onward() && next.log <= st.log
      ensures old(Serving()) && result == MemoryReply(bench.value(devices[d].unit), txn.req) ==>
                && o == NextTxn && Serving()
                && PassOf(st) == PollOne(bench.value(devices[d].unit), PassOf(old(st)), d, group, index, txn)
      ensures o == DropLink ==> Broken()
      ensures o != DropLink && old(queued) > 0 ==> |st.taken| > |old(st).taken|
    {
      hide Built, Records, Shows, RunOk, PlanOk, Reached, Alive, FellOffline, PollOne;
      TakeAnswer(d, group, index, txn, result, next);
      var drained := Boundary();
      o := if drained.Reconnect? then DropLink else NextTxn;
    }

    /** On a bench, this answer is one step of the pass. */
    method TakeAnswer(d: nat, group: nat, index: nat, txn: Transaction, result: Reply, ghost next: Task)
      requires result.IsAnswer() && Replied(Slot(d, group, index), txn, result, next)
      requires Polling(Slot(d, group, index), txn)
      modifies this`consecTimeouts, this`healthy, this`st, this`run, rt, sink
      ensures Connected() && Commands() == old(Commands()) && SplitsKept(old(st).overrides, st.overrides)
      ensures st.log == next.log && st.conn == old(st).conn
      ensures old(Serving()) && result == MemoryReply(bench.value(devices[d].unit), txn.req) ==>
                && Serving()
                && PassOf(st) == PollOne(bench.value(devices[d].unit), PassOf(old(st)), d, group, index, txn)
    {
      hide Built, Records, Shows, RunOk, PlanOk, Reached;
      ghost var s := st;
      AnsweredPoll(d, group, index, txn, result, next);
      if bench.Some? && result == MemoryReply(bench.value(devices[d].unit), txn.req) {
        AnswerIsPollOne(Cfg(), bench.value(devices[d].unit), s, st, d, group, index, txn, result);
      }
    }

    method AnsweredPoll(d: nat, group: nat, index: nat, txn: Transaction, result: Reply, ghost next: Task)
      requires result.IsAnswer() && Replied(Slot(d, group, index), txn, result, next)
      requires Polling(Slot(d, group, index), txn)
      modifies this`consecTimeouts, this`healthy, this`st, this`run, rt, sink
      ensures Connected() && SplitsKept(old(st).overrides, st.overrides)
      ensures st.taken == old(st).taken && st.log == next.log && st.conn == old(st).conn
      ensures AnswerTaken(Cfg(), old(st), st, d, group, index, txn, result)
      ensures st.slots == SlotsAfter(Cfg(), old(st), Slot(d, group, index), txn, result)
    {
      hide Built, Records, Shows, RunOk, PlanOk, Reached;
      ghost var s := st;
      SettlePoll(Slot(d, group, index), txn, result, next);
      ghost var t := st;
      if result.Ok? {
        PublishReply(Slot(d, group, index), txn, result.resp);
      } else {
        RefuseReply(d, group, index, txn, result.error.code);
      }
      AnswerIsTaken(Cfg(), s, t, st, d, group, index, txn, result, now);
    }

    /** The watchdogs, the health flag and the streak of timeouts after a poll. */
    method SettlePoll(slot: Slot, txn: Transaction, result: Reply, ghost next: Task)
      requires Replied(slot, txn, result, next) && Polling(slot, txn)
      modifies this`consecTimeouts, this`healthy, this`st, this`run, rt, sink
      ensures Valid() && !st.swept && ReplyCounted(Cfg(), old(st), st, slot.d, result, now)
      ensures Polling(slot, txn) && JustReplied(st, slot.d, txn.req, result)
      ensures result.IsAnswer() ==> Connected() && st.views[slot.d].online
      ensures !result.IsFatal() && !(halfDuplex && consecTimeouts >= 2) ==> Connected()
      ensures st.taken == old(st).taken && st.log == next.log && st.conn == old(st).conn
      ensures st == next
    {
      hide Built, Records, Shows, RunOk, PlanOk;
      Shape();
      CountReply(slot.d, result);
      Advance(next);
    }

    method PublishReply(slot: Slot, txn: Transaction, resp: Response)
      requires Connected() && Polling(slot, txn) && st.views[slot.d].online
      requires JustReplied(st, slot.d, txn.req, Ok(resp))
      modifies this`st, this`run, sink
      ensures Connected() && st == old(st).(slots := AfterScatter(old(st).slots, txn, resp))
      ensures st.taken == old(st).taken
    {
      hide Built, Records, Shows, RunOk, PlanOk;
      Shape();
      RunPublishes(Cfg(), run, slot, txn, resp);
      ScatterReply(slot.d, txn, resp);
      Advance(st.(slots := AfterScatter(st.slots, txn, resp)));
    }

    method RefuseReply(d: nat, group: nat, index: nat, txn: Transaction, exc: ExceptionCode)
      requires Connected() && Polling(Slot(d, group, index), txn)
      requires JustReplied(st, d, txn.req, Err(Exception(exc)))
      modifies this`st, this`run, rt, sink
      ensures Connected() && st == AfterException(old(st), d, group, index, txn, exc)
      ensures st.taken == old(st).taken && st.log == old(st).log && st.conn == old(st).conn
    {
      hide Built, Records, Shows, RunOk, PlanOk;
      Shape();
      RunRefuses(Cfg(), run, Slot(d, group, index), txn, exc);
      ExceptionReply(d, group, index, txn, exc);
      Advance(AfterException(st, d, group, index, txn, exc));
    }

    /** A poll that brought no answer. A device found offline is left for this tick. */
    method FailedPoll(d: nat, group: nat, index: nat, txn: Transaction, result: Reply, ghost next: Task)
      returns (o: TxnOutcome)
      requires !result.IsAnswer() && Replied(Slot(d, group, index), txn, result, next)
      requires Polling(Slot(d, group, index), txn)
      modifies this, rt, sink
      ensures Valid() && (o != DropLink ==> Ready()) && st.overrides == old(st).overrides
      ensures Commands() == old(Commands()) && Onward() && next.log <= st.log
      ensures result.IsFatal() ==> o == DropLink
      ensures !result.IsFatal() ==> NoneGood(txn)
      ensures o == SkipDevice ==> FellOffline(st.log, |old(st).log|, devices[d], d)
      ensures o == DropLink ==> Broken()
      ensures d < |next.views| && (o == NextTxn ==> next.views[d].online)
      ensures o == SkipDevice ==> !next.views[d].online
      ensures o != DropLink && old(queued) > 0 ==> |st.taken| > |old(st).taken|
    {
      hide Built, Records, Shows, RunOk, PlanOk, Reached;
      hide Alive, FellOffline, NoneGood, Spent;
      SettleFailure(Slot(d, group, index), txn, result, next);
      Shape();
      if result.IsFatal() || (halfDuplex && consecTimeouts >= 2) {
        return DropLink;
      }
      o := PastFailure(d, txn, |old(st).log|);
    }

    /** A device found offline is left for this tick. */
    method PastFailure(d: nat, txn: Transaction, ghost before: nat) returns (o: TxnOutcome)
      requires Connected() && d < |devices| == |st.views| && NoneGood(txn) && before <= |st.log|
      modifies this, rt, sink
      ensures Valid() && (o != DropLink ==> Ready()) && (o == DropLink ==> Broken())
      ensures st.overrides == old(st).overrides && NoneGood(txn)
      ensures Commands() == old(Commands()) && Onward()
      ensures o == SkipDevice ==> !old(st).views[d].online
      ensures o == SkipDevice ==> FellOffline(st.log, before, devices[d], d)
      ensures o == NextTxn ==> old(st).views[d].online
      ensures o != DropLink && old(queued) > 0 ==> |st.taken| > |old(st).taken|
    {
      hide Built, Records, Shows, RunOk, PlanOk, Reached, Alive, Spent, FellOffline;
      Shape();
      var skip := !rt[d].online;
      if skip {
        OfflineSince(d, before);
      }
      ghost var log := st.log;
      var drained := Boundary();
      if skip {
        FellOfflineGrows(log, st.log, before, before, devices[d], d);
      }
      o := if drained.Reconnect? then DropLink else if skip then SkipDevice else NextTxn;
    }

    lemma OfflineSince(d: nat, n: nat)
      requires Valid() && d < |devices| && !rt[d].online && n <= |st.log|
      ensures FellOffline(st.log, n, devices[d], d)
    {
      Invariants();
      OfflineNow(st.log, n, devices[d], d, st.views[d]);
    }

    ghost predicate NoneGood(txn: Transaction)
      reads this`st
    {
      forall f :: f in txn.fields && f.tag < |st.slots| ==> st.slots[f.tag].quality != Good
    }

    /** The watchdogs after a failure, and the tags of a timed-out read. */
    method SettleFailure(slot: Slot, txn: Transaction, result: Reply, ghost next: Task)
      requires !result.IsAnswer() && Replied(slot, txn, result, next) && Polling(slot, txn)
      modifies this`consecTimeouts, this`healthy, this`st, this`run, rt, sink
      ensures Valid() && st.overrides == old(st).overrides && st.taken == old(st).taken
      ensures st.log == next.log && st.conn == old(st).conn
      ensures !result.IsFatal() && !(halfDuplex && consecTimeouts >= 2) ==> Connected()
      ensures !result.IsFatal() ==> NoneGood(txn)
      ensures st.slots == SlotsAfter(Cfg(), old(st), slot, txn, result)
      ensures st.views == next.views && st.consec == next.consec
    {
      hide Built, Records, Shows, RunOk, PlanOk, Reached, AfterException, AfterScatter, PollEnded;
      SettlePoll(slot, txn, result, next);
      Shape();
      if result.IsFatal() {
        return;
      }
      if rt[slot.d].online {
        DegradeTxn(slot, txn);
      } else {
        OfflineTagsAreBad(slot.d, txn);
      }
    }

    lemma OfflineTagsAreBad(d: nat, txn: Transaction)
      requires Valid() && d < |devices| && !rt[d].online && OwnTags(devices[d], txn)
      ensures forall f :: f in txn.fields && f.tag < |st.slots| ==> st.slots[f.tag].quality == Bad
    {
      Invariants();
      assert AllBad(st.slots, devices[d].allTags);
      OwnFieldTags(txn, devices[d].allTags);
    }

    /** The tags of a timed-out read on a device that is still online. */
    method DegradeTxn(slot: Slot, txn: Transaction)
      requires Valid() && !st.swept && Polling(slot, txn) && st.views[slot.d].online
      requires JustReplied(st, slot.d, txn.req, Err(Timeout))
      modifies this`st, this`run, sink
      ensures Valid() && (Alive(Cfg(), old(st)) ==> Alive(Cfg(), st)) && st.views == old(st).views
      ensures st == old(st).(slots := Requalify(old(st).slots, TagsOf(txn.fields), Uncertain))
      ensures forall f :: f in txn.fields && f.tag < |st.slots| ==> st.slots[f.tag].quality == Uncertain
    {
      RunDegrades(Cfg(), run, slot, txn);
      OwnFieldTags(txn, devices[slot.d].allTags);
      assert TagsInRange(devices[slot.d], tagCount);
      RequalifyAgrees(sink.slots, st.slots, TagsOf(txn.fields), Uncertain, tagStart, tagEnd);
      sink.DegradeUncertain(TagsOf(txn.fields));
      Advance(st.(slots := Requalify(st.slots, TagsOf(txn.fields), Uncertain)));
    }

    // ----- Commands -----

    /** A command answered without reaching the wire. */
    method Dispose(cmd: WriteCommand, fate: Fate)
      requires !fate.Sent? && FateFits(cmd, fate) && Valid()
      modifies this`writesErr, this`answers, this`st, this`run
      ensures Valid() && (old(Connected()) ==> Connected())
      ensures st.taken == old(st).taken + [cmd] && st.fates == old(st).fates + [fate] && OnlyAnswers(old(st), st)
    {
      hide Built, Records, Shows, RunOk, PlanOk;
      Shape();
      ghost var next := RunDisposes(Cfg(), run, cmd, fate);
      answers := answers + [ReplyTo(fate)];
      if !fate.RefusedDiagnostic? {
        writesErr := writesErr + 1;
      }
      Advance(next);
    }

    /** What becomes of a command admitted at this time: past its deadline or given
        up by its submitter it is dropped, unsent; a diagnostic may only read; a
        write needs a device of the plan; everything else is sent. */
    ghost predicate Handled(cmd: WriteCommand, admittedAt: nat, fate: Fate) {
      && (admittedAt > cmd.deadline || cmd.closed ==> fate == Expired)
      && (admittedAt <= cmd.deadline && !cmd.closed ==>
            match cmd.diagnostic
            case Some(_) => if cmd.req.Read? then fate.Sent? else fate == RefusedDiagnostic
            case None =>
              if exists d :: 0 <= d < |devices| && devices[d].id == cmd.device then fate.Sent?
              else fate == UnknownDevice)
    }

    /** One command, answered before its outcome is acted on. */
    method ServiceWrite(cmd: WriteCommand) returns (o: Outcome, ghost admittedAt: nat, ghost fate: Fate)
      requires Ready()
      modifies this`now, this`counters, this`consecTimeouts, this`healthy, this`wire, this`answers
      modifies this`writesOk, this`writesErr, this`st, this`run, rt, sink
      ensures Valid() && (o.Continue? ==> Connected()) && Onward()
      ensures st.taken == old(st).taken + [cmd] && st.fates == old(st).fates + [fate]
      ensures old(now) <= admittedAt && Handled(cmd, admittedAt, fate)
      ensures old(Serving()) ==> o.Continue? && Serving() && PassOf(st) == PassOf(old(st))
      ensures OnlyFalls(old(st).slots, st.slots) && st.overrides == old(st).overrides
      ensures o.Reconnect? ==> Broken()
    {
      hide Built, Records, Shows, RunOk, PlanOk, Reached, Alive;
      Identities();
      var t := Clock();
      admittedAt := t;
      if t > cmd.deadline || cmd.closed {
        Dispose(cmd, Expired);
        return Continue, t, Expired;
      }
      match cmd.diagnostic {
        case Some(target) =>
          if !cmd.req.Read? {
            Dispose(cmd, RefusedDiagnostic);
            return Continue, t, RefusedDiagnostic;
          }
          o, fate := Diagnose(cmd, target, t);
        case None =>
          if cmd.device !in devIndex {
            Dispose(cmd, UnknownDevice);
            return Continue, t, UnknownDevice;
          }
          o, fate := WriteTo(cmd, devIndex[cmd.device], t);
      }
    }

    /** A command's request, waited for no longer than its deadline. */
    method SendBy(cmd: WriteCommand, unit: Byte, limitMs: nat) returns (reply: Reply, ghost call: Call)
      requires Ready()
      modifies this`now, this`wire, sink
      ensures Returned(call) && call.reply == reply && SentAs(st, cmd, unit, limitMs, call)
      ensures old(now) <= call.sentAt <= call.endedAt && Quiet(st.log, GapMs(), st.conn, call.sentAt)
      ensures bench.Some? ==> reply.IsAnswer()
    {
      var sentAt := Clock();
      reply, call := Request(unit, cmd.req, Min(limitMs, SatSub(cmd.deadline, sentAt)));
    }

    /** The point between a command's reply and its effects. */
    ghost predicate Returned(call: Call)
      reads this, rt, sink
    {
      && Linked() && Reached() && Alive(Cfg(), st)
      && Tied(st) && counters == st.traffic.counters && wire == st.traffic.wire + [call] && call.endedAt == now
      && queued <= |inbox|
    }

    method Diagnose(cmd: WriteCommand, target: DiagnosticTarget, ghost admittedAt: nat)
      returns (o: Outcome, ghost fate: Fate)
      requires Ready() && cmd.diagnostic == Some(target) && cmd.req.Read? && admittedAt <= cmd.deadline
      requires admittedAt <= now
      modifies this`now, this`counters, this`consecTimeouts, this`healthy, this`wire, this`answers, this`st, this`run
      modifies sink
      ensures Valid() && (o.Continue? ==> Connected()) && Onward()
      ensures st.taken == old(st).taken + [cmd] && PassOf(st) == PassOf(old(st)) && st.views == old(st).views
      ensures fate.Sent? && st.fates == old(st).fates + [fate]
      ensures bench.Some? ==> o.Continue?
      ensures o.Reconnect? ==> Broken()
    {
      hide Built, Records, Shows, RunOk, PlanOk;
      var reply;
      ghost var call;
      reply, call := SendBy(cmd, target.unit, target.timeoutMs);
      Shape();
      ghost var next := RunDiagnoses(Cfg(), run, cmd, target, admittedAt, call);
      fate := Sent(reply);
      SettleDiagnostic(cmd, reply, next);
      o := if reply.IsFatal() || (halfDuplex && reply.IsTimeout()) then Reconnect else Continue;
    }

    /** The books after a diagnostic's reply; no watchdog and no tag is touched. */
    method SettleDiagnostic(cmd: WriteCommand, reply: Reply, ghost next: Task)
      requires Linked() && Reached() && RunOk(Cfg(), run + [next]) && Tied(st) && counters == st.traffic.counters
      requires wire == next.traffic.wire && next.traffic.endedAt == now && queued <= |inbox|
      requires exists e: Entry :: e.reply == reply && SentTo(st, next, cmd, e)
      requires PassOf(next) == PassOf(st) && next.views == st.views
      requires next.healthy == (st.healthy || reply.IsAnswer())
      requires next.consec == if reply.IsAnswer() then 0 else st.consec
      requires next.orders.writesOk == st.orders.writesOk && next.orders.writesErr == st.orders.writesErr
      modifies this`counters, this`consecTimeouts, this`healthy, this`answers, this`st, this`run
      ensures Valid() && st == next
    {
      hide Built, Records, Shows, RunOk, PlanOk;
      counters := Bump(counters, reply);
      answers := answers + [reply];
      if reply.IsAnswer() {
        healthy, consecTimeouts := true, 0;
      }
      Advance(next);
    }

    method WriteTo(cmd: WriteCommand, d: nat, ghost admittedAt: nat) returns (o: Outcome, ghost fate: Fate)
      requires Ready() && cmd.diagnostic.None? && admittedAt <= cmd.deadline && admittedAt <= now
      requires d < |devices| && devices[d].id == cmd.device
      modifies this`now, this`counters, this`consecTimeouts, this`healthy, this`wire, this`answers
      modifies this`writesOk, this`writesErr, this`st, this`run, rt, sink
      ensures Valid() && (o.Continue? ==> Connected()) && Onward()
      ensures st.taken == old(st).taken + [cmd]
      ensures fate.Sent? && st.fates == old(st).fates + [fate]
      ensures old(Serving()) ==> o.Continue? && Serving() && PassOf(st) == PassOf(old(st))
      ensures OnlyFalls(old(st).slots, st.slots) && st.overrides == old(st).overrides
      ensures o.Reconnect? ==> Broken()
    {
      hide Built, Records, Shows, RunOk, PlanOk, OnlyFalls, PassOf;
      var reply;
      ghost var call;
      reply, call := SendBy(cmd, devices[d].unit, devices[d].requestTimeoutMs);
      Shape();
      ghost var next := RunWrites(Cfg(), run, d, cmd, admittedAt, call);
      fate := Sent(reply);
      SettleWrite(cmd, d, reply, next);
      o := if reply.IsFatal() || (halfDuplex && reply.IsTimeout()) then Reconnect else Continue;
    }

    /** The books and the watchdog after a write's reply. */
    method SettleWrite(cmd: WriteCommand, d: nat, reply: Reply, ghost next: Task)
      requires Linked() && Reached() && RunOk(Cfg(), run + [next]) && Tied(st) && counters == st.traffic.counters
      requires wire == next.traffic.wire && next.traffic.endedAt == now && queued <= |inbox| && d < |rt|
      requires exists e: Entry :: e.reply == reply && SentTo(st, next, cmd, e)
      requires ReplyCounted(Cfg(), st, next, d, reply, now)
      requires next.orders.writesOk == st.orders.writesOk + (if reply.Ok? then 1 else 0)
      requires next.orders.writesErr == st.orders.writesErr + (if reply.Ok? then 0 else 1)
      modifies this`counters, this`consecTimeouts, this`healthy, this`answers
      modifies this`writesOk, this`writesErr, this`st, this`run, rt, sink
      ensures Valid() && st == next
    {
      hide Built, Records, Shows, RunOk, PlanOk;
      answers := answers + [reply];
      CountWriteReply(d, reply);
      Advance(next);
    }

    /** What a reply to a write changes. */
    method CountWriteReply(d: nat, reply: Reply)
      requires Linked() && d < |rt| && consecTimeouts == st.consec && healthy == st.healthy
      modifies this`counters, this`consecTimeouts, this`healthy, this`writesOk, this`writesErr, rt[d], sink
      ensures counters == Bump(old(counters), reply)
      ensures writesOk == old(writesOk) + (if reply.Ok? then 1 else 0)
      ensures writesErr == old(writesErr) + (if reply.Ok? then 0 else 1)
      ensures consecTimeouts == NextConsec(st, reply) && healthy == (st.healthy || reply.IsAnswer())
      ensures Shows(CountedSlots(Cfg(), st, d, reply)) && Records(CountedViews(Cfg(), st, d, reply, now), st.overrides)
    {
      CountWrite(reply);
      CountReply(d, reply);
    }

    /** A transaction boundary: the silent gap, then the queued commands. */
    method Boundary() returns (o: Outcome)
      requires Connected()
      modifies this, rt, sink
      ensures Valid() && (o.Continue? ==> Ready())
      ensures old(Serving()) ==> o.Continue? && Serving() && PassOf(st) == PassOf(old(st))
      ensures Commands() == old(Commands()) && Onward()
      ensures OnlyFalls(old(st).slots, st.slots) && st.overrides == old(st).overrides
      ensures o.Reconnect? ==> Broken()
      ensures o.Continue? && old(queued) > 0 ==> |st.taken| > |old(st).taken|
      ensures o.Continue? && queued > 0 ==> |st.taken| > |old(st).taken| && st.taken[|st.taken| - 1].diagnostic.Some?
    {
      hide Built, Records, Shows, RunOk, PlanOk, Reached, Alive;
      Quietly();
      InterRequestGap();
      o := DrainPendingWrites();
    }

    /** Services queued commands up to the first diagnostic. */
    method DrainPendingWrites() returns (o: Outcome)
      requires Ready()
      modifies this, rt, sink
      ensures Valid() && (o.Continue? ==> Ready())
      ensures old(Serving()) ==> o.Continue? && Serving() && PassOf(st) == PassOf(old(st))
      ensures Commands() == old(Commands()) && Onward()
      ensures OnlyFalls(old(st).slots, st.slots) && st.overrides == old(st).overrides
      ensures OneDiagnostic(st.taken, |old(st).taken|)
      ensures o.Continue? && queued > 0 ==> |st.taken| > |old(st).taken| && st.taken[|st.taken| - 1].diagnostic.Some?
      ensures o.Reconnect? ==> Broken()
      ensures o.Continue? && old(queued) > 0 ==> |st.taken| > |old(st).taken|
    {
      hide Built, Records, Shows, RunOk, PlanOk, Reached, Alive;
      Arrive();
      while queued > 0
        invariant queued >= old(queued) || |st.taken| > |old(st).taken|
        invariant Commands() == old(Commands()) && Onward()
        invariant |st.taken| >= |old(st).taken|
        invariant OnlyFalls(old(st).slots, st.slots) && st.overrides == old(st).overrides
        invariant forall i :: |old(st).taken| <= i < |st.taken| ==> st.taken[i].diagnostic.None?
        invariant Ready()
        invariant old(Serving()) ==> Serving() && PassOf(st) == PassOf(old(st))
        decreases |inbox|
      {
        var diagnostic := inbox[0].diagnostic.Some?;
        o := ServiceNext();
        if o.Reconnect? || diagnostic {
          return;
        }
      }
      o := Continue;
    }

    method ServiceNext() returns (o: Outcome)
      requires Ready() && queued > 0
      modifies this, rt, sink
      ensures Valid() && (o.Continue? ==> Ready())
      ensures old(Serving()) ==> o.Continue? && Serving() && PassOf(st) == PassOf(old(st))
      ensures |inbox| < |old(inbox)|
      ensures Commands() == old(Commands()) && Onward()
      ensures OnlyFalls(old(st).slots, st.slots) && st.overrides == old(st).overrides
      ensures st.taken == old(st).taken + [old(inbox)[0]]
      ensures o.Reconnect? ==> Broken()
    {
      hide Built, Records, Shows, RunOk, PlanOk, Reached, Alive;
      var cmd := inbox[0];
      inbox, queued := inbox[1..], queued - 1;
      ghost var admittedAt;
      ghost var fate;
      o, admittedAt, fate := ServiceWrite(cmd);
      if o.Continue? {
        Settle();
      }
    }

    /** The gap after a serviced command; more commands may arrive meanwhile. */
    method Settle()
      requires Connected()
      modifies this`now, this`queued
      ensures Ready() && old(queued) <= queued <= |inbox|
      ensures Commands() == old(Commands()) && Onward()
    {
      hide Built, Records, Shows, RunOk, PlanOk, Reached, Alive;
      Quietly();
      InterRequestGap();
      Arrive();
    }

    /** Every queued command fails at once: nothing stale fires after recovery. */
    method FailPendingWrites()
      requires Valid()
      modifies this`inbox, this`queued, this`writesErr, this`answers, this`st, this`run
      ensures Valid() && OnlyAnswers(old(st), st)
      ensures Commands() == old(Commands())
      ensures queued == 0 && |st.fates| >= |old(st).fates| && AllMet(st.fates, |old(st).fates|, Disconnected)
      ensures |st.taken| >= |old(st).taken|
      ensures |inbox| <= |old(inbox)| - old(queued)
      ensures old(st).fates <= st.fates
    {
      hide Built, Records, Shows, RunOk, PlanOk, Reached, Alive;
      Arrive();
      while queued > 0
        invariant old(st).fates <= st.fates
        invariant |inbox| - queued <= |old(inbox)| - old(queued)
        invariant Commands() == old(Commands())
        invariant |st.fates| >= |old(st).fates| && AllMet(st.fates, |old(st).fates|, Disconnected)
        invariant |st.taken| >= |old(st).taken|
        invariant Valid() && OnlyAnswers(old(st), st)
        decreases |inbox|
      {
        FailNext();
      }
    }

    /** One queued command fails because there is no connection. */
    method FailNext()
      requires Valid() && queued > 0
      modifies this`inbox, this`queued, this`writesErr, this`answers, this`st, this`run
      ensures Valid() && OnlyAnswers(old(st), st)
      ensures |inbox| < |old(inbox)|
      ensures Commands() == old(Commands())
      ensures st.taken == old(st).taken + [old(inbox)[0]] && st.fates == old(st).fates + [Disconnected]
      ensures |inbox| - queued <= |old(inbox)| - old(queued)
      ensures old(st).fates <= st.fates
    {
      hide Built, Records, Shows, RunOk, PlanOk, Reached, Alive;
      var cmd := inbox[0];
      inbox, queued := inbox[1..], queued - 1;
      Dispose(cmd, Disconnected);
      Arrive();
    }

    // ----- Ticks -----

    /** One scheduler batch. Only shutdown, or the loss of the link, cuts it short. */
    method RunTick(due: seq<(nat, nat)>) returns (o: Outcome, finished: bool)
      requires Ready() && DueInRange(devices, due)
      modifies this, rt, sink
      ensures |old(st).views| == |old(st).overrides| == |devices|
      ensures Valid() && (o.Continue? ==> Ready() && (finished || stopping))
      ensures old(Serving()) ==>
                && o.Continue? && Serving()
                && (finished ==> PassOf(st) == PollDue(bench.value, devices, PassOf(old(st)), due, |due|))
      ensures o.Continue? && !stopping ==> AllServed(devices, old(st), old(now), st.log, due, |due|)
      ensures Commands() == old(Commands()) && Onward()
      ensures o.Reconnect? ==> Broken()
      ensures old(stopping) ==> st == old(st)
    {
      hide Built, Records, Shows, RunOk, PlanOk, Reached;
      hide Alive, Served, AllServed, WatchesFollow, PollGroup, PollDue;
      Shape();
      Course();
      NoneServed(devices, st, now, st.log, due);
      if bench.Some? {
        DueStarts(bench.value, devices, PassOf(st), due);
      }
      for i := 0 to |due|
        invariant old(stopping) ==> st == old(st)
        invariant Commands() == old(Commands()) && Onward()
        invariant Ready() && AllServed(devices, old(st), old(now), st.log, due, i)
        invariant old(Serving()) ==>
                    Serving() && PassOf(st) == PollDue(bench.value, devices, PassOf(old(st)), due, i)
      {
        var stop := ShutdownRequested();
        if stop {
          return Continue, false;
        }
        var done;
        ghost var before := st.log;
        o, done := PollPair(due[i].0, due[i].1, old(st), old(now));
        if o.Reconnect? || !done {
          return o, false;
        }
        AllServedGrows(devices, old(st), old(now), before, st.log, due, i);
        OneMoreServed(devices, old(st), old(now), st.log, due, i);
        if old(Serving()) {
          DueOneMore(bench.value, devices, PassOf(old(st)), due, i);
        }
      }
      return Continue, true;
    }

    /** One due (device, group), in a tick from state `s` on; a device that is offline
        and not due for its probe is left out. */
    method PollPair(d: nat, group: nat, ghost s: Task, ghost since: nat) returns (o: Outcome, done: bool)
      requires Ready() && d < |devices| && group < |devices[d].byGroup|
      requires s.log <= st.log && since <= now && WatchesFollow(devices, s.views, s.log)
      modifies this, rt, sink
      ensures Valid() && (o.Continue? ==> Ready() && (done || stopping))
      ensures old(Serving()) ==>
                && o.Continue? && Serving()
                && (done ==> PassOf(st) == PollGroup(bench.value(devices[d].unit), PassOf(old(st)), d, group,
                                                     devices[d].byGroup[group], |devices[d].byGroup[group]|))
      ensures o.Continue? && done ==> Served(devices, s, since, st.log, d, group)
      ensures Commands() == old(Commands()) && Onward()
      ensures o.Reconnect? ==> Broken()
      ensures old(stopping) ==> st == old(st)
    {
      hide Built, Records, Shows, RunOk, PlanOk, Reached;
      hide Alive, Served, GroupAsked, FellOffline, History, PollGroup;
      Shape();
      Course();
      var t := Clock();
      if rt[d].IsOfflineAndNotDueToProbe(t) {
        SkippedIsServed(devices, s, since, st, t, d, group);
        return Continue, true;
      }
      o, done := PollDeviceGroup(d, group);
      if o.Continue? && done {
        PolledIsServed(devices, s, since, old(st).log, st.log, d, group);
      }
    }

    /** All transactions of one due (device, group); `done` is false when shutdown
        cut it short. A device found offline is left for this tick. */
    method PollDeviceGroup(d: nat, group: nat) returns (o: Outcome, done: bool)
      requires Ready() && d < |devices| && group < |devices[d].byGroup|
      requires rt[d].online || rt[d].nextProbeAt <= now
      modifies this, rt, sink
      ensures Valid() && (o.Continue? ==> Ready() && (done || stopping))
      ensures old(Serving()) ==>
                && o.Continue? && Serving()
                && (done ==> PassOf(st) == PollGroup(bench.value(devices[d].unit), PassOf(old(st)), d, group,
                                                     devices[d].byGroup[group], |devices[d].byGroup[group]|))
      ensures o.Continue? && done && devices[d].byGroup[group] != [] ==>
                |History(st.log, d)| > |History(old(st).log, d)|
      ensures o.Continue? && done ==>
                || GroupAsked(st.log, |old(st).log|, d, devices[d].byGroup[group])
                || FellOffline(st.log, |old(st).log|, devices[d], d)
      ensures Commands() == old(Commands()) && Onward()
      ensures o.Reconnect? ==> Broken()
      ensures old(stopping) ==> st == old(st)
    {
      hide Built, Records, Shows, RunOk, PlanOk, Reached;
      hide Alive, SlotAsked, GroupAsked, FellOffline, History, PollEach, PollGroup;
      Shape();
      var base := devices[d].byGroup[group];
      ghost var n := |st.log|;
      NoneAsked(st.log, n, d, base);
      if bench.Some? {
        GroupStarts(bench.value(devices[d].unit), PassOf(st), d, group, base);
      }
      for index := 0 to |base|
        invariant old(stopping) ==> st == old(st)
        invariant Commands() == old(Commands()) && Onward()
        invariant Ready() && GroupAsked(st.log, n, d, base[..index])
        invariant index > 0 ==> |History(st.log, d)| > |History(old(st).log, d)|
        invariant old(Serving()) ==>
                    Serving() && PassOf(st) ==
                      PollGroup(bench.value(devices[d].unit), PassOf(old(st)), d, group, base, index)
      {
        ghost var before := st.log;
        var e, more := PollSlot(d, group, index);
        HistoryGrows(old(st).log, before, d);
        match e {
          case NextTxn => if !more { return Continue, false; }
          case SkipDevice =>
            FellOfflineGrows(st.log, st.log, |before|, n, devices[d], d);
            return Continue, true;
          case DropLink => return Reconnect, false;
        }
        GroupAskedGrows(before, st.log, n, n, d, base[..index]);
        SlotAskedGrows(st.log, st.log, |before|, n, d, base[index]);
        OneMoreSlotAsked(st.log, n, d, base, index);
        if old(Serving()) {
          GroupOneMore(bench.value(devices[d].unit), PassOf(old(st)), d, group, base, index);
        }
      }
      assert base[..|base|] == base;
      return Continue, true;
    }

    /** One planned transaction, or its remembered split. */
    method PollSlot(d: nat, group: nat, index: nat) returns (o: TxnOutcome, more: bool)
      requires Ready() && d < |devices| && group < |devices[d].byGroup| && index < |devices[d].byGroup[group]|
      modifies this, rt, sink
      ensures Valid() && (o != DropLink ==> Ready()) && (o == NextTxn ==> more || stopping)
      ensures old(Serving()) ==>
                && o == NextTxn && Serving()
                && (more ==> PassOf(st) == PollEach(bench.value(devices[d].unit), PassOf(old(st)), d, group, index,
                               Effective(old(st).overrides[d], group, index, devices[d].byGroup[group][index])))
      ensures Commands() == old(Commands()) && Onward()
      ensures o == NextTxn && more ==> SlotAsked(st.log, |old(st).log|, d, devices[d].byGroup[group][index])
      ensures o == SkipDevice ==> FellOffline(st.log, |old(st).log|, devices[d], d)
      ensures (o == NextTxn && more) || o == SkipDevice ==> |History(st.log, d)| > |History(old(st).log, d)|
      ensures o == DropLink ==> Broken()
      ensures old(stopping) ==> st == old(st)
    {
      hide Built, Records, Shows, RunOk, PlanOk, Reached;
      hide Alive, Asked, SlotAsked, FellOffline, History, PollEach;
      Shape();
      Course();
      var base := devices[d].byGroup[group][index];
      var split := rt[d].EffectiveTxns(group, index);
      ghost var before, n := st.overrides[d], |st.log|;
      o, more := PollTxns(d, group, index, if split.Some? then split.value else [base]);
      EffectiveIsAsked(devices[d], before, st.log, n, d, group, index);
    }

    method PollTxns(d: nat, group: nat, index: nat, txns: seq<Transaction>) returns (o: TxnOutcome, more: bool)
      requires Ready() && Slotted(d, group, index, txns)
      modifies this, rt, sink
      ensures Valid() && (o != DropLink ==> Ready()) && (o == NextTxn ==> more || stopping)
      ensures old(Serving()) ==>
                && o == NextTxn && Serving()
                && (more ==> PassOf(st) ==
                             PollEach(bench.value(devices[d].unit), PassOf(old(st)), d, group, index, txns))
      ensures Commands() == old(Commands()) && Onward()
      ensures o == NextTxn && more ==> AllAsked(st.log, |old(st).log|, d, txns)
      ensures o == SkipDevice ==> FellOffline(st.log, |old(st).log|, devices[d], d)
      ensures (o == NextTxn && more && txns != []) || o == SkipDevice ==>
                |History(st.log, d)| > |History(old(st).log, d)|
      ensures o == DropLink ==> Broken()
      ensures old(stopping) ==> st == old(st)
    {
      hide Built, Records, Shows, RunOk, PlanOk, Reached;
      hide Alive, Asked, AllAsked, FellOffline, History, PollEach;
      Shape();
      ghost var start, served, n := PassOf(st), Serving(), |st.log|;
      NoneAsked(st.log, n, d, txns);
      if served {
        EachStarts(bench.value(devices[d].unit), start, d, group, index, txns);
      }
      for k := 0 to |txns|
        invariant old(stopping) ==> st == old(st)
        invariant Commands() == old(Commands()) && Onward()
        invariant Ready() && (k < |txns| ==> Slotted(d, group, index, txns))
        invariant AllAsked(st.log, n, d, txns[..k])
        invariant k > 0 ==> |History(st.log, d)| > |History(old(st).log, d)|
        invariant served ==>
                    Serving() && PassOf(st) == PollEach(bench.value(devices[d].unit), start, d, group, index, txns[..k])
      {
        var stop := ShutdownRequested();
        if stop {
          return NextTxn, false;
        }
        ghost var before := st.log;
        o := PollNth(d, group, index, txns, k, start, served);
        HistoryGrows(old(st).log, before, d);
        if o == SkipDevice {
          FellOfflineGrows(st.log, st.log, |before|, n, devices[d], d);
        }
        if o != NextTxn {
          return o, false;
        }
        AllAskedGrows(before, st.log, n, n, d, txns[..k]);
        AskedGrows(st.log, st.log, |before|, n, d, txns[k].req);
        OneMoreAsked(st.log, n, d, txns, k);
      }
      assert txns[..|txns|] == txns;
      assert served ==> PassOf(st) == PollEach(bench.value(devices[d].unit), start, d, group, index, txns);
      return NextTxn, true;
    }

    /** The next transaction of a slot whose first `k` have led from `start` to here. */
    method PollNth(d: nat, group: nat, index: nat, txns: seq<Transaction>, k: nat, ghost start: Poller,
                   ghost served: bool)
      returns (o: TxnOutcome)
      requires Ready() && Slotted(d, group, index, txns) && k < |txns| && d < |start.overrides|
      requires served ==> Serving() &&
                           PassOf(st) == PollEach(bench.value(devices[d].unit), start, d, group, index, txns[..k])
      modifies this, rt, sink
      ensures Valid() && (o != DropLink ==> Ready()) && (k + 1 < |txns| ==> Slotted(d, group, index, txns))
      ensures served ==>
                && o == NextTxn && Serving()
                && PassOf(st) == PollEach(bench.value(devices[d].unit), start, d, group, index, txns[..k + 1])
      ensures Commands() == old(Commands()) && Onward()
      ensures Asked(st.log, |old(st).log|, d, txns[k].req) && |History(st.log, d)| > |History(old(st).log, d)|
      ensures o == SkipDevice ==> FellOffline(st.log, |old(st).log|, devices[d], d)
      ensures o == DropLink ==> Broken()
    {
      hide Built, Records, Shows, RunOk, PlanOk, Reached;
      hide Alive, Asked, SlotAsked, FellOffline, History, PollEach;
      Shape();
      SlotCanBePolled(d, group, index, txns, k);
      ghost var before := st.overrides;
      if served {
        EachOneMore(bench.value(devices[d].unit), start, d, group, index, txns, k);
      }
      o := PollTransaction(d, group, index, txns[k]);
      if |txns| > 1 {
        SlotStays(before, d, group, index, txns);
      }
    }


    ghost predicate Slotted(d: nat, group: nat, index: nat, txns: seq<Transaction>)
      reads this`st
    {
      && d < |devices| == |st.overrides| && group < |devices[d].byGroup| && index < |devices[d].byGroup[group]|
      && txns == Effective(st.overrides[d], group, index, devices[d].byGroup[group][index])
    }

    lemma SlotCanBePolled(d: nat, group: nat, index: nat, txns: seq<Transaction>, k: nat)
      requires Valid() && Slotted(d, group, index, txns) && k < |txns|
      ensures Polling(Slot(d, group, index), txns[k])
    {
      Shape();
      Course();
      CanPollIsPlanned(Cfg(), st, Slot(d, group, index), txns[k]);
    }

    /** A slot with several singletons has been split, and stays so. */
    lemma SlotStays(before: seq<Overrides>, d: nat, group: nat, index: nat, txns: seq<Transaction>)
      requires SplitsKept(before, st.overrides) && |txns| > 1
      requires d < |devices| == |before| && group < |devices[d].byGroup| && index < |devices[d].byGroup[group]|
      requires txns == Effective(before[d], group, index, devices[d].byGroup[group][index])
      ensures Slotted(d, group, index, txns)
    {
    }

    // ----- Connections -----

    /** One connection attempt failed: the first one since the last connection
        turns every tag of the channel Bad; queued commands fail, and the task waits. */
    method ConnectFailed() returns (stop: bool)
      requires Valid() && !healthy && !st.link.up
      modifies this, sink
      ensures Valid() && !healthy && st.swept && (stop ==> stopping)
      ensures Commands() == old(Commands()) && Onward() && WaitedOnce(old(st), st)
      ensures !st.link.up
      ensures AllMet(st.fates, |old(st).fates|, Disconnected) && |inbox| <= |old(inbox)| - old(queued)
    {
      hide Built, Records, Shows, RunOk, PlanOk, Reached, Alive;
      if !swept {
        Sweep();
      }
      FailPendingWrites();
      stop := BackoffOrStop();
    }

    method Sweep()
      requires Valid() && !swept
      modifies this`swept, this`st, this`run, sink
      ensures Valid() && swept && st == old(st).(link := old(st).link.(swept := true), slots := st.slots)
    {
      hide Built, Records, Shows, RunOk, PlanOk, SweptSlots;
      Shape();
      ghost var next := RunSweeps(Cfg(), run);
      SweepOwnTags();
      swept := true;
      Advance(next);
    }

    method SweepOwnTags()
      requires Linked()
      modifies sink
      ensures Shows(SweptSlots(devices, st.slots, |devices|))
    {
      assert TagsHaveSlots();
      SweptAgrees(devices, sink.slots, st.slots, |devices|, tagStart, tagEnd);
      SweepTags();
    }

    /** Every tag of the plan has a cache slot. */
    ghost predicate TagsHaveSlots() {
      forall d :: 0 <= d < |devices| ==> TagsInRange(devices[d], tagCount)
    }

    method SweepTags()
      requires |sink.slots| == tagCount && TagsHaveSlots()
      modifies sink
      ensures sink.slots == SweptSlots(devices, old(sink.slots), |devices|)
    {
      for d := 0 to |devices|
        invariant sink.slots == SweptSlots(devices, old(sink.slots), d)
      {
        SweepDevice(d);
      }
    }

    method SweepDevice(d: nat)
      requires |sink.slots| == tagCount && TagsHaveSlots() && d < |devices|
      modifies sink
      ensures sink.slots == Requalify(old(sink.slots), devices[d].allTags, Bad)
    {
      assert TagsInRange(devices[d], tagCount);
      sink.SetDeviceQuality(devices[d].allTags, Bad);
    }

    /** A fresh connection: the watchdogs and the backoff carry over. */
    method Connect()
      requires Valid()
      modifies this`swept, this`consecTimeouts, this`healthy, this`st, this`run
      ensures Ready() && st.views == old(st).views && st.pauses == old(st).pauses
      ensures st.taken == old(st).taken && st.log == old(st).log && st.conn == old(st).conn + 1
      ensures st.waits == old(st).waits && st.slots == old(st).slots
    {
      hide Built, Records, Shows, RunOk, PlanOk;
      Shape();
      Quietly();
      ghost var next := RunConnects(Cfg(), run);
      swept, consecTimeouts, healthy := false, 0, false;
      Advance(next);
    }

    /** The connection is given up: queued commands fail, and the task waits. */
    method DropConnection() returns (stop: bool)
      requires Valid() && (st.link.up ==> Broken())
      modifies this
      ensures Valid() && !healthy && (stop ==> stopping)
      ensures Commands() == old(Commands()) && Onward() && WaitedOnce(old(st), st)
      ensures !st.link.up
      ensures AllMet(st.fates, |old(st).fates|, Disconnected) && |inbox| <= |old(inbox)| - old(queued)
    {
      hide Built, Records, Shows, RunOk, PlanOk, Reached, Alive;
      FailPendingWrites();
      stop := BackoffOrStop();
    }

    /** One backoff more, and with it the end of the connection. */
    ghost predicate WaitedOnce(s: Task, t: Task) {
      |t.waits| == |s.waits| + 1 && t.waits[..|s.waits|] == s.waits && t.conn == s.conn + 1
    }

    /** One jittered backoff, from the base delay if this connection carried an
        answer. Commands that arrive meanwhile fail at once. */
    method BackoffOrStop() returns (stop: bool)
      requires Valid() && (st.link.up ==> Broken())
      modifies this
      ensures Valid() && !healthy && st.swept == old(st).swept && (stop ==> stopping)
      ensures Commands() == old(Commands()) && Onward() && WaitedOnce(old(st), st)
      ensures !st.link.up
      ensures AllMet(st.fates, |old(st).fates|, Disconnected) && |inbox| <= |old(inbox)|
      ensures old(st).fates <= st.fates
    {
      hide Built, Records, Shows, RunOk, PlanOk, Reached, Alive;
      var delayMs := NextBackoff();
      stop := SleepOrStop(delayMs);
    }

    /** The sleep, during which arriving commands fail, unless shutdown ends it. */
    method SleepOrStop(delayMs: nat) returns (stop: bool)
      requires Valid() && !healthy
      modifies this`now, this`inbox, this`queued, this`writesErr, this`answers, this`stopping, this`st, this`run
      ensures Valid() && !healthy && OnlyAnswers(old(st), st) && (stop ==> stopping)
      ensures Commands() == old(Commands()) && Onward()
      ensures |st.fates| >= |old(st).fates| && AllMet(st.fates, |old(st).fates|, Disconnected)
      ensures !stop ==> queued == 0 && now == old(now) + delayMs
      ensures |inbox| <= |old(inbox)|
      ensures old(st).fates <= st.fates
    {
      hide Built, Records, Shows, RunOk, PlanOk, Reached, Alive;
      stop := FailArrivals();
      if !stop {
        now := now + delayMs;
      }
    }

    method FailArrivals() returns (stop: bool)
      requires Valid()
      modifies this`inbox, this`queued, this`writesErr, this`answers, this`stopping, this`st, this`run
      ensures Valid() && OnlyAnswers(old(st), st) && (stop ==> stopping)
      ensures Commands() == old(Commands()) && (old(stopping) ==> stopping) && |st.taken| >= |old(st).taken|
      ensures |st.fates| >= |old(st).fates| && AllMet(st.fates, |old(st).fates|, Disconnected)
      ensures !stop ==> queued == 0
      ensures |inbox| <= |old(inbox)|
      ensures old(st).fates <= st.fates
    {
      hide Built, Records, Shows, RunOk, PlanOk, Reached, Alive;
      stop := ShutdownRequested();
      Arrive();
      while !stop && queued > 0
        invariant old(st).fates <= st.fates
        invariant |inbox| <= |old(inbox)|
        invariant Commands() == old(Commands()) && (old(stopping) ==> stopping) && (stop ==> stopping)
        invariant |st.fates| >= |old(st).fates| && AllMet(st.fates, |old(st).fates|, Disconnected)
        invariant |st.taken| >= |old(st).taken|
        invariant Valid() && OnlyAnswers(old(st), st)
        decreases |inbox|
      {
        FailNext();
        stop := ShutdownRequested();
      }
    }

    method NextBackoff() returns (delayMs: nat)
      requires Valid() && (st.link.up ==> Broken())
      modifies this`reconnects, this`backoffMs, this`healthy, this`st, this`run
      ensures Valid() && !healthy && st.swept == old(st).swept
      ensures st.waits == old(st).waits + [Wait(old(healthy), NominalDelay(Cfg(), old(st)), delayMs)]
      ensures st.taken == old(st).taken && st.log == old(st).log && st.conn == old(st).conn + 1
      ensures !st.link.up
      ensures st.fates == old(st).fates
    {
      hide Built, Records, Shows, RunOk, PlanOk;
      Shape();
      if healthy {
        backoffMs := retry.baseBackoffMs;
      }
      delayMs :| backoffMs / 2 <= delayMs <= backoffMs;
      ghost var next := RunBacksOff(Cfg(), run, delayMs);
      backoffMs := Max(Min(SatDouble(backoffMs), retry.maxBackoffMs), 1);
      reconnects := reconnects + 1;
      healthy := false;
      Advance(next);
    }

    /** One tick of the poll wheel: any batch of planned (device, group) pairs. */
    method Tick() returns (o: Outcome)
      requires Ready()
      modifies this, rt, sink
      ensures Valid() && (o.Continue? ==> Ready())
      ensures Commands() == old(Commands()) && Onward()
      ensures o.Reconnect? ==> Broken()
      ensures old(stopping) ==> st == old(st)
    {
      hide Built, Records, Shows, RunOk, PlanOk, Reached, Alive;
      assert DueInRange(devices, []);
      var due: seq<(nat, nat)> :| DueInRange(devices, due);
      var finished;
      o, finished := RunTick(due);
    }

    /** The next queued command; after a diagnostic, a poll that is already due. */
    method ServeCommand() returns (o: Outcome)
      requires Ready() && queued > 0
      modifies this, rt, sink
      ensures Valid() && (o.Continue? ==> Ready())
      ensures Commands() == old(Commands()) && Onward()
      ensures |st.taken| > |old(st).taken|
      ensures o.Reconnect? ==> Broken()
    {
      hide Built, Records, Shows, RunOk, PlanOk, Reached, Alive;
      var diagnostic := inbox[0].diagnostic.Some?;
      o := ServiceNext();
      if o.Continue? && diagnostic {
        var due: bool := *;
        if due {
          o := Tick();
        }
      }
    }

    /** The poll and write loop of one connection, for at most `rounds` rounds: it
        ends with shutdown or with the loss of the link. */
    method Serve(rounds: nat) returns (stop: bool, cut: bool)
      requires Ready()
      modifies this, rt, sink
      ensures Valid() && Commands() == old(Commands()) && Onward()
      ensures (stop ==> stopping || cut) && (cut ==> stop)
      ensures !stop ==> !healthy && !st.link.up && st.conn > old(st).conn
      ensures old(stopping) ==> st == old(st)
    {
      hide Built, Records, Shows, RunOk, PlanOk, Reached, Alive;
      for i := 0 to rounds
        invariant old(stopping) ==> st == old(st)
        invariant Commands() == old(Commands()) && Onward()
        invariant Ready()
      {
        stop := ShutdownRequested();
        if stop {
          return stop, false;
        }
        Arrive();
        var o;
        if queued > 0 {
          o := ServeCommand();
        } else {
          o := Tick();
        }
        if o.Reconnect? {
          stop := DropConnection();
          return stop, false;
        }
      }
      return true, true;
    }

    /** `run_channel`: connect, serve, back off, reconnect, until shutdown. The model
        looks at no more than `attempts` connection attempts, and leaves the last
        connection it looks at when `cut`. */
    method RunChannel(attempts: nat) returns (cut: bool)
      requires Valid() && !healthy && !st.link.up
      modifies this, rt, sink
      ensures Valid()
      ensures Commands() == old(Commands()) && Onward()
      ensures stopping || cut || st.conn >= old(st).conn + attempts
      ensures old(stopping) ==> st == old(st)
    {
      hide Built, Records, Shows, RunOk, PlanOk, Reached, Alive;
      cut := false;
      for i := 0 to attempts
        invariant old(stopping) ==> st == old(st)
        invariant Commands() == old(Commands()) && Onward()
        invariant Valid() && !healthy && !st.link.up && !cut && st.conn >= old(st).conn + i
      {
        var stop := ShutdownRequested();
        if stop {
          return;
        }
        var connected: bool := *;
        if connected {
          var rounds: nat :| true;
          Connect();
          stop, cut := Serve(rounds);
        } else {
          stop := ConnectFailed();
        }
        if stop {
          return;
        }
      }
    }
  }
}
