/** What holds in every state of every run of a channel task, whatever the replies,
    the arrivals and the connection attempts: the stream-drain rule on the wire,
    the watchdogs and their tags, the books, and the reconnect delays. */
module ChannelRuns {
  import opened MbTypes
  import opened MbProto
  import opened Coalesce
  import opened Reading
  import opened Cache
  import opened Device
  import opened Ticks
  import opened Wire
  import opened ChannelLaws
  import opened ChannelMachine

  /** Entry `i` is the last one its connection carried. */
  ghost predicate LastOfConnection(log: Log, i: nat)
    requires i < |log|
  {
    forall j :: i < j < |log| ==> log[j].conn != log[i].conn
  }

  /** The request just before entry `i`, on the same connection, timed out. */
  predicate TimedOutBefore(log: Log, i: nat)
    requires i < |log|
  {
    0 < i && log[i - 1].conn == log[i].conn && log[i - 1].reply.IsTimeout()
  }

  /** Entry `i` carries command `c`. */
  predicate Carries(log: Log, i: nat, c: nat)
    requires i < |log|
  {
    log[i].kind.Command? && log[i].kind.index == c
  }

  lemma {:induction false} ConnectionsAscend(log: Log, halfDuplex: bool, i: nat, j: nat)
    requires LogOk(log, halfDuplex) && i <= j < |log|
    ensures log[i].conn <= log[j].conn
    decreases j - i
  {
    if i < j {
      assert StepOk(log, halfDuplex, i);
      ConnectionsAscend(log, halfDuplex, i + 1, j);
    }
  }

  lemma {:induction false} NextDiffers(log: Log, halfDuplex: bool, i: nat)
    requires LogOk(log, halfDuplex) && i < |log|
    requires i + 1 < |log| ==> log[i + 1].conn != log[i].conn
    ensures LastOfConnection(log, i)
  {
    forall j | i < j < |log|
      ensures log[j].conn != log[i].conn
    {
      ConnectionsAscend(log, halfDuplex, i, i + 1);
      ConnectionsAscend(log, halfDuplex, i + 1, j);
    }
  }

  /** A fatal reply ends its connection. On a half-duplex stream so do a timed-out
      command and the second of two timeouts in a row; and no timeout is retried
      there. */
  lemma {:induction false} StreamIsDrained(cfg: Config, run: seq<Task>, k: nat, i: nat)
    requires cfg.Valid() && RunOk(cfg, run) && k < |run| && i < |run[k].log|
    ensures var log := run[k].log; var e := log[i];
            && (e.reply.IsFatal() ==> LastOfConnection(log, i))
            && (cfg.halfDuplex && e.reply.IsTimeout() && e.kind.Command? ==> LastOfConnection(log, i))
            && (cfg.halfDuplex && e.reply.IsTimeout() && TimedOutBefore(log, i) ==> LastOfConnection(log, i))
            && (cfg.halfDuplex && e.reply.IsTimeout() && i + 1 < |log| && log[i + 1].conn == e.conn ==>
                  (log[i + 1].kind.Poll? ==> log[i + 1].kind.attempt == 0))
  {
    var log := run[k].log;
    EveryRun(cfg, run, k);
    if i + 1 == |log| || log[i + 1].conn != log[i].conn {
      NextDiffers(log, cfg.halfDuplex, i);
    } else {
      assert StepOk(log, cfg.halfDuplex, i);
      if 0 < i {
        assert DrainOk(log, cfg.halfDuplex, i - 1);
      }
    }
  }

  /** No connection is given up without cause: the last request that it carried ended
      in a fatal error, or on a half-duplex stream was a timed-out command or the
      second timeout in a row. */
  lemma {:induction false} ConnectionsEndForCause(cfg: Config, run: seq<Task>, k: nat)
    requires cfg.Valid() && RunOk(cfg, run) && k + 1 < |run| && run[k].link.up && !run[k + 1].link.up
    ensures var log := run[k].log;
            && log != []
            && var e := log[|log| - 1];
               && e.conn == run[k].conn
               && (e.reply.IsFatal()
                   || (cfg.halfDuplex && e.reply == Err(Timeout)
                       && (e.kind.Command? || TimeoutsInARow(log, e.conn) >= 2)))
  {
    assert Comes(cfg, run, k + 1);
    var m :| Enabled(cfg, run[k], m) && run[k + 1] == Apply(cfg, run[k], m);
    OnlyBackoffsEnd(cfg, run[k], m);
  }

  lemma OnlyBackoffsEnd(cfg: Config, s: Task, m: Move)
    requires Enabled(cfg, s, m) && s.link.up && !Apply(cfg, s, m).link.up
    ensures m.BacksOff?
  {
  }

  /** A device is online exactly while its failures since its last answer stay
      below its threshold, across reconnects; while it is offline, or the channel
      swept, its tags are Bad; its next probe is due one interval after its last
      failure; and its edges alternate. */
  lemma {:induction false} WatchdogsFollowTheWire(cfg: Config, run: seq<Task>, k: nat, d: nat)
    requires cfg.Valid() && RunOk(cfg, run) && k < |run| && d < |cfg.devices|
    ensures var s := run[k]; var dev := cfg.devices[d]; var history := History(s.log, d);
            && d < |s.views|
            && (s.views[d].online <==> FailuresSinceAnswer(history) < Threshold(dev))
            && (s.swept || !s.views[d].online ==> AllBad(s.slots, dev.allTags))
            && (!s.views[d].online ==>
                  && history != [] && history[|history| - 1].Failed?
                  && s.views[d].probeAt
                     == Some(history[|history| - 1].at
                             + ProbeInterval(dev.retry, FailuresSinceAnswer(history) - Threshold(dev))))
            && (var edges := Edges(history, Threshold(dev), dev.retry);
                && (forall i :: 0 <= i < |edges| ==> edges[i] == if i % 2 == 0 then WentOffline else BackOnline)
                && (s.views[d].online <==> |edges| % 2 == 0))
  {
    EveryRun(cfg, run, k);
    var dev := cfg.devices[d];
    WatchCountsFailures(History(run[k].log, d), Threshold(dev), dev.retry);
    EdgesAlternate(History(run[k].log, d), Threshold(dev), dev.retry);
  }

  /** Every request on the wire is counted once; so is every command that counts
      as a write. */
  lemma {:induction false} BooksBalance(cfg: Config, run: seq<Task>, k: nat)
    requires cfg.Valid() && RunOk(cfg, run) && k < |run|
    ensures var s := run[k];
            && s.traffic.counters.ok + s.traffic.counters.err == |s.log|
            && s.traffic.counters.ok == HowMany(s.log, (r: Reply) => r.Ok?)
            && s.traffic.counters.timeouts == HowMany(s.log, (r: Reply) => r == Err(Timeout))
            && s.traffic.counters.exceptions == HowMany(s.log, (r: Reply) => r.Err? && r.error.Exception?)
            && s.traffic.counters.protocolErrors == HowMany(s.log, (r: Reply) => r == Err(Protocol))
            && |s.taken| == |s.fates|
            && s.orders.writesOk + s.orders.writesErr == CountedWrites(s.taken, s.fates)
  {
    EveryRun(cfg, run, k);
    TallyCountsRequests(run[k].log);
    WriteCountersAddUp(run[k].taken, run[k].fates);
  }

  /** Every command taken is answered once: from the wire if and only if it was
      sent, and that at most once, to the unit and with the request it was submitted
      for, admitted by its deadline and not waited for past it; else with an error
      that tells why not. */
  lemma {:induction false} CommandsReachTheWireOnce(cfg: Config, run: seq<Task>, k: nat, c: nat)
    requires cfg.Valid() && RunOk(cfg, run) && k < |run| && c < |run[k].taken|
    ensures var s := run[k]; var cmd := s.taken[c];
            && |s.fates| == |s.orders.answers| == |s.taken|
            && (s.fates[c].Sent? <==> OnWire(s.log, c))
            && (forall i, j :: 0 <= i < j < |s.log| && Carries(s.log, i, c) ==> !Carries(s.log, j, c))
            && (forall i :: 0 <= i < |s.log| && Carries(s.log, i, c) ==>
                  && s.log[i].kind.admittedAt <= cmd.deadline && s.log[i].req == cmd.req
                  && s.log[i].call.timeoutMs <= SatSub(cmd.deadline, s.log[i].call.sentAt)
                  && s.orders.answers[c] == s.log[i].reply)
            && (match s.fates[c]
                case Sent(_) => true
                case Expired => s.orders.answers[c] == Err(Timeout)
                case Disconnected => s.orders.answers[c] == Err(NotConnected)
                case _ => s.orders.answers[c] == Err(Protocol))
  {
    EveryRun(cfg, run, k);
    var s := run[k];
    RepliesAt(s.fates, c);
    forall i | 0 <= i < |s.log| && Carries(s.log, i, c)
      ensures s.fates[c].Sent? && s.log[i].kind.admittedAt <= s.taken[c].deadline && s.fates[c] == Sent(s.log[i].reply)
      ensures s.log[i].req == s.taken[c].req
      ensures s.log[i].call.timeoutMs <= SatSub(s.taken[c].deadline, s.log[i].call.sentAt)
    {
      assert CommandEntryOk(cfg.devices, s.taken, s.fates, s.log[i]);
    }
  }

  lemma {:induction false} RepliesAt(fates: seq<Fate>, c: nat)
    requires c < |fates|
    ensures |Replies(fates)| == |fates| && Replies(fates)[c] == ReplyTo(fates[c])
  {
    var n := |fates| - 1;
    RepliesLength(fates[..n]);
    if c < n {
      RepliesAt(fates[..n], c);
    }
  }

  lemma {:induction false} RepliesLength(fates: seq<Fate>)
    ensures |Replies(fates)| == |fates|
  {
    if fates != [] {
      RepliesLength(fates[..|fates| - 1]);
    }
  }

  /** One request at a time, and between two on one connection the silent gap; and
      the transport was asked for just these. */
  lemma {:induction false} RequestsArePaced(cfg: Config, run: seq<Task>, k: nat, i: nat)
    requires cfg.Valid() && RunOk(cfg, run) && k < |run| && i < |run[k].log|
    ensures var log := run[k].log; var call := log[i].call;
            && call.sentAt <= call.endedAt
            && (i + 1 < |log| ==>
                  && call.endedAt <= log[i + 1].call.sentAt
                  && (log[i + 1].conn == log[i].conn ==> call.endedAt + cfg.gapMs <= log[i + 1].call.sentAt))
            && |run[k].traffic.wire| == |log| && run[k].traffic.wire[i] == call
  {
    EveryRun(cfg, run, k);
    assert PaceOk(run[k].log, cfg.gapMs, i);
    CallsAt(run[k].log, i);
  }

  lemma {:induction false} CallsAt(log: Log, i: nat)
    requires i < |log|
    ensures |Calls(log)| == |log| && Calls(log)[i] == log[i].call
  {
    var n := |log| - 1;
    CallsLength(log[..n]);
    if i < n {
      CallsAt(log[..n], i);
    }
  }

  lemma {:induction false} CallsLength(log: Log)
    ensures |Calls(log)| == |log|
  {
    if log != [] {
      CallsLength(log[..|log| - 1]);
    }
  }

  /** Between the attempts of one polled request, nothing else is on the wire. */
  lemma {:induction false} RetriesAreUninterrupted(cfg: Config, run: seq<Task>, k: nat, i: nat)
    requires cfg.Valid() && RunOk(cfg, run) && k < |run| && i < |run[k].log| && !run[k].log[i].settled
    ensures var log := run[k].log;
            && i + 1 < |log| && log[i].kind.Poll?
            && log[i + 1].conn == log[i].conn && log[i + 1].kind == Poll(log[i].kind.attempt + 1)
            && log[i + 1].req == log[i].req && log[i + 1].unit == log[i].unit
  {
    EveryRun(cfg, run, k);
    assert i + 1 < |run[k].log|;
    assert StepOk(run[k].log, cfg.halfDuplex, i);
  }

  /** A Good tag keeps its slot through a poll that serves it in just two cases:
      the reply is a fatal error that leaves its device below the threshold, or an
      exception that makes the slot split. */
  lemma {:induction false} PolledTagKeepsItsSlot(cfg: Config, run: seq<Task>, k: nat, slot: Slot, txn: Transaction,
                                                 reply: Reply, f: Field)
    requires cfg.Valid() && RunOk(cfg, run) && k < |run| && CanPoll(cfg, run[k], slot, txn)
    requires f in txn.fields && f.tag < |run[k].slots| && run[k].slots[f.tag].quality == Good
    requires reply.Ok? ==> !reply.resp.WriteAck?
    ensures var s := run[k]; var failures := FailuresSinceAnswer(History(s.log, slot.d));
            SlotsAfter(cfg, s, slot, txn, reply)[f.tag] == s.slots[f.tag] <==>
              || (reply.IsFatal() && failures + 1 < Threshold(cfg.devices[slot.d]))
              || (reply.Err? && reply.error.Exception?
                  && reply.error.code == IllegalDataAddress && txn.coalesced
                  && (slot.group, slot.index) !in s.overrides[slot.d])
  {
    var s, dev := run[k], cfg.devices[slot.d];
    EveryRun(cfg, run, k);
    CanPollIsPlanned(cfg, s, slot, txn);
    assert f.tag in dev.allTags;
    assert s.views[slot.d].online;
    WatchCountsFailures(History(s.log, slot.d), Threshold(dev), dev.retry);
    KeepsItsSlot(cfg, s, slot, txn, reply, f);
  }

  lemma {:induction false} KeepsItsSlot(cfg: Config, s: Task, slot: Slot, txn: Transaction, reply: Reply, f: Field)
    requires CanPoll(cfg, s, slot, txn) && f in txn.fields && f.tag in cfg.devices[slot.d].allTags
    requires f.tag < |s.slots| && s.slots[f.tag].quality == Good && s.views[slot.d].online
    requires reply.Ok? ==> !reply.resp.WriteAck?
    ensures SlotsAfter(cfg, s, slot, txn, reply)[f.tag] == s.slots[f.tag] <==>
              || (reply.IsFatal() && Endures(cfg, s, slot.d))
              || (reply.Err? && reply.error.Exception?
                  && MustSplit(s.overrides[slot.d], (slot.group, slot.index), txn, reply.error.code))
  {
    FieldIsTag(txn.fields, f);
    if reply.Ok? {
      AnswerReplacesSlot(s.slots, txn, reply.resp, f);
    }
  }

  lemma FieldIsTag(fields: seq<Field>, f: Field)
    requires f in fields
    ensures f.tag in TagsOf(fields)
  {
    var i :| 0 <= i < |fields| && fields[i] == f;
    assert TagsOf(fields)[i] == f.tag;
  }

  lemma {:induction false} AnswerReplacesSlot(slots: seq<Snapshot>, txn: Transaction, resp: Response, f: Field)
    requires f in txn.fields && f.tag < |slots| && slots[f.tag].quality == Good && !resp.WriteAck?
    ensures AfterScatter(slots, txn, resp)[f.tag] != slots[f.tag]
  {
    var s := Scatter(txn, resp);
    FieldIsTag(txn.fields, f);
    ScatterSettlesEveryField(txn, resp);
    assert f.tag in multiset(UpdatedTags(s.updates)) + multiset(s.bad);
    if f.tag !in s.bad {
      var i :| 0 <= i < |UpdatedTags(s.updates)| && UpdatedTags(s.updates)[i] == f.tag;
      assert s.updates[i].0 == f.tag;
      PublishTouches(slots, s.updates, f.tag);
    }
  }

  // A run in which the first case occurs.

  function WitnessRead(): Transaction {
    Transaction(Read(Holding, 0, 1), 0, [Field(0, 0, 1)], false)
  }

  function WitnessConfig(): Config {
    var retry := RetryConfig(0, 100, 1000);
    Config([DevicePlan(0, 1, 2, 500, retry, [0], [[WitnessRead()]])], retry, false, 0, 1)
  }

  function WitnessEntry(reply: Reply): Entry {
    Entry(Poll(0), Some(0), Call(1, 1, WitnessRead().req, 500, 0, 0, reply), true)
  }

  lemma WitnessScatters(slots: seq<Snapshot>)
    requires slots == [NEVER_READ]
    ensures AfterScatter(slots, WitnessRead(), RegisterReply([7])) == [Snapshot(Registers([7]), Good, 1)]
  {
    var fields, resp := WitnessRead().fields, RegisterReply([7]);
    assert fields[..0] == [] && SliceAll(fields[..0], resp) == Scattered([], []);
    assert [7][0..1] == [7];
    var updates: seq<Update> := [(0, Registers([7]))];
    assert Scatter(WitnessRead(), resp) == Scattered(updates, []);
    assert updates[..0] == [];
    assert Publish(slots, updates) == [Snapshot(Registers([7]), Good, 1)];
  }

  lemma WitnessPolls(s: Task, reply: Reply)
    requires Alive(WitnessConfig(), s) && s.conn == 1 && |s.views| == |s.overrides| == 1 && s.overrides[0] == map[]
    requires Paced(s.log, 0) && EndOf(s.log) == 0
    ensures Enabled(WitnessConfig(), s, PollEnds(Slot(0, 0, 0), WitnessRead(), [WitnessEntry(reply)], reply))
  {
    var es := [WitnessEntry(reply)];
    assert es[..0] == [];
    PacedAppends(s.log, 0, es[0]);
    assert Effective(s.overrides[0], 0, 0, WitnessRead()) == [WitnessRead()];
    assert WitnessRead() in [WitnessRead()];
  }

  /** The witness's state on its one connection. */
  ghost predicate Witness(s: Task, log: Log, slots: seq<Snapshot>) {
    && Alive(WitnessConfig(), s) && s.conn == 1 && !s.swept && |s.views| == |s.overrides| == 1
    && s.views[0] == NewWatch(WitnessConfig().devices[0].retry) && s.overrides[0] == map[]
    && s.log == log && s.slots == slots && Paced(log, 0) && EndOf(log) == 0
  }

  lemma WitnessAnswered() returns (run: seq<Task>)
    ensures RunOk(WitnessConfig(), run) && |run| == 3
    ensures Witness(run[2], [WitnessEntry(Ok(RegisterReply([7])))], [NEVER_READ])
  {
    var cfg, good := WitnessConfig(), Ok(RegisterReply([7]));
    var s0 := SpawnState(cfg, [NEVER_READ]);
    SpawnRuns(cfg, [NEVER_READ]);
    var s1 := Connected(s0);
    RunExtends(cfg, [s0], s1, Connects);
    WitnessPolls(s1, good);
    var s2 := Settled(cfg, s1, 0, s1.log + [WitnessEntry(good)], good);
    RunExtends(cfg, [s0] + [s1], s2, PollEnds(Slot(0, 0, 0), WitnessRead(), [WitnessEntry(good)], good));
    run := [s0] + [s1] + [s2];
  }

  lemma WitnessPublished() returns (run: seq<Task>)
    ensures RunOk(WitnessConfig(), run) && |run| == 4
    ensures Witness(run[3], [WitnessEntry(Ok(RegisterReply([7])))], [Snapshot(Registers([7]), Good, 1)])
  {
    var resp := RegisterReply([7]);
    run := WitnessAnswered();
    var s := run[2].(slots := AfterScatter(run[2].slots, WitnessRead(), resp));
    WitnessScatters(run[2].slots);
    WitnessPolls(run[2], Ok(resp));
    RunExtends(WitnessConfig(), run, s, Publishes(Slot(0, 0, 0), WitnessRead(), resp));
    run := run + [s];
  }

  /** It does occur: a device answers, its next poll is a fatal error, and its tag
      stays Good with the value of the answer. */
  lemma GoodOutlivesAFatalError() returns (run: seq<Task>)
    ensures WitnessConfig().Valid() && RunOk(WitnessConfig(), run) && |run| == 5
    ensures var s := run[4];
            && |s.log| == 2 && s.log[0].reply.Ok? && s.log[1].reply.IsFatal() && s.log[1].req == s.log[0].req
            && s.slots == [Snapshot(Registers([7]), Good, 1)]
  {
    var fatal: Reply := Err(Io);
    WitnessIsValid();
    run := WitnessPublished();
    WitnessPolls(run[3], fatal);
    var s := Settled(WitnessConfig(), run[3], 0, run[3].log + [WitnessEntry(fatal)], fatal);
    RunExtends(WitnessConfig(), run, s, PollEnds(Slot(0, 0, 0), WitnessRead(), [WitnessEntry(fatal)], fatal));
    WitnessFails(run[3], s);
    run := run + [s];
  }

  lemma WitnessFails(s: Task, s': Task)
    requires Witness(s, [WitnessEntry(Ok(RegisterReply([7])))], [Snapshot(Registers([7]), Good, 1)])
    requires s' == Settled(WitnessConfig(), s, 0, s.log + [WitnessEntry(Err(Io))], Err(Io))
    ensures s'.slots == s.slots && s'.log == s.log + [WitnessEntry(Err(Io))]
  {
  }

  lemma WitnessIsValid()
    ensures WitnessConfig().Valid()
  {
    var dev := WitnessConfig().devices[0];
    assert dev.byGroup[0][0] == WitnessRead();
  }

  /** Only a timeout on a full-duplex transport, or a busy device or an unreachable
      target, is retried; a poll that ends in one has used up its budget: none for a
      probe of an offline device, else the configured one. */
  lemma {:induction false} TransientErrorsAreRetried(cfg: Config, run: seq<Task>, k: nat, i: nat)
    requires cfg.Valid() && RunOk(cfg, run) && k < |run| && i < |run[k].log| && run[k].log[i].kind.Poll?
    ensures var log := run[k].log; var reply := log[i].reply;
            && log[i].device.Some? && log[i].device.value < |cfg.devices|
            && (var d := log[i].device.value;
                var transient := || (reply == Err(Timeout) && !cfg.halfDuplex)
                                 || reply == Err(Exception(ServerDeviceBusy))
                                 || reply == Err(Exception(GatewayTargetDevice));
                && (!log[i].settled ==> transient)
                && (log[i].settled && transient ==>
                      log[i].kind.attempt == if FailuresSinceAnswer(History(log[..i], d)) < Threshold(cfg.devices[d])
                                             then cfg.devices[d].retry.maxRetries else 0))
  {
    EveryRun(cfg, run, k);
    var log := run[k].log;
    assert PolledOk(cfg.devices, log[i]);
    var d := log[i].device.value;
    assert RetryOk(cfg.devices, cfg.halfDuplex, log, i);
    WatchCountsFailures(History(log[..i], d), Threshold(cfg.devices[d]), cfg.devices[d].retry);
  }

  /** A request to a device that is offline is a probe, and is never retried; one
      to a device that is online is retried within its budget. */
  lemma {:induction false} ProbesAreSingleShot(cfg: Config, run: seq<Task>, k: nat, i: nat)
    requires cfg.Valid() && RunOk(cfg, run) && k < |run| && i < |run[k].log| && run[k].log[i].kind.Poll?
    requires run[k].log[i].kind.attempt > 0
    ensures var log := run[k].log;
            && log[i].device.Some? && log[i].device.value < |cfg.devices|
            && (var d := log[i].device.value;
                && log[i].kind.attempt <= cfg.devices[d].retry.maxRetries
                && FailuresSinceAnswer(History(log[..i], d)) < Threshold(cfg.devices[d]))
  {
    EveryRun(cfg, run, k);
    var log := run[k].log;
    assert PolledOk(cfg.devices, log[i]);
    var d := log[i].device.value;
    assert RetryOk(cfg.devices, cfg.halfDuplex, log, i);
    WatchCountsFailures(History(log[..i], d), Threshold(cfg.devices[d]), cfg.devices[d].retry);
  }

  /** `reconnects` counts the waits. For positive base and limit the first wait
      after a connection that carried an answer is nominally the base delay, and
      the k-th after that min(base * 2^k, max); jitter at most halves it. */
  lemma {:induction false} ReconnectsBackOff(cfg: Config, run: seq<Task>, k: nat, i: nat)
    requires cfg.Valid() && RunOk(cfg, run) && k < |run| && i < |run[k].waits|
    requires cfg.retry.baseBackoffMs >= 1 && cfg.retry.maxBackoffMs >= 1
    ensures var waits := run[k].waits; var n := Streak(waits[..i + 1]);
            && run[k].pauses.reconnects == |waits|
            && n >= 1 && (waits[i].healthy ==> n == 1)
            && waits[i].nominalMs == (if n == 1 then cfg.retry.baseBackoffMs
                                      else Min(cfg.retry.baseBackoffMs * Pow2(n - 1), cfg.retry.maxBackoffMs))
            && waits[i].nominalMs / 2 <= waits[i].delayMs <= waits[i].nominalMs
  {
    EveryRun(cfg, run, k);
    var waits := run[k].waits;
    assert WaitOk(waits, cfg.retry, i);
    if Streak(waits[..i + 1]) > 1 {
      ReconnectDelayIsExponential(cfg.retry, Streak(waits[..i + 1]) - 1);
    }
  }
}
