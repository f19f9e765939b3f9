/** A channel task as a state machine on values: what each kind of step does to the
    watchdogs, the cache, the wire log and the books, and what every step keeps. */
module ChannelMachine {
  import opened MbTypes
  import opened MbProto
  import opened Coalesce
  import opened Reading
  import opened Cache
  import opened Device
  import opened Wire
  import opened Ticks
  import opened ChannelLaws

  datatype Config = Config(devices: seq<DevicePlan>, retry: RetryConfig, halfDuplex: bool, gapMs: nat, tagCount: nat) {
    ghost predicate Valid() {
      PlanOk(devices, tagCount) && retry.Valid()
    }
  }

  /** The connection: its number, and what the drain rule and the backoff look at. */
  datatype Link = Link(conn: nat, up: bool, consec: nat, healthy: bool, swept: bool)

  /** All requests so far, and what is counted of them. */
  datatype Traffic = Traffic(log: Log, counters: Counters, wire: seq<Call>, endedAt: nat)

  /** The commands taken so far, and how each was answered. */
  datatype Orders = Orders(taken: seq<WriteCommand>, fates: seq<Fate>, answers: seq<Reply>, writesOk: nat,
                           writesErr: nat)

  datatype Pauses = Pauses(waits: seq<Wait>, reconnects: nat, backoffMs: nat)

  datatype Task = Task(
    views: seq<Watch>, overrides: seq<Overrides>, slots: seq<Snapshot>, link: Link, traffic: Traffic, orders: Orders,
    pauses: Pauses)
  {
    const conn: nat := link.conn
    const consec: nat := link.consec
    const healthy: bool := link.healthy
    const swept: bool := link.swept
    const log: Log := traffic.log
    const taken: seq<WriteCommand> := orders.taken
    const fates: seq<Fate> := orders.fates
    const waits: seq<Wait> := pauses.waits
  }

  /** What is counted of a log. */
  function TrafficOf(log: Log): Traffic {
    Traffic(log, Tally(log), Calls(log), EndOf(log))
  }

  // ----- What every reachable state keeps -----

  ghost predicate TagInv(cfg: Config, s: Task) {
    && |s.views| == |cfg.devices| && |s.slots| == cfg.tagCount
    && DeadTagsBad(cfg.devices, s.views, s.swept, s.slots)
  }

  ghost predicate BookInv(cfg: Config, s: Task) {
    && s.traffic == TrafficOf(s.log) && s.orders.answers == Replies(s.fates)
    && CommandsOk(cfg.devices, s.log, s.taken, s.fates)
    && s.orders.writesOk == WritesOk(s.taken, s.fates) && s.orders.writesErr == WritesErr(s.taken, s.fates)
  }

  ghost predicate WaitInv(cfg: Config, s: Task) {
    && s.pauses.reconnects == |s.waits| && WaitsOk(s.waits, cfg.retry)
    && s.pauses.backoffMs == ReconnectDelay(cfg.retry, Streak(s.waits))
  }

  ghost predicate LineInv(cfg: Config, s: Task) {
    && LogOk(s.log, cfg.halfDuplex) && Paced(s.log, cfg.gapMs)
    && (s.log != [] ==> s.log[|s.log| - 1].conn <= s.conn && s.log[|s.log| - 1].settled)
    && s.healthy == AnsweredOn(s.log, s.conn)
    && (s.link.up ==> s.consec == TimeoutsInARow(s.log, s.conn))
  }

  /** Polls follow the plan, and retries the budget. */
  ghost predicate PollInv(cfg: Config, log: Log) {
    RetriesOk(cfg.devices, cfg.halfDuplex, log) && AllPolledOk(cfg.devices, log)
  }

  ghost predicate Inv(cfg: Config, s: Task) {
    && TagInv(cfg, s)
    && WatchesFollow(cfg.devices, s.views, s.log)
    && PollInv(cfg, s.log)
    && SplitsOk(cfg.devices, s.overrides)
    && BookInv(cfg, s) && WaitInv(cfg, s) && LineInv(cfg, s)
  }

  /** Connected, and the connection may carry another request. */
  predicate Alive(cfg: Config, s: Task) {
    s.link.up && !s.swept && LinkOk(s.log, cfg.halfDuplex, s.conn, s.consec)
  }

  // ----- Polls -----

  /** One position of the plan. */
  datatype Slot = Slot(d: nat, group: nat, index: nat)

  /** The slot's transaction, or one of its remembered split. */
  ghost predicate CanPoll(cfg: Config, s: Task, slot: Slot, txn: Transaction) {
    && slot.d < |cfg.devices| == |s.overrides| == |s.views|
    && InSlot(cfg.devices[slot.d], s.overrides[slot.d], slot.group, slot.index, txn)
  }

  lemma {:induction false} CanPollIsPlanned(cfg: Config, s: Task, slot: Slot, txn: Transaction)
    requires cfg.Valid() && SplitsOk(cfg.devices, s.overrides) && CanPoll(cfg, s, slot, txn)
    ensures Planned(cfg.devices[slot.d], slot.group, slot.index, txn) && PlannedRequest(cfg.devices[slot.d], txn.req)
  {
    EffectiveIsPlanned(cfg.devices[slot.d], s.overrides[slot.d], slot.group, slot.index);
  }

  /** The last request on the wire was a poll of device `d`, and its reply this. */
  predicate JustReplied(s: Task, d: nat, req: Request, reply: Reply) {
    s.log != [] &&
    var e := s.log[|s.log| - 1];
    e.kind.Poll? && e.settled && e.device == Some(d) && e.req == req && e.reply == reply
  }

  /** As many attempts as the device's budget allows in state `s`; all of them, if
      the last error may be retried. */
  predicate WithinBudget(cfg: Config, s: Task, d: nat, es: Log, reply: Reply)
    requires d < |cfg.devices| && d < |s.views|
  {
    var budget := RetryBudget(s.views[d].online, cfg.devices[d].retry);
    && |es| <= 1 + budget
    && (reply.Err? && IsRetryable(reply.error, cfg.halfDuplex) ==> |es| == 1 + budget)
  }

  /** What a poll of device `d` asks the transport for. */
  predicate CallFits(cfg: Config, conn: nat, d: nat, req: Request, call: Call)
    requires d < |cfg.devices|
  {
    && call.conn == conn && call.unit == cfg.devices[d].unit && call.req == req
    && call.timeoutMs == cfg.devices[d].requestTimeoutMs
  }

  predicate RetriedAttempt(cfg: Config, conn: nat, d: nat, req: Request, e: Entry, k: nat)
    requires d < |cfg.devices|
  {
    && e == Entry(Poll(k), Some(d), e.call, false) && CallFits(cfg, conn, d, req, e.call)
    && e.reply.Err? && IsRetryable(e.reply.error, cfg.halfDuplex)
  }

  /** All attempts so far ended in an error that may be retried. */
  ghost predicate Retried(cfg: Config, conn: nat, d: nat, req: Request, es: Log)
    requires d < |cfg.devices|
  {
    forall k :: 0 <= k < |es| ==> RetriedAttempt(cfg, conn, d, req, es[k], k)
  }

  /** One poll request with its retries: only the last attempt is settled. */
  ghost predicate Exchange(cfg: Config, conn: nat, d: nat, req: Request, es: Log, reply: Reply)
    requires d < |cfg.devices|
  {
    && es != []
    && Retried(cfg, conn, d, req, es[..|es| - 1])
    && var call := es[|es| - 1].call;
       && es[|es| - 1] == Entry(Poll(|es| - 1), Some(d), call, true)
       && CallFits(cfg, conn, d, req, call) && call.reply == reply
  }

  /** One more attempt that will be retried. */
  lemma {:induction false} RetriedGrows(cfg: Config, conn: nat, d: nat, req: Request, es: Log, call: Call)
    requires d < |cfg.devices| && Retried(cfg, conn, d, req, es) && CallFits(cfg, conn, d, req, call)
    requires call.reply.Err? && IsRetryable(call.reply.error, cfg.halfDuplex)
    ensures Retried(cfg, conn, d, req, es + [Entry(Poll(|es|), Some(d), call, false)])
  {
    var next := es + [Entry(Poll(|es|), Some(d), call, false)];
    forall k | 0 <= k < |next|
      ensures RetriedAttempt(cfg, conn, d, req, next[k], k)
    {
      assert k < |es| ==> RetriedAttempt(cfg, conn, d, req, es[k], k);
    }
  }

  /** The last attempt ends the exchange. */
  lemma {:induction false} ExchangeCloses(cfg: Config, conn: nat, d: nat, req: Request, es: Log, call: Call)
    requires d < |cfg.devices| && Retried(cfg, conn, d, req, es) && CallFits(cfg, conn, d, req, call)
    ensures Exchange(cfg, conn, d, req, es + [Entry(Poll(|es|), Some(d), call, true)], call.reply)
  {
    var e := Entry(Poll(|es|), Some(d), call, true);
    assert (es + [e])[..|es|] == es;
  }

  lemma TallyOfAttempt(log: Log, es: Log, e: Entry)
    ensures Tally(log + (es + [e])) == Bump(Tally(log + es), e.reply)
  {
    TallyOfOneMore(log + es, e);
    assert (log + es) + [e] == log + (es + [e]);
  }

  ghost predicate SameHistories(a: Log, b: Log) {
    forall i: nat :: History(a, i) == History(b, i)
  }

  lemma {:induction false} RetriesKeep(cfg: Config, s: Task, d: nat, req: Request, es: Log)
    requires d < |cfg.devices| && Retried(cfg, s.conn, d, req, es)
    requires BookInv(cfg, s) && LineInv(cfg, s) && Alive(cfg, s)
    ensures LogOk(s.log + es, cfg.halfDuplex)
    ensures SameHistories(s.log, s.log + es)
    ensures AnsweredOn(s.log + es, s.conn) == s.healthy
    ensures TimeoutsInARow(s.log + es, s.conn) == s.consec
    ensures CommandsOk(cfg.devices, s.log + es, s.taken, s.fates)
    decreases |es|
  {
    hide CommandsOk, CommandEntryOk, Paced;
    if es == [] {
      assert s.log + es == s.log;
    } else {
      var n := |es| - 1;
      var init, e := es[..n], es[n];
      RetriesKeep(cfg, s, d, req, init);
      assert RetriedAttempt(cfg, s.conn, d, req, e, n);
      assert s.log + es == (s.log + init) + [e];
      assert ((s.log + init) + [e])[..|s.log + init|] == s.log + init;
      QuietEntry(s.log + init, e);
      PollKeepsCommands(cfg.devices, s.log + init, e, s.taken, s.fates);
      AttemptCarries(cfg, s, d, req, es);
    }
  }

  /** The link carries the next attempt. */
  lemma {:induction false} AttemptCarries(cfg: Config, s: Task, d: nat, req: Request, es: Log)
    requires d < |cfg.devices| && es != [] && Retried(cfg, s.conn, d, req, es)
    requires LogOk(s.log + es[..|es| - 1], cfg.halfDuplex) && Alive(cfg, s)
    ensures LogOk((s.log + es[..|es| - 1]) + [es[|es| - 1]], cfg.halfDuplex)
  {
    var n := |es| - 1;
    assert RetriedAttempt(cfg, s.conn, d, req, es[n], n);
    if n == 0 {
      assert s.log + es[..n] == s.log;
      LinkCarries(s.log, es[n], cfg.halfDuplex, s.consec);
    } else {
      assert RetriedAttempt(cfg, s.conn, d, req, es[n - 1], n - 1);
      RetryCarries(s.log + es[..n], es[n], cfg.halfDuplex);
    }
  }

  /** The new streak of timeouts after a reply. */
  function NextConsec(s: Task, reply: Reply): nat {
    if reply.IsAnswer() then 0 else if reply.IsTimeout() then s.consec + 1 else s.consec
  }

  /** The log ends with a settled request of this connection. */
  predicate EndsOn(log: Log, conn: nat) {
    log != [] && log[|log| - 1].conn == conn && log[|log| - 1].settled
  }

  function EventFor(reply: Reply, at: nat): Event {
    if reply.IsAnswer() then Answered else Failed(at)
  }

  /** The log before the last attempt of an exchange. */
  ghost predicate BeforeLast(cfg: Config, s: Task, mid: Log, e: Entry) {
    && LogOk(mid, cfg.halfDuplex) && SameHistories(s.log, mid)
    && AnsweredOn(mid, s.conn) == s.healthy && TimeoutsInARow(mid, s.conn) == s.consec
    && CommandsOk(cfg.devices, mid, s.taken, s.fates)
    && (mid == s.log || AwaitsRetry(mid, cfg.halfDuplex, e))
  }

  lemma {:induction false} RetriesAwait(cfg: Config, s: Task, d: nat, req: Request, init: Log, e: Entry)
    requires d < |cfg.devices| && Retried(cfg, s.conn, d, req, init) && init != []
    requires e == Entry(Poll(|init|), Some(d), e.call, true) && CallFits(cfg, s.conn, d, req, e.call)
    ensures AwaitsRetry(s.log + init, cfg.halfDuplex, e)
  {
    var n := |init| - 1;
    assert RetriedAttempt(cfg, s.conn, d, req, init[n], n);
    assert (s.log + init)[|s.log| + n] == init[n];
  }

  lemma {:induction false} ExchangeLast(cfg: Config, s: Task, d: nat, req: Request, es: Log, reply: Reply)
    returns (mid: Log, e: Entry)
    requires d < |cfg.devices| && Exchange(cfg, s.conn, d, req, es, reply)
    requires BookInv(cfg, s) && LineInv(cfg, s) && Alive(cfg, s)
    ensures s.log + es == mid + [e] && BeforeLast(cfg, s, mid, e) && (mid == s.log <==> |es| == 1)
    ensures e == Entry(Poll(|es| - 1), Some(d), e.call, true) && e == es[|es| - 1]
    ensures CallFits(cfg, s.conn, d, req, e.call) && e.reply == reply
  {
    var n := |es| - 1;
    var init := es[..n];
    mid, e := s.log + init, es[n];
    assert es == init + [e];
    assert s.log + (init + [e]) == mid + [e];
    RetriesKeep(cfg, s, d, req, init);
    if n > 0 {
      RetriesAwait(cfg, s, d, req, init, e);
      assert |mid| > |s.log|;
    }
  }

  lemma {:induction false} ExchangeKeeps(cfg: Config, s: Task, d: nat, req: Request, es: Log, reply: Reply)
    requires d < |cfg.devices| && Exchange(cfg, s.conn, d, req, es, reply)
    requires BookInv(cfg, s) && LineInv(cfg, s) && Alive(cfg, s)
    ensures LogOk(s.log + es, cfg.halfDuplex) && EndsOn(s.log + es, s.conn)
    ensures NewlyDone(s.log, s.log + es, d, EventFor(reply, es[|es| - 1].call.endedAt))
    ensures AnsweredOn(s.log + es, s.conn) == (s.healthy || reply.IsAnswer())
    ensures TimeoutsInARow(s.log + es, s.conn) == NextConsec(s, reply)
    ensures CommandsOk(cfg.devices, s.log + es, s.taken, s.fates)
  {
    var mid, e := ExchangeLast(cfg, s, d, req, es, reply);
    assert (mid + [e])[..|mid|] == mid;
    CountedEntry(mid, e);
    PollKeepsCommands(cfg.devices, mid, e, s.taken, s.fates);
    if |es| == 1 {
      LinkCarries(s.log, e, cfg.halfDuplex, s.consec);
    } else {
      RetryCarries(mid, e, cfg.halfDuplex);
    }
  }

  /** Every attempt but the first goes to a device that is online. */
  lemma {:induction false} AttemptKeepsBudget(cfg: Config, s: Task, d: nat, req: Request, init: Log, e: Entry)
    requires d < |cfg.devices| && Retried(cfg, s.conn, d, req, init) && BookInv(cfg, s) && LineInv(cfg, s)
    requires Alive(cfg, s)
    requires WatchesFollow(cfg.devices, s.views, s.log)
    requires |init| <= RetryBudget(s.views[d].online, cfg.devices[d].retry)
    requires e.settled ==> WithinBudget(cfg, s, d, init + [e], e.reply)
    requires !e.settled ==> e.reply.Err? && IsRetryable(e.reply.error, cfg.halfDuplex)
    requires e.kind == Poll(|init|) && e.device == Some(d)
    ensures RetryOk(cfg.devices, cfg.halfDuplex, (s.log + init) + [e], |s.log + init|)
  {
    RetriesKeep(cfg, s, d, req, init);
    assert ((s.log + init) + [e])[..|s.log + init|] == s.log + init;
    assert History(s.log + init, d) == History(s.log, d);
  }

  lemma {:induction false} AttemptsKeepBudget(cfg: Config, s: Task, d: nat, req: Request, es: Log)
    requires d < |cfg.devices| && Retried(cfg, s.conn, d, req, es) && BookInv(cfg, s) && LineInv(cfg, s)
    requires Alive(cfg, s)
    requires WatchesFollow(cfg.devices, s.views, s.log)
    requires |es| <= 1 + RetryBudget(s.views[d].online, cfg.devices[d].retry)
    requires RetriesOk(cfg.devices, cfg.halfDuplex, s.log)
    ensures RetriesOk(cfg.devices, cfg.halfDuplex, s.log + es)
    decreases |es|
  {
    if es == [] {
      assert s.log + es == s.log;
    } else {
      var n := |es| - 1;
      assert RetriedAttempt(cfg, s.conn, d, req, es[n], n);
      assert es[..n] + [es[n]] == es;
      AttemptsKeepBudget(cfg, s, d, req, es[..n]);
      AttemptKeepsBudget(cfg, s, d, req, es[..n], es[n]);
      RetriesOkAppends(cfg.devices, cfg.halfDuplex, s.log + es[..n], es[n]);
      assert s.log + es == (s.log + es[..n]) + [es[n]];
    }
  }

  lemma {:induction false} ExchangeFollowsPlan(cfg: Config, s: Task, d: nat, req: Request, es: Log, reply: Reply)
    requires d < |cfg.devices| && Exchange(cfg, s.conn, d, req, es, reply)
    requires AllPolledOk(cfg.devices, s.log) && PlannedRequest(cfg.devices[d], req)
    ensures AllPolledOk(cfg.devices, s.log + es)
  {
    forall k | 0 <= k < |es|
      ensures PolledOk(cfg.devices, es[k])
    {
      assert k < |es| - 1 ==> RetriedAttempt(cfg, s.conn, d, req, es[..|es| - 1][k], k);
    }
    PolledOkAppends(cfg.devices, s.log, es);
  }

  lemma {:induction false} ExchangeKeepsPolls(cfg: Config, s: Task, d: nat, req: Request, es: Log, reply: Reply)
    requires d < |cfg.devices| && Exchange(cfg, s.conn, d, req, es, reply) && BookInv(cfg, s) && LineInv(cfg, s)
    requires Alive(cfg, s)
    requires WatchesFollow(cfg.devices, s.views, s.log) && WithinBudget(cfg, s, d, es, reply) && PollInv(cfg, s.log)
    requires PlannedRequest(cfg.devices[d], req)
    ensures PollInv(cfg, s.log + es)
  {
    hide BookInv, LineInv, Alive, WatchesFollow, PlannedRequest;
    var n := |es| - 1;
    ExchangeFollowsPlan(cfg, s, d, req, es, reply);
    assert es[..n] + [es[n]] == es;
    AttemptsKeepBudget(cfg, s, d, req, es[..n]);
    AttemptKeepsBudget(cfg, s, d, req, es[..n], es[n]);
    RetriesOkAppends(cfg.devices, cfg.halfDuplex, s.log + es[..n], es[n]);
    assert s.log + es == (s.log + es[..n]) + [es[n]];
  }

  lemma {:induction false} ExchangeLink(cfg: Config, s: Task, d: nat, req: Request, es: Log, reply: Reply)
    requires d < |cfg.devices| && Exchange(cfg, s.conn, d, req, es, reply)
    requires BookInv(cfg, s) && LineInv(cfg, s) && Alive(cfg, s)
    requires !reply.IsFatal() && !(cfg.halfDuplex && NextConsec(s, reply) >= 2)
    ensures LinkOk(s.log + es, cfg.halfDuplex, s.conn, NextConsec(s, reply))
  {
    var mid, e := ExchangeLast(cfg, s, d, req, es, reply);
    if |es| == 1 {
      LinkAfter(s.log, e, cfg.halfDuplex, s.consec, NextConsec(s, reply));
    } else {
      LinkAfterRetry(mid, e, cfg.halfDuplex, NextConsec(s, reply));
    }
  }

  // ----- One request of a device has ended -----

  function Revived(cfg: Config, s: Task, d: nat): Task
    requires d < |cfg.devices| && d < |s.views|
  {
    s.(link := s.link.(consec := 0, healthy := true),
       views := s.views[d := AfterAnswer(s.views[d], cfg.devices[d].retry)])
  }

  function Dropped(cfg: Config, s: Task, d: nat, at: nat): Task
    requires d < |cfg.devices| && d < |s.views|
  {
    var w := AfterFailure(s.views[d], Threshold(cfg.devices[d]), cfg.devices[d].retry, at);
    var s' := s.(views := s.views[d := w]);
    if s.views[d].online && !w.online then s'.(slots := Requalify(s.slots, cfg.devices[d].allTags, Bad)) else s'
  }

  /** An answer revives the device and clears the streak of timeouts; a failure
      counts against it and, at the threshold, sweeps its tags. */
  function Settled(cfg: Config, s: Task, d: nat, log: Log, reply: Reply): Task
    requires d < |cfg.devices| && d < |s.views| && log != []
  {
    (if reply.IsAnswer() then Revived(cfg, s, d)
     else Dropped(cfg, s, d, EndOf(log)).(link := s.link.(consec := NextConsec(s, reply))))
    .(traffic := TrafficOf(log))
  }

  lemma {:induction false} SettledTags(cfg: Config, s: Task, d: nat, log: Log, reply: Reply)
    requires TagInv(cfg, s) && d < |cfg.devices| && !s.swept && log != []
    ensures TagInv(cfg, Settled(cfg, s, d, log, reply))
  {
    var s' := Settled(cfg, s, d, log, reply);
    forall e | 0 <= e < |cfg.devices| && !s'.views[e].online
      ensures AllBad(s'.slots, cfg.devices[e].allTags)
    {
      if e != d || !s.views[d].online {
        assert AllBad(s.slots, cfg.devices[e].allTags);
        RequalifyKeepsBad(s.slots, cfg.devices[d].allTags, cfg.devices[e].allTags);
      }
    }
  }

  lemma {:induction false} SettledKeeps(cfg: Config, s: Task, d: nat, log: Log, reply: Reply)
    requires d < |cfg.devices| && !s.swept
    requires TagInv(cfg, s) && WatchesFollow(cfg.devices, s.views, s.log) && SplitsOk(cfg.devices, s.overrides)
    requires WaitInv(cfg, s)
    requires log != [] && NewlyDone(s.log, log, d, EventFor(reply, log[|log| - 1].call.endedAt))
    requires LogOk(log, cfg.halfDuplex) && EndsOn(log, s.conn) && Paced(log, cfg.gapMs)
    requires AnsweredOn(log, s.conn) == (s.healthy || reply.IsAnswer())
    requires TimeoutsInARow(log, s.conn) == NextConsec(s, reply)
    requires BookInv(cfg, s.(traffic := TrafficOf(log))) && PollInv(cfg, log)
    ensures Inv(cfg, Settled(cfg, s, d, log, reply))
  {
    hide CommandsOk, LogOk, Paced, RetriesOk, AllPolledOk, SplitsOk, DeadTagsBad, WaitsOk;
    SettledTags(cfg, s, d, log, reply);
    EventFollows(cfg.devices, s.views, s.log, log, d, EventFor(reply, log[|log| - 1].call.endedAt));
  }

  /** One polled request, retries included, has ended. */
  lemma {:induction false} PollKeeps(cfg: Config, s: Task, slot: Slot, txn: Transaction, es: Log, reply: Reply)
    requires cfg.Valid() && Inv(cfg, s) && Alive(cfg, s) && CanPoll(cfg, s, slot, txn)
    requires Exchange(cfg, s.conn, slot.d, txn.req, es, reply) && WithinBudget(cfg, s, slot.d, es, reply)
    requires Paced(s.log + es, cfg.gapMs)
    ensures var s' := Settled(cfg, s, slot.d, s.log + es, reply);
            && Inv(cfg, s')
            && (!reply.IsFatal() && !(cfg.halfDuplex && s'.consec >= 2) ==> Alive(cfg, s'))
            && (reply.IsAnswer() ==> s'.views[slot.d].online && Alive(cfg, s'))
  {
    CanPollIsPlanned(cfg, s, slot, txn);
    PollKeepsInv(cfg, s, slot.d, txn.req, es, reply);
    if !reply.IsFatal() && !(cfg.halfDuplex && NextConsec(s, reply) >= 2) {
      ExchangeLink(cfg, s, slot.d, txn.req, es, reply);
    }
  }

  lemma {:induction false} PollKeepsInv(cfg: Config, s: Task, d: nat, req: Request, es: Log, reply: Reply)
    requires Inv(cfg, s) && Alive(cfg, s) && d < |cfg.devices| && PlannedRequest(cfg.devices[d], req)
    requires Exchange(cfg, s.conn, d, req, es, reply) && WithinBudget(cfg, s, d, es, reply)
    requires Paced(s.log + es, cfg.gapMs)
    ensures Inv(cfg, Settled(cfg, s, d, s.log + es, reply))
  {
    ExchangeKeeps(cfg, s, d, req, es, reply);
    ExchangeKeepsPolls(cfg, s, d, req, es, reply);
    SettledKeeps(cfg, s, d, s.log + es, reply);
  }

  /** What an exception reply does to the split overrides and the cache. */
  function AfterException(s: Task, d: nat, group: nat, index: nat, txn: Transaction, exc: ExceptionCode): Task
    requires d < |s.overrides|
  {
    if MustSplit(s.overrides[d], (group, index), txn, exc) then
      s.(overrides := s.overrides[d := s.overrides[d][(group, index) := SplitTxn(txn)]])
    else
      s.(slots := Requalify(s.slots, TagsOf(txn.fields), Bad))
  }

  /** A step that writes nothing but the cache. */
  lemma {:induction false} SlotsKeep(cfg: Config, s: Task, slots: seq<Snapshot>)
    requires Inv(cfg, s) && |slots| == cfg.tagCount && DeadTagsBad(cfg.devices, s.views, s.swept, slots)
    ensures Inv(cfg, s.(slots := slots))
  {
  }

  /** A step that adds nothing but an override. */
  lemma {:induction false} OverridesKeep(cfg: Config, s: Task, overrides: seq<Overrides>)
    requires Inv(cfg, s) && SplitsOk(cfg.devices, overrides)
    ensures Inv(cfg, s.(overrides := overrides))
  {
  }

  lemma {:induction false} ExceptionKeeps(cfg: Config, s: Task, d: nat, group: nat, index: nat, txn: Transaction,
                                          exc: ExceptionCode)
    requires Inv(cfg, s) && d < |cfg.devices|
    requires Planned(cfg.devices[d], group, index, txn)
    ensures Inv(cfg, AfterException(s, d, group, index, txn, exc))
  {
    if MustSplit(s.overrides[d], (group, index), txn, exc) {
      SplitIsOk(cfg.devices, s.overrides, d, group, index, txn, exc);
      OverridesKeep(cfg, s, s.overrides[d := s.overrides[d][(group, index) := SplitTxn(txn)]]);
    } else {
      BadKeepsDead(cfg.devices, s.views, s.swept, s.slots, TagsOf(txn.fields));
      SlotsKeep(cfg, s, Requalify(s.slots, TagsOf(txn.fields), Bad));
    }
  }

  lemma {:induction false} ScatterKeeps(cfg: Config, s: Task, d: nat, txn: Transaction, resp: Response)
    requires cfg.Valid() && Inv(cfg, s) && d < |cfg.devices| && OwnTags(cfg.devices[d], txn)
    requires !s.swept && s.views[d].online
    ensures Inv(cfg, s.(slots := AfterScatter(s.slots, txn, resp)))
  {
    var slots := AfterScatter(s.slots, txn, resp);
    ScatterTouches(s.slots, txn, resp, cfg.devices[d].allTags);
    LiveWritesKeepDead(cfg.devices, s.views, s.slots, slots, d);
    SlotsKeep(cfg, s, slots);
  }

  lemma {:induction false} DegradeKeeps(cfg: Config, s: Task, d: nat, txn: Transaction)
    requires cfg.Valid() && Inv(cfg, s) && d < |cfg.devices| && OwnTags(cfg.devices[d], txn)
    requires !s.swept && s.views[d].online
    ensures Inv(cfg, s.(slots := Requalify(s.slots, TagsOf(txn.fields), Uncertain)))
  {
    var slots := Requalify(s.slots, TagsOf(txn.fields), Uncertain);
    OwnFieldTags(txn, cfg.devices[d].allTags);
    LiveWritesKeepDead(cfg.devices, s.views, s.slots, slots, d);
    SlotsKeep(cfg, s, slots);
  }

  // ----- Commands -----

  function Disposed(s: Task, cmd: WriteCommand, fate: Fate): Task {
    s.(orders := Orders(s.taken + [cmd], s.fates + [fate], s.orders.answers + [ReplyTo(fate)],
                        s.orders.writesOk + WriteOk(cmd, fate), s.orders.writesErr + WriteErr(cmd, fate)))
  }

  lemma {:induction false} CountersOfOneMore(taken: seq<WriteCommand>, fates: seq<Fate>, cmd: WriteCommand, fate: Fate)
    requires |taken| == |fates|
    ensures WritesOk(taken + [cmd], fates + [fate]) == WritesOk(taken, fates) + WriteOk(cmd, fate)
    ensures WritesErr(taken + [cmd], fates + [fate]) == WritesErr(taken, fates) + WriteErr(cmd, fate)
    ensures Replies(fates + [fate]) == Replies(fates) + [ReplyTo(fate)]
  {
    assert (taken + [cmd])[..|taken|] == taken && (fates + [fate])[..|fates|] == fates;
  }

  /** A command is answered without reaching the wire. */
  lemma {:induction false} DisposedKeeps(cfg: Config, s: Task, cmd: WriteCommand, fate: Fate)
    requires Inv(cfg, s) && !fate.Sent? && FateFits(cmd, fate)
    ensures Inv(cfg, Disposed(s, cmd, fate))
    ensures Alive(cfg, s) ==> Alive(cfg, Disposed(s, cmd, fate))
  {
    DropKeepsCommands(cfg.devices, s.log, s.taken, s.fates, cmd, fate);
    CountersOfOneMore(s.taken, s.fates, cmd, fate);
  }

  ghost predicate FitsWire(cfg: Config, s: Task, cmd: WriteCommand, e: Entry) {
    && e.kind.Command? && e.kind.index == |s.taken| && e.conn == s.conn && e.settled
    && |s.taken| == |s.fates|
    && CommandEntryOk(cfg.devices, s.taken + [cmd], s.fates + [Sent(e.reply)], e)
  }

  /** The link survives a command unless the reply was fatal, or a timeout on a
      half-duplex stream. */
  predicate Breaks(cfg: Config, reply: Reply) {
    reply.IsFatal() || (cfg.halfDuplex && reply.IsTimeout())
  }

  lemma {:induction false} SentBooks(cfg: Config, s: Task, cmd: WriteCommand, e: Entry)
    requires BookInv(cfg, s) && FitsWire(cfg, s, cmd, e)
    ensures BookInv(cfg, Disposed(s, cmd, Sent(e.reply)).(traffic := TrafficOf(s.log + [e])))
  {
    hide CommandsOk, CommandEntryOk;
    SendKeepsCommands(cfg.devices, s.log, e, s.taken, s.fates, cmd);
    CountersOfOneMore(s.taken, s.fates, cmd, Sent(e.reply));
  }

  lemma {:induction false} SentPolls(cfg: Config, log: Log, e: Entry)
    requires PollInv(cfg, log) && e.kind.Command?
    ensures PollInv(cfg, log + [e])
  {
    RetriesOkAppends(cfg.devices, cfg.halfDuplex, log, e);
    PolledOkAppends(cfg.devices, log, [e]);
  }

  lemma {:induction false} SentLine(cfg: Config, s: Task, cmd: WriteCommand, e: Entry)
    requires LineInv(cfg, s) && Alive(cfg, s) && FitsWire(cfg, s, cmd, e)
    ensures LogOk(s.log + [e], cfg.halfDuplex) && EndsOn(s.log + [e], s.conn)
    ensures AnsweredOn(s.log + [e], s.conn) == (s.healthy || e.reply.IsAnswer())
    ensures TimeoutsInARow(s.log + [e], s.conn)
         == if e.device.Some? then NextConsec(s, e.reply) else if e.reply.IsAnswer() then 0 else s.consec
    ensures !Breaks(cfg, e.reply) ==>
              LinkOk(s.log + [e], cfg.halfDuplex, s.conn, if e.reply.IsAnswer() then 0 else s.consec)
    ensures !Breaks(cfg, e.reply) ==> LinkOk(s.log + [e], cfg.halfDuplex, s.conn, NextConsec(s, e.reply))
  {
    LinkCarries(s.log, e, cfg.halfDuplex, s.consec);
    assert (s.log + [e])[..|s.log|] == s.log;
    if !Breaks(cfg, e.reply) {
      LinkAfter(s.log, e, cfg.halfDuplex, s.consec, if e.reply.IsAnswer() then 0 else s.consec);
      LinkAfter(s.log, e, cfg.halfDuplex, s.consec, NextConsec(s, e.reply));
    }
  }

  /** A diagnostic read: it touches no watchdog and no tag. */
  function DiagnosticDone(s: Task, cmd: WriteCommand, e: Entry): Task {
    var s' := Disposed(s, cmd, Sent(e.reply)).(traffic := TrafficOf(s.log + [e]));
    if e.reply.IsAnswer() then s'.(link := s.link.(healthy := true, consec := 0)) else s'
  }

  lemma {:induction false} DiagnosticKeeps(cfg: Config, s: Task, cmd: WriteCommand, e: Entry)
    requires Inv(cfg, s) && Alive(cfg, s) && FitsWire(cfg, s, cmd, e) && e.device.None?
    requires Paced(s.log + [e], cfg.gapMs)
    ensures Inv(cfg, DiagnosticDone(s, cmd, e))
    ensures !Breaks(cfg, e.reply) ==> Alive(cfg, DiagnosticDone(s, cmd, e))
  {
    SentBooks(cfg, s, cmd, e);
    SentLine(cfg, s, cmd, e);
    SentPolls(cfg, s.log, e);
    QuietKeepsWatches(cfg.devices, s.views, s.log, e);
    var s' := DiagnosticDone(s, cmd, e);
    assert TagInv(cfg, s') && WaitInv(cfg, s');
    assert BookInv(cfg, s') && LineInv(cfg, s');
  }

  lemma {:induction false} QuietKeepsWatches(devices: seq<DevicePlan>, views: seq<Watch>, log: Log, e: Entry)
    requires WatchesFollow(devices, views, log) && e.device.None?
    ensures WatchesFollow(devices, views, log + [e])
  {
    QuietEntry(log, e);
    forall d | 0 <= d < |devices|
      ensures views[d] == WatchOf(devices[d], History(log + [e], d))
    {
      assert History(log + [e], d) == History(log, d);
    }
  }

  /** A write to device `d`. */
  function WriteDone(cfg: Config, s: Task, cmd: WriteCommand, e: Entry, d: nat): Task
    requires d < |cfg.devices| && d < |s.views|
  {
    Settled(cfg, Disposed(s, cmd, Sent(e.reply)), d, s.log + [e], e.reply)
  }

  lemma {:induction false} WriteKeeps(cfg: Config, s: Task, cmd: WriteCommand, e: Entry, d: nat)
    requires Inv(cfg, s) && Alive(cfg, s) && FitsWire(cfg, s, cmd, e) && e.device == Some(d)
    requires d < |cfg.devices| && Paced(s.log + [e], cfg.gapMs)
    ensures Inv(cfg, WriteDone(cfg, s, cmd, e, d))
    ensures !Breaks(cfg, e.reply) ==> Alive(cfg, WriteDone(cfg, s, cmd, e, d))
  {
    WriteInv(cfg, s, cmd, e, d);
    SentLine(cfg, s, cmd, e);
  }

  lemma {:induction false} WriteInv(cfg: Config, s: Task, cmd: WriteCommand, e: Entry, d: nat)
    requires Inv(cfg, s) && Alive(cfg, s) && FitsWire(cfg, s, cmd, e) && e.device == Some(d)
    requires d < |cfg.devices| && Paced(s.log + [e], cfg.gapMs)
    ensures Inv(cfg, WriteDone(cfg, s, cmd, e, d))
  {
    SentBooks(cfg, s, cmd, e);
    SentLine(cfg, s, cmd, e);
    SentPolls(cfg, s.log, e);
    CountedEntry(s.log, e);
    SettledKeeps(cfg, Disposed(s, cmd, Sent(e.reply)), d, s.log + [e], e.reply);
  }

  // ----- Connections -----

  function Connected(s: Task): Task {
    s.(link := Link(s.conn + 1, true, 0, false, false))
  }

  lemma {:induction false} ConnectedKeeps(cfg: Config, s: Task)
    requires Inv(cfg, s)
    ensures Inv(cfg, Connected(s)) && Alive(cfg, Connected(s))
  {
    EarlierConnections(s.log, cfg.halfDuplex, s.conn + 1);
    var s' := Connected(s);
    assert PollInv(cfg, s'.log) && WaitInv(cfg, s');
    assert BookInv(cfg, s') && LineInv(cfg, s');
    forall d | 0 <= d < |cfg.devices| && (s'.swept || !s'.views[d].online)
      ensures AllBad(s'.slots, cfg.devices[d].allTags)
    {
    }
  }

  /** Every tag of the first `n` devices turns Bad. */
  function SweptSlots(devices: seq<DevicePlan>, slots: seq<Snapshot>, n: nat): (out: seq<Snapshot>)
    requires n <= |devices|
    ensures |out| == |slots|
  {
    if n == 0 then slots else Requalify(SweptSlots(devices, slots, n - 1), devices[n - 1].allTags, Bad)
  }

  lemma {:induction false} SweptAgrees(devices: seq<DevicePlan>, a: seq<Snapshot>, b: seq<Snapshot>, n: nat,
                                       first: TagId, end: TagId)
    requires n <= |devices| && AgreeOn(a, b, first, end)
    ensures AgreeOn(SweptSlots(devices, a, n), SweptSlots(devices, b, n), first, end)
  {
    if n > 0 {
      SweptAgrees(devices, a, b, n - 1, first, end);
      RequalifyAgrees(SweptSlots(devices, a, n - 1), SweptSlots(devices, b, n - 1),
                      devices[n - 1].allTags, Bad, first, end);
    }
  }

  lemma {:induction false} SweepIsBad(devices: seq<DevicePlan>, slots: seq<Snapshot>, n: nat, d: nat)
    requires d < n <= |devices|
    ensures AllBad(SweptSlots(devices, slots, n), devices[d].allTags)
  {
    var before := SweptSlots(devices, slots, n - 1);
    if d < n - 1 {
      SweepIsBad(devices, slots, n - 1, d);
      RequalifyKeepsBad(before, devices[n - 1].allTags, devices[d].allTags);
    } else {
      RequalifiedAreBad(before, devices[d].allTags);
    }
  }

  lemma RequalifiedAreBad(slots: seq<Snapshot>, tags: seq<TagId>)
    ensures AllBad(Requalify(slots, tags, Bad), tags)
  {
  }

  function Swept(cfg: Config, s: Task): Task {
    if s.swept then s else s.(link := s.link.(swept := true), slots := SweptSlots(cfg.devices, s.slots, |cfg.devices|))
  }

  lemma {:induction false} SweptKeeps(cfg: Config, s: Task)
    requires Inv(cfg, s)
    ensures Inv(cfg, Swept(cfg, s))
  {
    if !s.swept {
      var slots := SweptSlots(cfg.devices, s.slots, |cfg.devices|);
      forall d | 0 <= d < |cfg.devices|
        ensures AllBad(slots, cfg.devices[d].allTags)
      {
        SweepIsBad(cfg.devices, s.slots, |cfg.devices|, d);
      }
      SweptSlotsKeep(cfg, s, slots);
    }
  }

  lemma {:induction false} SweptSlotsKeep(cfg: Config, s: Task, slots: seq<Snapshot>)
    requires Inv(cfg, s) && |slots| == cfg.tagCount && DeadTagsBad(cfg.devices, s.views, true, slots)
    ensures Inv(cfg, s.(link := s.link.(swept := true), slots := slots))
  {
  }

  function NominalDelay(cfg: Config, s: Task): nat {
    if s.healthy then cfg.retry.baseBackoffMs else s.pauses.backoffMs
  }

  /** One backoff: the connection is over; the wait is counted, lies within the
      jitter, and doubles the next one. */
  function BackedOff(cfg: Config, s: Task, delayMs: nat): Task {
    var nominal := NominalDelay(cfg, s);
    s.(link := s.link.(conn := s.conn + 1, up := false, healthy := false),
       pauses := Pauses(s.waits + [Wait(s.healthy, nominal, delayMs)], s.pauses.reconnects + 1,
                        Max(Min(SatDouble(nominal), cfg.retry.maxBackoffMs), 1)))
  }

  lemma {:induction false} BackedOffWaits(cfg: Config, s: Task, delayMs: nat)
    requires cfg.Valid() && WaitInv(cfg, s)
    requires NominalDelay(cfg, s) / 2 <= delayMs <= NominalDelay(cfg, s)
    ensures WaitInv(cfg, BackedOff(cfg, s, delayMs))
  {
    var s' := BackedOff(cfg, s, delayMs);
    var n := |s.waits|;
    assert s'.waits[..n] == s.waits && s'.waits[..n + 1] == s'.waits;
    NextReconnectDelay(cfg.retry, Streak(s'.waits) - 1);
    forall i | 0 <= i < |s'.waits|
      ensures WaitOk(s'.waits, cfg.retry, i)
    {
      if i < n {
        assert WaitOk(s.waits, cfg.retry, i);
        assert s'.waits[..i + 1] == s.waits[..i + 1];
      }
    }
  }

  lemma {:induction false} BackedOffKeeps(cfg: Config, s: Task, delayMs: nat)
    requires cfg.Valid() && Inv(cfg, s)
    requires NominalDelay(cfg, s) / 2 <= delayMs <= NominalDelay(cfg, s)
    ensures Inv(cfg, BackedOff(cfg, s, delayMs))
  {
    BackedOffWaits(cfg, s, delayMs);
    EarlierConnections(s.log, cfg.halfDuplex, s.conn + 1);
    var s' := BackedOff(cfg, s, delayMs);
    assert TagInv(cfg, s') && PollInv(cfg, s'.log);
    assert BookInv(cfg, s') && LineInv(cfg, s');
  }

  /** What one pass over fixed memories works on. */
  function PassOf(s: Task): Poller {
    Poller(s.slots, s.overrides)
  }

  // ----- Runs -----

  datatype Move =
    | PollEnds(slot: Slot, txn: Transaction, es: Log, reply: Reply)
    | Publishes(slot: Slot, txn: Transaction, resp: Response)
    | Refuses(slot: Slot, txn: Transaction, exc: ExceptionCode)
    | Degrades(slot: Slot, txn: Transaction)
    | Disposes(cmd: WriteCommand, fate: Fate)
    | Diagnoses(cmd: WriteCommand, entry: Entry)
    | Writes(d: nat, cmd: WriteCommand, entry: Entry)
    | Connects
    | Sweeps
    | BacksOff(delayMs: nat)

  ghost predicate Enabled(cfg: Config, s: Task, m: Move) {
    && |s.views| == |s.overrides| == |cfg.devices|
    && match m
       case PollEnds(slot, txn, es, reply) =>
         && Alive(cfg, s) && CanPoll(cfg, s, slot, txn)
         && Exchange(cfg, s.conn, slot.d, txn.req, es, reply) && WithinBudget(cfg, s, slot.d, es, reply)
         && Paced(s.log + es, cfg.gapMs)
       case Publishes(slot, txn, resp) =>
         && !s.swept && CanPoll(cfg, s, slot, txn) && s.views[slot.d].online
         && JustReplied(s, slot.d, txn.req, Ok(resp))
       case Refuses(slot, txn, exc) =>
         CanPoll(cfg, s, slot, txn) && JustReplied(s, slot.d, txn.req, Err(Exception(exc)))
       case Degrades(slot, txn) =>
         && !s.swept && CanPoll(cfg, s, slot, txn) && s.views[slot.d].online
         && JustReplied(s, slot.d, txn.req, Err(Timeout))
       case Disposes(cmd, fate) => !fate.Sent? && FateFits(cmd, fate)
       case Diagnoses(cmd, e) =>
         Alive(cfg, s) && FitsWire(cfg, s, cmd, e) && e.device.None? && Paced(s.log + [e], cfg.gapMs)
       case Writes(d, cmd, e) =>
         && Alive(cfg, s) && d < |cfg.devices| && FitsWire(cfg, s, cmd, e) && e.device == Some(d)
         && Paced(s.log + [e], cfg.gapMs)
       case Connects => true
       case Sweeps => true
       case BacksOff(delayMs) =>
         && NominalDelay(cfg, s) / 2 <= delayMs <= NominalDelay(cfg, s)
         && (s.link.up ==> Spent(s.log, cfg.halfDuplex, s.conn))
  }

  function Apply(cfg: Config, s: Task, m: Move): Task
    requires Enabled(cfg, s, m)
  {
    match m
    case PollEnds(slot, txn, es, reply) => Settled(cfg, s, slot.d, s.log + es, reply)
    case Publishes(slot, txn, resp) => s.(slots := AfterScatter(s.slots, txn, resp))
    case Refuses(slot, txn, exc) => AfterException(s, slot.d, slot.group, slot.index, txn, exc)
    case Degrades(slot, txn) => s.(slots := Requalify(s.slots, TagsOf(txn.fields), Uncertain))
    case Disposes(cmd, fate) => Disposed(s, cmd, fate)
    case Diagnoses(cmd, e) => DiagnosticDone(s, cmd, e)
    case Writes(d, cmd, e) => WriteDone(cfg, s, cmd, e, d)
    case Connects => Connected(s)
    case Sweeps => Swept(cfg, s)
    case BacksOff(delayMs) => BackedOff(cfg, s, delayMs)
  }

  ghost predicate Step(cfg: Config, s: Task, s': Task) {
    exists m :: Enabled(cfg, s, m) && s' == Apply(cfg, s, m)
  }

  /** A channel task that has just been spawned over a cache. */
  ghost predicate Spawned(cfg: Config, s: Task) {
    |s.slots| == cfg.tagCount && s == SpawnState(cfg, s.slots)
  }

  ghost function SpawnState(cfg: Config, slots: seq<Snapshot>): Task {
    Task(seq(|cfg.devices|, d requires 0 <= d < |cfg.devices| => NewWatch(cfg.devices[d].retry)),
         seq(|cfg.devices|, d => map[]), slots, Link(0, false, 0, false, false), TrafficOf([]),
         Orders([], [], [], 0, 0), Pauses([], 0, cfg.retry.baseBackoffMs))
  }

  lemma SpawnRuns(cfg: Config, slots: seq<Snapshot>)
    requires |slots| == cfg.tagCount
    ensures Spawned(cfg, SpawnState(cfg, slots)) && RunOk(cfg, [SpawnState(cfg, slots)])
  {
  }

  /** State `k` of a run comes from its spawning, or from the state before by a step. */
  ghost predicate Comes(cfg: Config, run: seq<Task>, k: nat)
    requires k < |run|
  {
    if k == 0 then Spawned(cfg, run[0]) else Step(cfg, run[k - 1], run[k])
  }

  /** A run: the states of a task from its spawning, one step at a time. */
  ghost predicate RunOk(cfg: Config, run: seq<Task>) {
    run != [] && forall k: nat :: k < |run| ==> Comes(cfg, run, k)
  }

  lemma {:induction false} RunExtends(cfg: Config, run: seq<Task>, s: Task, m: Move)
    requires RunOk(cfg, run) && Enabled(cfg, run[|run| - 1], m) && s == Apply(cfg, run[|run| - 1], m)
    ensures RunOk(cfg, run + [s])
  {
    assert Step(cfg, run[|run| - 1], s);
    RunGoesOn(cfg, run, s);
  }

  lemma {:induction false} RunGoesOn(cfg: Config, run: seq<Task>, s: Task)
    requires RunOk(cfg, run) && Step(cfg, run[|run| - 1], s)
    ensures RunOk(cfg, run + [s])
  {
    var next := run + [s];
    forall k: nat | k < |next|
      ensures Comes(cfg, next, k)
    {
      if k < |run| {
        assert Comes(cfg, run, k);
      }
    }
  }

  lemma {:induction false} SpawnedInv(cfg: Config, s: Task)
    requires Spawned(cfg, s)
    ensures Inv(cfg, s)
  {
  }

  lemma {:induction false} StepKeeps(cfg: Config, s: Task, m: Move)
    requires cfg.Valid() && Inv(cfg, s) && Enabled(cfg, s, m)
    ensures Inv(cfg, Apply(cfg, s, m))
  {
    match m {
      case PollEnds(slot, txn, es, reply) => PollKeeps(cfg, s, slot, txn, es, reply);
      case Publishes(slot, txn, resp) =>
        CanPollIsPlanned(cfg, s, slot, txn);
        ScatterKeeps(cfg, s, slot.d, txn, resp);
      case Refuses(slot, txn, exc) =>
        CanPollIsPlanned(cfg, s, slot, txn);
        ExceptionKeeps(cfg, s, slot.d, slot.group, slot.index, txn, exc);
      case Degrades(slot, txn) =>
        CanPollIsPlanned(cfg, s, slot, txn);
        DegradeKeeps(cfg, s, slot.d, txn);
      case Disposes(cmd, fate) => DisposedKeeps(cfg, s, cmd, fate);
      case Diagnoses(cmd, e) => DiagnosticKeeps(cfg, s, cmd, e);
      case Writes(d, cmd, e) => WriteKeeps(cfg, s, cmd, e, d);
      case Connects => ConnectedKeeps(cfg, s);
      case Sweeps => SweptKeeps(cfg, s);
      case BacksOff(delayMs) => BackedOffKeeps(cfg, s, delayMs);
    }
  }

  lemma {:induction false} StepKeepsSplits(cfg: Config, s: Task, m: Move)
    requires Enabled(cfg, s, m)
    ensures SplitsKept(s.overrides, Apply(cfg, s, m).overrides)
  {
    match m {
      case Refuses(slot, txn, exc) =>
      case _ => assert Apply(cfg, s, m).overrides == s.overrides;
    }
  }

  lemma {:induction false} StepInv(cfg: Config, s: Task, s': Task)
    requires cfg.Valid() && Inv(cfg, s) && Step(cfg, s, s')
    ensures Inv(cfg, s')
  {
    var m :| Enabled(cfg, s, m) && s' == Apply(cfg, s, m);
    StepKeeps(cfg, s, m);
  }

  /** Every state of every run keeps the invariant. */
  lemma {:induction false} EveryRun(cfg: Config, run: seq<Task>, k: nat)
    requires cfg.Valid() && RunOk(cfg, run) && k < |run|
    ensures Inv(cfg, run[k])
  {
    assert Comes(cfg, run, k);
    if k == 0 {
      SpawnedInv(cfg, run[0]);
    } else {
      EveryRun(cfg, run, k - 1);
      StepInv(cfg, run[k - 1], run[k]);
    }
  }

  /** Splits are remembered for the rest of the run. */
  lemma {:induction false} EveryRunKeepsSplits(cfg: Config, run: seq<Task>, j: nat, k: nat)
    requires cfg.Valid() && RunOk(cfg, run) && j <= k < |run|
    ensures SplitsOk(cfg.devices, run[j].overrides) && SplitsKept(run[j].overrides, run[k].overrides)
  {
    EveryRun(cfg, run, j);
    RunKeepsSplits(cfg, run, j, k);
  }

  lemma {:induction false} RunKeepsSplits(cfg: Config, run: seq<Task>, j: nat, k: nat)
    requires RunOk(cfg, run) && j <= k < |run|
    ensures SplitsKept(run[j].overrides, run[k].overrides)
    decreases k - j
  {
    hide Step, SplitsKept, Spawned;
    if j < k {
      RunKeepsSplits(cfg, run, j, k - 1);
      assert Comes(cfg, run, k);
      NextKeepsSplits(cfg, run[k - 1], run[k]);
      SplitsKeptTwice(run[j].overrides, run[k - 1].overrides, run[k].overrides);
    } else {
      SplitsKeptAll(run[j].overrides);
    }
  }

  lemma NextKeepsSplits(cfg: Config, s: Task, s': Task)
    requires Step(cfg, s, s')
    ensures SplitsKept(s.overrides, s'.overrides)
  {
    var m :| Enabled(cfg, s, m) && s' == Apply(cfg, s, m);
    StepKeepsSplits(cfg, s, m);
  }

  lemma SplitsKeptAll(a: seq<Overrides>)
    ensures SplitsKept(a, a)
  {
  }

  lemma SplitsKeptTwice(a: seq<Overrides>, b: seq<Overrides>, c: seq<Overrides>)
    requires SplitsKept(a, b) && SplitsKept(b, c)
    ensures SplitsKept(a, c)
  {
  }

  // ----- One more step, for the methods of a task -----

  function Last(run: seq<Task>): Task
    requires run != []
  {
    run[|run| - 1]
  }

  /** Nothing has changed but what commands were answered. */
  predicate OnlyAnswers(s: Task, s': Task) {
    s' == s.(orders := s'.orders) && s'.orders.writesOk == s.orders.writesOk
  }

  /** Nothing has changed but for the requests that have ended. */
  predicate OnlyRequests(s: Task, s': Task) {
    s' == s.(views := s'.views, slots := s'.slots, traffic := s'.traffic,
             link := s.link.(consec := s'.consec, healthy := s'.healthy))
  }

  function DroppedViews(cfg: Config, s: Task, d: nat, at: nat): seq<Watch>
    requires d < |cfg.devices| && d < |s.views|
  {
    s.views[d := AfterFailure(s.views[d], Threshold(cfg.devices[d]), cfg.devices[d].retry, at)]
  }

  /** One more failure leaves the device online. */
  predicate Endures(cfg: Config, s: Task, d: nat)
    requires d < |cfg.devices| && d < |s.views|
  {
    DroppedViews(cfg, s, d, 0)[d].online
  }

  function DroppedSlots(cfg: Config, s: Task, d: nat): seq<Snapshot>
    requires d < |cfg.devices| && d < |s.views|
  {
    if s.views[d].online && !Endures(cfg, s, d)
    then Requalify(s.slots, cfg.devices[d].allTags, Bad) else s.slots
  }

  /** The watchdogs and the cache after a reply from device `d`. */
  function CountedViews(cfg: Config, s: Task, d: nat, reply: Reply, at: nat): seq<Watch>
    requires d < |cfg.devices| && d < |s.views|
  {
    if reply.IsAnswer() then s.views[d := AfterAnswer(s.views[d], cfg.devices[d].retry)]
    else DroppedViews(cfg, s, d, at)
  }

  function CountedSlots(cfg: Config, s: Task, d: nat, reply: Reply): seq<Snapshot>
    requires d < |cfg.devices| && d < |s.views|
  {
    if reply.IsAnswer() then s.slots else DroppedSlots(cfg, s, d)
  }

  /** A reply has been counted, and has had no other effect. */
  predicate ReplyCounted(cfg: Config, s: Task, s': Task, d: nat, reply: Reply, at: nat)
    requires d < |cfg.devices| && d < |s.views|
  {
    && s'.views == CountedViews(cfg, s, d, reply, at) && s'.slots == CountedSlots(cfg, s, d, reply)
    && s'.consec == NextConsec(s, reply) && s'.healthy == (s.healthy || reply.IsAnswer())
    && s'.overrides == s.overrides
  }

  /** The cache after a poll of a slot has ended with this reply. */
  function SlotsAfter(cfg: Config, s: Task, slot: Slot, txn: Transaction, reply: Reply): seq<Snapshot>
    requires slot.d < |cfg.devices| && slot.d < |s.views| && slot.d < |s.overrides|
  {
    var dropped := DroppedSlots(cfg, s, slot.d);
    if reply.Ok? then AfterScatter(s.slots, txn, reply.resp)
    else if reply.error.Exception? then
      AfterException(s, slot.d, slot.group, slot.index, txn, reply.error.code).slots
    else if reply.IsTimeout() && Endures(cfg, s, slot.d) then
      Requalify(dropped, TagsOf(txn.fields), Uncertain)
    else dropped
  }

  /** What an answered poll of device `d` makes of its watchdog, tags and splits. */
  predicate AnswerTaken(cfg: Config, s: Task, s': Task, d: nat, group: nat, index: nat, txn: Transaction, reply: Reply)
    requires d < |cfg.devices| && d < |s.views| && d < |s.overrides| && reply.IsAnswer()
  {
    && s'.views == s.views[d := AfterAnswer(s.views[d], cfg.devices[d].retry)]
    && (reply.Ok? ==> s'.slots == AfterScatter(s.slots, txn, reply.resp) && s'.overrides == s.overrides)
    && (reply.Err? ==> PassOf(s') == PassOf(AfterException(s, d, group, index, txn, reply.error.code)))
  }

  lemma {:induction false} SettledFields(cfg: Config, s: Task, d: nat, log: Log, reply: Reply)
    requires d < |cfg.devices| && d < |s.views| && log != []
    ensures var s' := Settled(cfg, s, d, log, reply);
            && ReplyCounted(cfg, s, s', d, reply, log[|log| - 1].call.endedAt) && OnlyRequests(s, s')
            && s'.traffic == TrafficOf(log)
  {
  }

  /** What a poll that ended at this time makes of the task, before its effects on
      the tags it served. */
  ghost predicate PollEnded(cfg: Config, s: Task, s': Task, slot: Slot, txn: Transaction, reply: Reply, at: nat) {
    && slot.d < |cfg.devices| == |s.views|
    && ReplyCounted(cfg, s, s', slot.d, reply, at) && OnlyRequests(s, s') && !s.swept
    && JustReplied(s', slot.d, txn.req, reply)
    && (!reply.IsFatal() && !(cfg.halfDuplex && s'.consec >= 2) ==> Alive(cfg, s'))
    && (reply.IsAnswer() ==> s'.views[slot.d].online)
    && s.log <= s'.log && Asked(s'.log, |s.log|, slot.d, txn.req)
    && |History(s'.log, slot.d)| == |History(s.log, slot.d)| + 1
    && s'.traffic.endedAt == at
    && (reply.IsFatal() || (cfg.halfDuplex && reply.IsTimeout() && s'.consec >= 2) ==>
          Spent(s'.log, cfg.halfDuplex, s'.conn))
  }

  lemma {:induction false} RunPolls(cfg: Config, run: seq<Task>, slot: Slot, txn: Transaction, es: Log, reply: Reply)
    returns (s': Task)
    requires cfg.Valid() && RunOk(cfg, run) && Alive(cfg, Last(run)) && CanPoll(cfg, Last(run), slot, txn)
    requires Exchange(cfg, Last(run).conn, slot.d, txn.req, es, reply)
    requires WithinBudget(cfg, Last(run), slot.d, es, reply) && Paced(Last(run).log + es, cfg.gapMs)
    ensures RunOk(cfg, run + [s'])
    ensures s'.traffic == TrafficOf(Last(run).log + es)
    ensures PollEnded(cfg, Last(run), s', slot, txn, reply, es[|es| - 1].call.endedAt)
  {
    hide PollEnded, Inv, Exchange, CanPoll, Paced, Alive;
    EveryRun(cfg, run, |run| - 1);
    RunFacts(cfg, run);
    s' := PollIsEnded(cfg, Last(run), slot, txn, es, reply);
    RunExtends(cfg, run, s', PollEnds(slot, txn, es, reply));
  }

  lemma {:induction false} PollIsEnded(cfg: Config, s: Task, slot: Slot, txn: Transaction, es: Log, reply: Reply)
    returns (s': Task)
    requires cfg.Valid() && Inv(cfg, s) && Alive(cfg, s) && CanPoll(cfg, s, slot, txn)
    requires Exchange(cfg, s.conn, slot.d, txn.req, es, reply)
    requires WithinBudget(cfg, s, slot.d, es, reply) && Paced(s.log + es, cfg.gapMs)
    ensures s' == Settled(cfg, s, slot.d, s.log + es, reply)
    ensures PollEnded(cfg, s, s', slot, txn, reply, es[|es| - 1].call.endedAt)
  {
    hide Inv, ReplyCounted, Asked, History, LineInv;
    s' := Settled(cfg, s, slot.d, s.log + es, reply);
    PollKeeps(cfg, s, slot, txn, es, reply);
    SettledFields(cfg, s, slot.d, s.log + es, reply);
    ExchangeJoins(cfg, s, slot.d, txn.req, es, reply);
    LineOf(cfg, s');
    if reply.IsFatal() || (cfg.halfDuplex && reply.IsTimeout() && s'.consec >= 2) {
      PollSpends(cfg, s', reply);
    }
  }

  /** A fatal reply, or the second timeout in a row on a stream, spends the
      connection. */
  lemma PollSpends(cfg: Config, s: Task, reply: Reply)
    requires LineInv(cfg, s) && s.link.up && EndsOn(s.log, s.conn) && s.log[|s.log| - 1].reply == reply
    requires reply.IsFatal() || (cfg.halfDuplex && reply.IsTimeout() && s.consec >= 2)
    ensures Spent(s.log, cfg.halfDuplex, s.conn)
  {
  }

  lemma LineOf(cfg: Config, s: Task)
    requires Inv(cfg, s)
    ensures LineInv(cfg, s)
  {
  }

  /** A poll with its retries asks for the request, and ends once. */
  lemma {:induction false} ExchangeJoins(cfg: Config, s: Task, d: nat, req: Request, es: Log, reply: Reply)
    requires Inv(cfg, s) && Alive(cfg, s) && d < |cfg.devices| && Exchange(cfg, s.conn, d, req, es, reply)
    ensures Asked(s.log + es, |s.log|, d, req)
    ensures |History(s.log + es, d)| == |History(s.log, d)| + 1
    ensures (s.log + es)[|s.log + es| - 1] == es[|es| - 1] && EndsOn(s.log + es, s.conn)
  {
    var log := s.log + es;
    assert log[|s.log|] == es[0];
    if |es| > 1 {
      assert RetriedAttempt(cfg, s.conn, d, req, es[..|es| - 1][0], 0);
    }
    ExchangeKeeps(cfg, s, d, req, es, reply);
  }

  lemma {:induction false} RunPublishes(cfg: Config, run: seq<Task>, slot: Slot, txn: Transaction, resp: Response)
    requires cfg.Valid() && RunOk(cfg, run) && !Last(run).swept && CanPoll(cfg, Last(run), slot, txn)
    requires Last(run).views[slot.d].online && JustReplied(Last(run), slot.d, txn.req, Ok(resp))
    ensures RunOk(cfg, run + [Last(run).(slots := AfterScatter(Last(run).slots, txn, resp))])
  {
    RunExtends(cfg, run, Last(run).(slots := AfterScatter(Last(run).slots, txn, resp)), Publishes(slot, txn, resp));
  }

  lemma {:induction false} RunRefuses(cfg: Config, run: seq<Task>, slot: Slot, txn: Transaction, exc: ExceptionCode)
    requires cfg.Valid() && RunOk(cfg, run) && CanPoll(cfg, Last(run), slot, txn)
    requires JustReplied(Last(run), slot.d, txn.req, Err(Exception(exc)))
    ensures RunOk(cfg, run + [AfterException(Last(run), slot.d, slot.group, slot.index, txn, exc)])
  {
    RunExtends(cfg, run, AfterException(Last(run), slot.d, slot.group, slot.index, txn, exc), Refuses(slot, txn, exc));
  }

  lemma {:induction false} RunDegrades(cfg: Config, run: seq<Task>, slot: Slot, txn: Transaction)
    requires cfg.Valid() && RunOk(cfg, run) && !Last(run).swept && CanPoll(cfg, Last(run), slot, txn)
    requires Last(run).views[slot.d].online && JustReplied(Last(run), slot.d, txn.req, Err(Timeout))
    ensures RunOk(cfg, run + [Last(run).(slots := Requalify(Last(run).slots, TagsOf(txn.fields), Uncertain))])
  {
    RunExtends(cfg, run, Last(run).(slots := Requalify(Last(run).slots, TagsOf(txn.fields), Uncertain)),
               Degrades(slot, txn));
  }

  lemma {:induction false} RunDisposes(cfg: Config, run: seq<Task>, cmd: WriteCommand, fate: Fate) returns (s': Task)
    requires cfg.Valid() && RunOk(cfg, run) && !fate.Sent? && FateFits(cmd, fate)
    ensures RunOk(cfg, run + [s']) && (Alive(cfg, Last(run)) ==> Alive(cfg, s'))
    ensures s' == Disposed(Last(run), cmd, fate)
  {
    s' := Disposed(Last(run), cmd, fate);
    EveryRun(cfg, run, |run| - 1);
    RunExtends(cfg, run, s', Disposes(cmd, fate));
  }

  /** A command on the wire, by the position at which it was taken. */
  function CommandEntry(s: Task, admittedAt: nat, device: Option<nat>, call: Call): Entry {
    Entry(Command(|s.taken|, admittedAt), device, call, true)
  }

  /** What a command asks the transport for: its own request, waited for no longer
      than its deadline. */
  predicate SentAs(s: Task, cmd: WriteCommand, unit: Byte, limitMs: nat, call: Call) {
    && call.conn == s.conn && call.unit == unit && call.req == cmd.req
    && call.timeoutMs == Min(limitMs, SatSub(cmd.deadline, call.sentAt))
  }

  /** Admitted by its deadline, before it is sent; and nothing else was on the wire. */
  predicate Timely(cfg: Config, s: Task, cmd: WriteCommand, admittedAt: nat, call: Call) {
    && admittedAt <= cmd.deadline && admittedAt <= call.sentAt <= call.endedAt
    && Quiet(s.log, cfg.gapMs, s.conn, call.sentAt)
  }

  lemma {:induction false} DiagnosticFits(cfg: Config, s: Task, cmd: WriteCommand, target: DiagnosticTarget,
                                          admittedAt: nat, call: Call)
    requires |s.taken| == |s.fates| && cmd.diagnostic == Some(target) && cmd.req.Read? && Paced(s.log, cfg.gapMs)
    requires Timely(cfg, s, cmd, admittedAt, call) && SentAs(s, cmd, target.unit, target.timeoutMs, call)
    ensures var e := CommandEntry(s, admittedAt, None, call);
            FitsWire(cfg, s, cmd, e) && Paced(s.log + [e], cfg.gapMs)
  {
    PacedAppends(s.log, cfg.gapMs, CommandEntry(s, admittedAt, None, call));
  }

  /** The fields that a diagnostic moves, one by one. */
  lemma {:induction false} DiagnosticFields(cfg: Config, s: Task, cmd: WriteCommand, e: Entry)
    requires cmd.diagnostic.Some? && s.traffic == TrafficOf(s.log)
    ensures var s' := DiagnosticDone(s, cmd, e);
            && SentTo(s, s', cmd, e) && PassOf(s') == PassOf(s) && s'.views == s.views
            && s'.healthy == (s.healthy || e.reply.IsAnswer())
            && s'.consec == (if e.reply.IsAnswer() then 0 else s.consec)
            && s'.orders.writesOk == s.orders.writesOk && s'.orders.writesErr == s.orders.writesErr
  {
    TrafficOfOneMore(s.log, e);
  }

  lemma TrafficOfOneMore(log: Log, e: Entry)
    ensures TrafficOf(log + [e]) == Traffic(log + [e], Bump(Tally(log), e.reply), Calls(log) + [e.call], e.call.endedAt)
  {
    TallyOfOneMore(log, e);
    CallsOfOneMore(log, e);
  }

  /** A command has been sent with this entry, and answered. */
  predicate SentTo(s: Task, s': Task, cmd: WriteCommand, e: Entry) {
    && OnlyRequests(s.(orders := s'.orders), s')
    && s'.orders == Orders(s.taken + [cmd], s.fates + [Sent(e.reply)], s.orders.answers + [e.reply],
                           s'.orders.writesOk, s'.orders.writesErr)
    && s'.traffic == Traffic(s.log + [e], Bump(s.traffic.counters, e.reply), s.traffic.wire + [e.call], e.call.endedAt)
  }

  lemma {:induction false} RunDiagnoses(cfg: Config, run: seq<Task>, cmd: WriteCommand, target: DiagnosticTarget,
                                        admittedAt: nat, call: Call) returns (s': Task)
    requires cfg.Valid() && RunOk(cfg, run) && Alive(cfg, Last(run))
    requires cmd.diagnostic == Some(target) && cmd.req.Read?
    requires Timely(cfg, Last(run), cmd, admittedAt, call)
    requires SentAs(Last(run), cmd, target.unit, target.timeoutMs, call)
    ensures RunOk(cfg, run + [s']) && (!Breaks(cfg, call.reply) ==> Alive(cfg, s'))
    ensures Breaks(cfg, call.reply) ==> Spent(s'.log, cfg.halfDuplex, s'.conn)
    ensures SentTo(Last(run), s', cmd, CommandEntry(Last(run), admittedAt, None, call))
    ensures PassOf(s') == PassOf(Last(run)) && s'.views == Last(run).views
    ensures s'.healthy == (Last(run).healthy || call.reply.IsAnswer())
    ensures s'.consec == if call.reply.IsAnswer() then 0 else Last(run).consec
    ensures s'.orders.writesOk == Last(run).orders.writesOk && s'.orders.writesErr == Last(run).orders.writesErr
  {
    var s := Last(run);
    var e := CommandEntry(s, admittedAt, None, call);
    s' := DiagnosticDone(s, cmd, e);
    EveryRun(cfg, run, |run| - 1);
    DiagnosticFits(cfg, s, cmd, target, admittedAt, call);
    DiagnosticKeeps(cfg, s, cmd, e);
    DiagnosticFields(cfg, s, cmd, e);
    RunExtends(cfg, run, s', Diagnoses(cmd, e));
  }

  lemma {:induction false} WriteFits(cfg: Config, s: Task, d: nat, cmd: WriteCommand, admittedAt: nat, call: Call)
    requires |s.taken| == |s.fates| && Paced(s.log, cfg.gapMs)
    requires d < |cfg.devices| && cmd.diagnostic.None? && cfg.devices[d].id == cmd.device
    requires Timely(cfg, s, cmd, admittedAt, call)
    requires SentAs(s, cmd, cfg.devices[d].unit, cfg.devices[d].requestTimeoutMs, call)
    ensures var e := CommandEntry(s, admittedAt, Some(d), call);
            FitsWire(cfg, s, cmd, e) && Paced(s.log + [e], cfg.gapMs)
  {
    PacedAppends(s.log, cfg.gapMs, CommandEntry(s, admittedAt, Some(d), call));
  }

  lemma {:induction false} RunWrites(cfg: Config, run: seq<Task>, d: nat, cmd: WriteCommand, admittedAt: nat,
                                     call: Call) returns (s': Task)
    requires cfg.Valid() && RunOk(cfg, run) && Alive(cfg, Last(run)) && d < |cfg.devices| == |Last(run).views|
    requires cmd.diagnostic.None? && cfg.devices[d].id == cmd.device
    requires Timely(cfg, Last(run), cmd, admittedAt, call)
    requires SentAs(Last(run), cmd, cfg.devices[d].unit, cfg.devices[d].requestTimeoutMs, call)
    ensures RunOk(cfg, run + [s']) && (!Breaks(cfg, call.reply) ==> Alive(cfg, s'))
    ensures Breaks(cfg, call.reply) ==> Spent(s'.log, cfg.halfDuplex, s'.conn)
    ensures SentTo(Last(run), s', cmd, CommandEntry(Last(run), admittedAt, Some(d), call))
    ensures ReplyCounted(cfg, Last(run), s', d, call.reply, call.endedAt)
    ensures s'.orders.writesOk == Last(run).orders.writesOk + (if call.reply.Ok? then 1 else 0)
    ensures s'.orders.writesErr == Last(run).orders.writesErr + (if call.reply.Ok? then 0 else 1)
    ensures OnlyFalls(Last(run).slots, s'.slots) && s'.overrides == Last(run).overrides
    ensures call.reply.IsAnswer() ==>
              PassOf(s') == PassOf(Last(run)) && (AllOnline(Last(run).views) ==> AllOnline(s'.views))
  {
    var s := Last(run);
    EveryRun(cfg, run, |run| - 1);
    var e := CommandEntry(s, admittedAt, Some(d), call);
    s' := WriteDone(cfg, s, cmd, e, d);
    WriteFits(cfg, s, d, cmd, admittedAt, call);
    WriteKeeps(cfg, s, cmd, e, d);
    WriteFields(cfg, s, d, cmd, e);
    if call.reply.IsAnswer() {
      AnswerKeepsPass(cfg, s, s', d, call.reply, call.endedAt);
    }
    RunExtends(cfg, run, s', Writes(d, cmd, e));
  }

  /** The fields that a write moves, one by one. */
  lemma {:induction false} WriteFields(cfg: Config, s: Task, d: nat, cmd: WriteCommand, e: Entry)
    requires d < |cfg.devices| == |s.views| && cmd.diagnostic.None? && s.traffic == TrafficOf(s.log)
    ensures var s' := WriteDone(cfg, s, cmd, e, d);
            && SentTo(s, s', cmd, e) && ReplyCounted(cfg, s, s', d, e.reply, e.call.endedAt)
            && s'.orders.writesOk == s.orders.writesOk + (if e.reply.Ok? then 1 else 0)
            && s'.orders.writesErr == s.orders.writesErr + (if e.reply.Ok? then 0 else 1)
  {
    TrafficOfOneMore(s.log, e);
    SettledFields(cfg, Disposed(s, cmd, Sent(e.reply)), d, s.log + [e], e.reply);
  }

  lemma {:induction false} RunConnects(cfg: Config, run: seq<Task>) returns (s': Task)
    requires cfg.Valid() && RunOk(cfg, run)
    ensures RunOk(cfg, run + [s']) && Alive(cfg, s')
    ensures s' == Connected(Last(run))
  {
    s' := Connected(Last(run));
    EveryRun(cfg, run, |run| - 1);
    ConnectedKeeps(cfg, Last(run));
    RunExtends(cfg, run, s', Connects);
  }

  lemma {:induction false} RunSweeps(cfg: Config, run: seq<Task>) returns (s': Task)
    requires cfg.Valid() && RunOk(cfg, run)
    ensures RunOk(cfg, run + [s'])
    ensures !Last(run).swept ==>
              s' == Last(run).(link := Last(run).link.(swept := true),
                               slots := SweptSlots(cfg.devices, Last(run).slots, |cfg.devices|))
  {
    s' := Swept(cfg, Last(run));
    EveryRun(cfg, run, |run| - 1);
    RunExtends(cfg, run, s', Sweeps);
  }

  lemma {:induction false} RunBacksOff(cfg: Config, run: seq<Task>, delayMs: nat) returns (s': Task)
    requires cfg.Valid() && RunOk(cfg, run)
    requires NominalDelay(cfg, Last(run)) / 2 <= delayMs <= NominalDelay(cfg, Last(run))
    requires Last(run).link.up ==> Spent(Last(run).log, cfg.halfDuplex, Last(run).conn)
    ensures RunOk(cfg, run + [s']) && s' == BackedOff(cfg, Last(run), delayMs)
  {
    s' := BackedOff(cfg, Last(run), delayMs);
    EveryRun(cfg, run, |run| - 1);
    RunExtends(cfg, run, s', BacksOff(delayMs));
  }

  lemma {:induction false} AnswerKeepsPass(cfg: Config, s: Task, s': Task, d: nat, reply: Reply, at: nat)
    requires d < |cfg.devices| == |s.views| && reply.IsAnswer() && ReplyCounted(cfg, s, s', d, reply, at)
    ensures PassOf(s') == PassOf(s) && (AllOnline(s.views) ==> AllOnline(s'.views))
  {
  }

  lemma {:induction false} AnswerIsTaken(cfg: Config, s: Task, t: Task, t': Task, d: nat, group: nat, index: nat,
                                         txn: Transaction, reply: Reply, at: nat)
    requires d < |cfg.devices| == |s.views| == |s.overrides| == |t.overrides| && reply.IsAnswer()
    requires ReplyCounted(cfg, s, t, d, reply, at)
    requires t' == if reply.Ok? then t.(slots := AfterScatter(t.slots, txn, reply.resp))
                   else AfterException(t, d, group, index, txn, reply.error.code)
    ensures AnswerTaken(cfg, s, t', d, group, index, txn, reply) && SplitsKept(s.overrides, t'.overrides)
  {
  }

  /** On a bench, an answered poll is one step of the pass. */
  lemma {:induction false} AnswerIsPollOne(cfg: Config, m: Memory, s: Task, s': Task, d: nat, group: nat, index: nat,
                                           txn: Transaction, reply: Reply)
    requires d < |cfg.devices| == |s.views| == |s.overrides| && reply.IsAnswer() && reply == MemoryReply(m, txn.req)
    requires AnswerTaken(cfg, s, s', d, group, index, txn, reply)
    ensures PassOf(s') == PollOne(m, PassOf(s), d, group, index, txn)
    ensures AllOnline(s.views) ==> AllOnline(s'.views)
  {
  }

  /** What the methods of a task need to know of its current state. */
  lemma {:induction false} RunFacts(cfg: Config, run: seq<Task>)
    requires cfg.Valid() && RunOk(cfg, run)
    ensures var s := run[|run| - 1];
            && |s.slots| == cfg.tagCount && |s.views| == |s.overrides| == |cfg.devices|
            && s.traffic == TrafficOf(s.log) && |s.taken| == |s.fates| && Paced(s.log, cfg.gapMs)
            && (s.link.up ==> s.consec == TimeoutsInARow(s.log, s.conn))
            && SplitsOk(cfg.devices, s.overrides) && WatchesFollow(cfg.devices, s.views, s.log)
  {
    EveryRun(cfg, run, |run| - 1);
  }
}
