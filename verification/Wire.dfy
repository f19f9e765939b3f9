/** The ghost trace of a channel task: every request on the wire, and the fate of
    every command taken off the queue. */
module Wire {
  import opened MbTypes
  import opened MbProto
  import opened Coalesce
  import opened Device

  // ----- Plans and commands -----

  datatype DevicePlan = DevicePlan(
    id: nat, unit: Byte, offlineAfter: nat, requestTimeoutMs: nat, retry: RetryConfig,
    allTags: seq<TagId>, byGroup: seq<seq<Transaction>>)

  datatype DiagnosticTarget = DiagnosticTarget(unit: Byte, timeoutMs: nat)

  /** `closed` tells that the submitter has stopped waiting. */
  datatype WriteCommand = WriteCommand(
    diagnostic: Option<DiagnosticTarget>, device: nat, req: Request, deadline: nat, closed: bool)

  // ----- The trace -----

  /** A poll attempt (attempt 0 is not a retry), or a command by its position in
      the order in which commands were taken. */
  datatype Kind =
    | Poll(attempt: nat)
    | Command(index: nat, admittedAt: nat)

  /** One request and its reply. `device` is the plan index whose watchdog counts
      it (none for a diagnostic); `settled` says that this attempt ended its
      request. */
  datatype Entry = Entry(kind: Kind, device: Option<nat>, call: Call, settled: bool) {
    const conn: nat := call.conn
    const unit: Byte := call.unit
    const req: Request := call.req
    const reply: Reply := call.reply
  }

  /** What the transport is asked for, when, for how long at most, and what it
      answers. */
  datatype Call = Call(conn: nat, unit: Byte, req: Request, timeoutMs: nat, sentAt: nat, endedAt: nat, reply: Reply)

  type Log = seq<Entry>

  /** The transport's view of the log. */
  function Calls(log: Log): seq<Call> {
    if log == [] then [] else Calls(log[..|log| - 1]) + [log[|log| - 1].call]
  }

  lemma {:induction false} CallsOfOneMore(log: Log, e: Entry)
    ensures Calls(log + [e]) == Calls(log) + [e.call]
  {
    assert (log + [e])[..|log|] == log;
  }

  /** When the last request ended. */
  function EndOf(log: Log): nat {
    if log == [] then 0 else log[|log| - 1].call.endedAt
  }

  /** One request after the other, with the silent gap between two of a connection. */
  predicate PaceOk(log: Log, gapMs: nat, k: nat)
    requires k < |log|
  {
    && log[k].call.sentAt <= log[k].call.endedAt
    && (k + 1 < |log| ==>
          var a, b := log[k].call, log[k + 1].call;
          a.endedAt <= b.sentAt && (a.conn == b.conn ==> a.endedAt + gapMs <= b.sentAt))
  }

  ghost predicate Paced(log: Log, gapMs: nat) {
    forall k: nat :: k < |log| ==> PaceOk(log, gapMs, k)
  }

  /** The silent gap after the last request of this connection is over. */
  predicate Quiet(log: Log, gapMs: nat, conn: nat, now: nat) {
    log != [] ==>
      var last := log[|log| - 1].call;
      last.endedAt <= now && (last.conn == conn ==> last.endedAt + gapMs <= now)
  }

  lemma {:induction false} PacedAppends(log: Log, gapMs: nat, e: Entry)
    requires Paced(log, gapMs) && Quiet(log, gapMs, e.conn, e.call.sentAt) && e.call.sentAt <= e.call.endedAt
    ensures Paced(log + [e], gapMs)
  {
    var next := log + [e];
    forall k: nat | k < |next|
      ensures PaceOk(next, gapMs, k)
    {
      assert k < |log| ==> PaceOk(log, gapMs, k);
    }
  }

  // ----- Counters -----

  datatype Counters = Counters(ok: nat, err: nat, timeouts: nat, exceptions: nat, protocolErrors: nat)

  function Bump(c: Counters, reply: Reply): Counters {
    match reply
    case Ok(_) => c.(ok := c.ok + 1)
    case Err(e) =>
      var c := c.(err := c.err + 1);
      if e.Timeout? then c.(timeouts := c.timeouts + 1)
      else if e.Exception? then c.(exceptions := c.exceptions + 1)
      else if e.Protocol? then c.(protocolErrors := c.protocolErrors + 1)
      else c
  }

  function Tally(log: Log): Counters {
    if log == [] then Counters(0, 0, 0, 0, 0) else Bump(Tally(log[..|log| - 1]), log[|log| - 1].reply)
  }

  lemma {:induction false} TallyOfOneMore(log: Log, e: Entry)
    ensures Tally(log + [e]) == Bump(Tally(log), e.reply)
  {
    assert (log + [e])[..|log|] == log;
  }

  /** How many requests had such a reply. */
  function HowMany(log: Log, such: Reply -> bool): nat {
    if log == [] then 0 else HowMany(log[..|log| - 1], such) + if such(log[|log| - 1].reply) then 1 else 0
  }

  /** Every wire request is counted once, as answered or as failed, and a failure
      once more by its kind. */
  lemma {:induction false} TallyCountsRequests(log: Log)
    ensures Tally(log).ok + Tally(log).err == |log|
    ensures Tally(log).ok == HowMany(log, (r: Reply) => r.Ok?)
    ensures Tally(log).timeouts == HowMany(log, (r: Reply) => r == Err(Timeout))
    ensures Tally(log).exceptions == HowMany(log, (r: Reply) => r.Err? && r.error.Exception?)
    ensures Tally(log).protocolErrors == HowMany(log, (r: Reply) => r == Err(Protocol))
  {
    if log != [] {
      TallyCountsRequests(log[..|log| - 1]);
    }
  }

  // ----- Device histories -----

  function EventOf(e: Entry): Event {
    if e.reply.IsAnswer() then Answered else Failed(e.call.endedAt)
  }

  /** What device `d` did with its requests, retries of one request counted once. */
  function History(log: Log, d: nat): seq<Event> {
    if log == [] then []
    else
      var e := log[|log| - 1];
      History(log[..|log| - 1], d) + if e.device == Some(d) && e.settled then [EventOf(e)] else []
  }

  /** The connection carried an answer. */
  function AnsweredOn(log: Log, conn: nat): bool {
    log != [] &&
    var e := log[|log| - 1];
    (e.conn == conn && e.settled && e.reply.IsAnswer()) || AnsweredOn(log[..|log| - 1], conn)
  }

  /** Polls and writes in a row on this connection that ended in a timeout. */
  function TimeoutsInARow(log: Log, conn: nat): nat {
    if log == [] || log[|log| - 1].conn != conn then 0
    else
      var e, before := log[|log| - 1], TimeoutsInARow(log[..|log| - 1], conn);
      if !e.settled then before
      else if e.reply.IsAnswer() then 0
      else if e.reply.IsTimeout() && e.device.Some? then before + 1
      else before
  }

  /** The connection has come to its end: a fatal reply, or on a half-duplex stream
      a timed-out command or the second timeout in a row. */
  predicate Spent(log: Log, halfDuplex: bool, conn: nat) {
    && log != []
    && var e := log[|log| - 1];
       && e.conn == conn
       && (e.reply.IsFatal()
           || (halfDuplex && e.reply.IsTimeout() && (e.kind.Command? || TimeoutsInARow(log, conn) >= 2)))
  }

  // ----- The stream-drain rule -----

  predicate SameConn(log: Log, k: nat)
    requires k + 1 < |log|
  {
    log[k].conn == log[k + 1].conn
  }

  /** What entry `k` says about its successor on the same connection: a fatal reply
      has none; a retry follows the attempt it repeats, and never a timeout on a
      half-duplex stream; there, a timed-out command has none. */
  predicate StepOk(log: Log, halfDuplex: bool, k: nat)
    requires k + 1 < |log|
  {
    var a, b := log[k], log[k + 1];
    && a.conn <= b.conn
    && (b.kind.Poll? && b.kind.attempt > 0 ==>
          && a.conn == b.conn && !a.settled
          && a.kind == Poll(b.kind.attempt - 1) && a.req == b.req && a.unit == b.unit && a.device == b.device)
    && (!a.settled ==>
          && a.conn == b.conn && b.kind.Poll? && b.kind.attempt > 0
          && (halfDuplex ==> !a.reply.IsTimeout()))
    && (a.conn == b.conn ==>
          && !a.reply.IsFatal()
          && (halfDuplex && a.reply.IsTimeout() ==> a.kind.Poll?))
  }

  /** On a half-duplex stream nothing follows two timeouts in a row. */
  predicate DrainOk(log: Log, halfDuplex: bool, k: nat)
    requires k + 2 < |log|
  {
    halfDuplex && SameConn(log, k) && SameConn(log, k + 1) ==>
      !(log[k].reply.IsTimeout() && log[k + 1].reply.IsTimeout())
  }

  ghost predicate LogOk(log: Log, halfDuplex: bool) {
    && (forall k: nat :: k + 1 < |log| ==> StepOk(log, halfDuplex, k))
    && (forall k: nat :: k + 2 < |log| ==> DrainOk(log, halfDuplex, k))
    && (log != [] && log[0].kind.Poll? ==> log[0].kind.attempt == 0)
  }

  /** The connection may carry another request: its last entry is not fatal, and
      on a half-duplex stream a timeout there is the only one pending. */
  predicate LinkOk(log: Log, halfDuplex: bool, conn: nat, consec: nat) {
    match Newest(log)
    case None => halfDuplex ==> consec <= 1
    case Some(e) =>
      && e.conn <= conn && e.settled
      && (halfDuplex ==> consec <= 1)
      && (e.conn == conn ==>
            && !e.reply.IsFatal()
            && (halfDuplex && e.reply.IsTimeout() ==>
                  && e.kind.Poll? && consec >= 1
                  && (|log| > 1 && log[|log| - 2].conn == conn ==> !log[|log| - 2].reply.IsTimeout())))
  }

  function Newest(log: Log): Option<Entry> {
    if log == [] then None else Some(log[|log| - 1])
  }

  lemma {:induction false} AppendLogOk(log: Log, e: Entry, halfDuplex: bool)
    requires LogOk(log, halfDuplex)
    requires log != [] ==> StepOk(log + [e], halfDuplex, |log| - 1)
    requires |log| > 1 ==> DrainOk(log + [e], halfDuplex, |log| - 2)
    requires log == [] && e.kind.Poll? ==> e.kind.attempt == 0
    ensures LogOk(log + [e], halfDuplex)
  {
    var next := log + [e];
    forall k: nat | k + 1 < |next|
      ensures StepOk(next, halfDuplex, k)
    {
      assert k + 1 < |log| ==> StepOk(log, halfDuplex, k);
    }
    forall k: nat | k + 2 < |next|
      ensures DrainOk(next, halfDuplex, k)
    {
      assert k + 2 < |log| ==> DrainOk(log, halfDuplex, k);
    }
  }

  /** A link that may carry another request carries any first attempt or command. */
  lemma {:induction false} LinkCarries(log: Log, e: Entry, halfDuplex: bool, consec: nat)
    requires LogOk(log, halfDuplex) && LinkOk(log, halfDuplex, e.conn, consec)
    requires e.kind.Poll? ==> e.kind.attempt == 0
    ensures LogOk(log + [e], halfDuplex)
  {
    AppendLogOk(log, e, halfDuplex);
  }

  /** The link after a settled first attempt or command. */
  lemma {:induction false} LinkAfter(log: Log, e: Entry, halfDuplex: bool, consec: nat, consec': nat)
    requires LinkOk(log, halfDuplex, e.conn, consec) && e.settled && !e.reply.IsFatal()
    requires halfDuplex ==> consec' <= 1
    requires halfDuplex && e.reply.IsTimeout() ==> e.kind.Poll? && consec == 0 && consec' == 1
    ensures LinkOk(log + [e], halfDuplex, e.conn, consec')
  {
  }

  /** The log ends in an attempt that will be retried. */
  predicate AwaitsRetry(log: Log, halfDuplex: bool, e: Entry) {
    && log != []
    && var last := log[|log| - 1];
       && !last.settled && last.conn == e.conn && !last.reply.IsFatal()
       && last.kind.Poll? && e.kind == Poll(last.kind.attempt + 1)
       && last.req == e.req && last.unit == e.unit && last.device == e.device
       && (halfDuplex ==> !last.reply.IsTimeout())
  }

  lemma {:induction false} RetryCarries(log: Log, e: Entry, halfDuplex: bool)
    requires LogOk(log, halfDuplex) && AwaitsRetry(log, halfDuplex, e)
    ensures LogOk(log + [e], halfDuplex)
  {
    AppendLogOk(log, e, halfDuplex);
  }

  lemma {:induction false} LinkAfterRetry(log: Log, e: Entry, halfDuplex: bool, consec: nat)
    requires AwaitsRetry(log, halfDuplex, e) && e.settled && !e.reply.IsFatal()
    requires halfDuplex ==> consec <= 1 && (e.reply.IsTimeout() ==> consec == 1)
    ensures LinkOk(log + [e], halfDuplex, e.conn, consec)
  {
  }

  lemma {:induction false} EarlierConnections(log: Log, halfDuplex: bool, conn: nat)
    requires forall k: nat :: k + 1 < |log| ==> StepOk(log, halfDuplex, k)
    requires log != [] ==> log[|log| - 1].conn < conn
    ensures !AnsweredOn(log, conn)
  {
    if log != [] {
      var init := log[..|log| - 1];
      forall k: nat | k + 1 < |init|
        ensures StepOk(init, halfDuplex, k)
      {
        assert StepOk(log, halfDuplex, k);
      }
      assert |init| > 0 ==> StepOk(log, halfDuplex, |init| - 1);
      EarlierConnections(init, halfDuplex, conn);
    }
  }

  // ----- Commands -----

  /** What became of a command that was taken off the queue. */
  datatype Fate =
    | Expired
    | RefusedDiagnostic
    | UnknownDevice
    | Disconnected
    | Sent(answer: Reply)

  /** The one reply its submitter gets. */
  function ReplyTo(f: Fate): Reply {
    match f
    case Expired => Err(Timeout)
    case RefusedDiagnostic => Err(Protocol)
    case UnknownDevice => Err(Protocol)
    case Disconnected => Err(NotConnected)
    case Sent(answer) => answer
  }

  /** Every submitter's reply, in the order in which the commands were taken. */
  function Replies(fates: seq<Fate>): seq<Reply> {
    if fates == [] then [] else Replies(fates[..|fates| - 1]) + [ReplyTo(fates[|fates| - 1])]
  }

  lemma {:induction false} RepliesOfOneMore(fates: seq<Fate>, fate: Fate)
    ensures Replies(fates + [fate]) == Replies(fates) + [ReplyTo(fate)]
  {
    assert (fates + [fate])[..|fates|] == fates;
  }

  function WriteOk(cmd: WriteCommand, f: Fate): nat {
    if cmd.diagnostic.None? && f.Sent? && f.answer.Ok? then 1 else 0
  }

  function WriteErr(cmd: WriteCommand, f: Fate): nat {
    match f
    case Expired => 1
    case Disconnected => 1
    case RefusedDiagnostic => 0
    case UnknownDevice => 1
    case Sent(answer) => if cmd.diagnostic.None? && answer.Err? then 1 else 0
  }

  function WritesOk(taken: seq<WriteCommand>, fates: seq<Fate>): nat
    requires |taken| == |fates|
  {
    if taken == [] then 0
    else
      var n := |taken| - 1;
      WritesOk(taken[..n], fates[..n]) + WriteOk(taken[n], fates[n])
  }

  function WritesErr(taken: seq<WriteCommand>, fates: seq<Fate>): nat
    requires |taken| == |fates|
  {
    if taken == [] then 0
    else
      var n := |taken| - 1;
      WritesErr(taken[..n], fates[..n]) + WriteErr(taken[n], fates[n])
  }

  /** Non-diagnostic commands, plus diagnostics that expired or failed while
      disconnected. */
  function CountedWrites(taken: seq<WriteCommand>, fates: seq<Fate>): nat
    requires |taken| == |fates|
  {
    if taken == [] then 0
    else
      var n := |taken| - 1;
      CountedWrites(taken[..n], fates[..n])
      + if taken[n].diagnostic.None? || fates[n].Expired? || fates[n].Disconnected? then 1 else 0
  }

  /** Only a non-diagnostic command can name an unknown device, only a diagnostic
      can be refused for its function. */
  predicate FateFits(cmd: WriteCommand, f: Fate) {
    && (f.UnknownDevice? ==> cmd.diagnostic.None?)
    && (f.RefusedDiagnostic? ==> cmd.diagnostic.Some?)
  }

  lemma {:induction false} WriteCountersAddUp(taken: seq<WriteCommand>, fates: seq<Fate>)
    requires |taken| == |fates|
    requires forall i :: 0 <= i < |taken| ==> FateFits(taken[i], fates[i])
    ensures WritesOk(taken, fates) + WritesErr(taken, fates) == CountedWrites(taken, fates)
  {
    if taken != [] {
      var n := |taken| - 1;
      WriteCountersAddUp(taken[..n], fates[..n]);
      assert FateFits(taken[n], fates[n]);
    }
  }

  /** A command on the wire: its own request, to its own device (or, for a
      diagnostic, a standard read to its own target), admitted by its deadline and
      never waited for past it. */
  predicate CommandEntryOk(devices: seq<DevicePlan>, taken: seq<WriteCommand>, fates: seq<Fate>, e: Entry)
    requires |taken| == |fates|
  {
    e.kind.Command? ==>
      && e.kind.index < |taken|
      && var cmd := taken[e.kind.index];
         && fates[e.kind.index] == Sent(e.reply)
         && e.req == cmd.req && e.settled
         && e.kind.admittedAt <= cmd.deadline
         && e.kind.admittedAt <= e.call.sentAt
         && (match cmd.diagnostic
             case Some(target) =>
               && e.req.Read? && e.unit == target.unit && e.device.None?
               && e.call.timeoutMs == Min(target.timeoutMs, SatSub(cmd.deadline, e.call.sentAt))
             case None =>
               && e.device.Some? && e.device.value < |devices|
               && var dev := devices[e.device.value];
                  && dev.id == cmd.device && e.unit == dev.unit
                  && e.call.timeoutMs == Min(dev.requestTimeoutMs, SatSub(cmd.deadline, e.call.sentAt)))
  }

  /** Commands reach the wire in the order in which they were taken, so each at
      most once; and each that was sent did reach it. */
  ghost predicate CommandsOk(devices: seq<DevicePlan>, log: Log, taken: seq<WriteCommand>, fates: seq<Fate>) {
    && |taken| == |fates|
    && (forall i :: 0 <= i < |log| ==> CommandEntryOk(devices, taken, fates, log[i]))
    && (forall i, j :: 0 <= i < j < |log| && log[i].kind.Command? && log[j].kind.Command?
          ==> log[i].kind.index < log[j].kind.index)
    && (forall c :: 0 <= c < |fates| && fates[c].Sent? ==> OnWire(log, c))
    && (forall c :: 0 <= c < |fates| ==> FateFits(taken[c], fates[c]))
  }

  ghost predicate OnWire(log: Log, c: nat) {
    exists i :: 0 <= i < |log| && log[i].kind.Command? && log[i].kind.index == c
  }

  /** A poll attempt joins the log. */
  lemma {:induction false} PollKeepsCommands(devices: seq<DevicePlan>, log: Log, e: Entry, taken: seq<WriteCommand>,
                                             fates: seq<Fate>)
    requires CommandsOk(devices, log, taken, fates) && e.kind.Poll?
    ensures CommandsOk(devices, log + [e], taken, fates)
  {
    WireGrows(log, e, |fates|);
  }

  lemma {:induction false} WireGrows(log: Log, e: Entry, n: nat)
    ensures forall c :: 0 <= c < n && OnWire(log, c) ==> OnWire(log + [e], c)
  {
    forall c | 0 <= c < n && OnWire(log, c)
      ensures OnWire(log + [e], c)
    {
      var i :| 0 <= i < |log| && log[i].kind.Command? && log[i].kind.index == c;
      assert (log + [e])[i] == log[i];
    }
  }

  /** A command is disposed of without reaching the wire. */
  lemma {:induction false} DropKeepsCommands(devices: seq<DevicePlan>, log: Log, taken: seq<WriteCommand>,
                                             fates: seq<Fate>, cmd: WriteCommand, fate: Fate)
    requires CommandsOk(devices, log, taken, fates) && !fate.Sent? && FateFits(cmd, fate)
    ensures CommandsOk(devices, log, taken + [cmd], fates + [fate])
  {
    forall i | 0 <= i < |log|
      ensures CommandEntryOk(devices, taken + [cmd], fates + [fate], log[i])
    {
      assert CommandEntryOk(devices, taken, fates, log[i]);
    }
  }

  /** A command is sent as the newest entry. */
  lemma {:induction false} SendKeepsCommands(devices: seq<DevicePlan>, log: Log, e: Entry, taken: seq<WriteCommand>,
                                             fates: seq<Fate>, cmd: WriteCommand)
    requires CommandsOk(devices, log, taken, fates)
    requires e.kind.Command? && e.kind.index == |taken|
    requires CommandEntryOk(devices, taken + [cmd], fates + [Sent(e.reply)], e)
    ensures CommandsOk(devices, log + [e], taken + [cmd], fates + [Sent(e.reply)])
  {
    var log', taken', fates' := log + [e], taken + [cmd], fates + [Sent(e.reply)];
    WireGrows(log, e, |fates|);
    assert log'[|log|] == e;
    assert OnWire(log', |taken|);
    forall i | 0 <= i < |log'|
      ensures CommandEntryOk(devices, taken', fates', log'[i])
    {
      assert i < |log| ==> CommandEntryOk(devices, taken, fates, log[i]);
    }
    forall i, j | 0 <= i < j < |log'| && log'[i].kind.Command? && log'[j].kind.Command?
      ensures log'[i].kind.index < log'[j].kind.index
    {
      assert CommandEntryOk(devices, taken, fates, log[i]);
    }
  }

  // ----- Reconnect delays -----

  /** One backoff: `healthy` when the connection before it carried an answer. */
  datatype Wait = Wait(healthy: bool, nominalMs: nat, delayMs: nat)

  /** The nominal delay after `k` earlier backoffs in a row. */
  function ReconnectDelay(retry: RetryConfig, k: nat): nat {
    if k == 0 then retry.baseBackoffMs else Max(Min(Doubled(retry.baseBackoffMs, k), retry.maxBackoffMs), 1)
  }

  /** Backoffs since the last connection that carried an answer: that one's own
      backoff starts the count at zero. */
  function Streak(waits: seq<Wait>): nat {
    if waits == [] then 0
    else if waits[|waits| - 1].healthy then 1
    else Streak(waits[..|waits| - 1]) + 1
  }

  ghost predicate WaitsOk(waits: seq<Wait>, retry: RetryConfig) {
    forall i :: 0 <= i < |waits| ==> WaitOk(waits, retry, i)
  }

  predicate WaitOk(waits: seq<Wait>, retry: RetryConfig, i: nat)
    requires i < |waits|
  {
    && waits[i].nominalMs == ReconnectDelay(retry, Streak(waits[..i + 1]) - 1)
    && waits[i].nominalMs / 2 <= waits[i].delayMs <= waits[i].nominalMs
  }

  /** `backoff_ms` doubles into the next nominal delay. */
  lemma {:induction false} NextReconnectDelay(retry: RetryConfig, k: nat)
    requires retry.Valid()
    ensures Max(Min(SatDouble(ReconnectDelay(retry, k)), retry.maxBackoffMs), 1) == ReconnectDelay(retry, k + 1)
  {
  }

  /** For positive base and limit: after k >= 1 backoffs in a row the nominal delay
      is `min(base * 2^k, max)`. */
  lemma {:induction false} ReconnectDelayIsExponential(retry: RetryConfig, k: nat)
    requires retry.baseBackoffMs >= 1 && retry.maxBackoffMs >= 1 && k >= 1
    ensures ReconnectDelay(retry, k) == Min(retry.baseBackoffMs * Pow2(k), retry.maxBackoffMs)
  {
    DoubledIsPower(retry.baseBackoffMs, k);
  }
}
