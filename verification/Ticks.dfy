/** One poll pass over devices whose memory stays fixed, as a function: what the
    loops of `run_tick` do to the cache and to the split overrides. */
module Ticks {
  import opened MbTypes
  import opened MbProto
  import opened Coalesce
  import opened Reading
  import opened Cache
  import opened Device
  import opened Wire

  type Overrides = map<SlotKey, seq<Transaction>>

  datatype Poller = Poller(slots: seq<Snapshot>, overrides: seq<Overrides>)

  /** The cache after one scattered reply. */
  function AfterScatter(slots: seq<Snapshot>, txn: Transaction, resp: Response): (out: seq<Snapshot>)
    ensures |out| == |slots|
  {
    var s := Scatter(txn, resp);
    Requalify(Publish(slots, s.updates), s.bad, Bad)
  }

  /** One transaction: publish the answer, or split, or mark its tags Bad. */
  function PollOne(m: Memory, p: Poller, d: nat, group: nat, index: nat, txn: Transaction): (out: Poller)
    requires d < |p.overrides|
    ensures |out.slots| == |p.slots| && |out.overrides| == |p.overrides|
  {
    match MemoryReply(m, txn.req)
    case Ok(resp) =>
      p.(slots := AfterScatter(p.slots, txn, resp))
    case Err(_) =>
      if MustSplit(p.overrides[d], (group, index), txn, IllegalDataAddress) then
        p.(overrides := p.overrides[d := p.overrides[d][(group, index) := SplitTxn(txn)]])
      else
        p.(slots := Requalify(p.slots, TagsOf(txn.fields), Bad))
  }

  function PollEach(m: Memory, p: Poller, d: nat, group: nat, index: nat, txns: seq<Transaction>): (out: Poller)
    requires d < |p.overrides|
    ensures |out.slots| == |p.slots| && |out.overrides| == |p.overrides|
    decreases |txns|
  {
    if txns == [] then p
    else PollOne(m, PollEach(m, p, d, group, index, txns[..|txns| - 1]), d, group, index, txns[|txns| - 1])
  }

  lemma {:induction false} EachStarts(m: Memory, p: Poller, d: nat, group: nat, index: nat, txns: seq<Transaction>)
    requires d < |p.overrides|
    ensures PollEach(m, p, d, group, index, txns[..0]) == p
  {
  }

  lemma {:induction false} EachOneMore(m: Memory, p: Poller, d: nat, group: nat, index: nat, txns: seq<Transaction>,
                                       n: nat)
    requires d < |p.overrides| && n < |txns|
    ensures PollEach(m, p, d, group, index, txns[..n + 1])
         == PollOne(m, PollEach(m, p, d, group, index, txns[..n]), d, group, index, txns[n])
  {
    assert txns[..n + 1][..n] == txns[..n];
  }

  /** The remembered split, or the planned transaction itself. */
  function Effective(o: Overrides, group: nat, index: nat, base: Transaction): seq<Transaction> {
    if (group, index) in o then o[(group, index)] else [base]
  }

  /** One planned transaction, or its remembered split. */
  function SlotPolled(m: Memory, p: Poller, d: nat, group: nat, index: nat, base: Transaction): (q: Poller)
    requires d < |p.overrides|
    ensures |q.slots| == |p.slots| && |q.overrides| == |p.overrides|
  {
    PollEach(m, p, d, group, index, Effective(p.overrides[d], group, index, base))
  }

  /** The first `n` transactions of one (device, group). */
  function PollGroup(m: Memory, p: Poller, d: nat, group: nat, txns: seq<Transaction>, n: nat): (out: Poller)
    requires d < |p.overrides| && n <= |txns|
    ensures |out.slots| == |p.slots| && |out.overrides| == |p.overrides|
  {
    if n == 0 then p
    else
      var q := PollGroup(m, p, d, group, txns, n - 1);
      SlotPolled(m, q, d, group, n - 1, txns[n - 1])
  }

  lemma GroupStarts(m: Memory, p: Poller, d: nat, group: nat, txns: seq<Transaction>)
    requires d < |p.overrides|
    ensures PollGroup(m, p, d, group, txns, 0) == p
  {
  }

  lemma GroupOneMore(m: Memory, p: Poller, d: nat, group: nat, txns: seq<Transaction>, n: nat)
    requires d < |p.overrides| && n < |txns|
    ensures PollGroup(m, p, d, group, txns, n + 1)
         == SlotPolled(m, PollGroup(m, p, d, group, txns, n), d, group, n, txns[n])
  {
  }

  predicate DueInRange(devices: seq<DevicePlan>, due: seq<(nat, nat)>) {
    forall i :: 0 <= i < |due| ==> due[i].0 < |devices| && due[i].1 < |devices[due[i].0].byGroup|
  }

  /** The first `n` entries of a scheduler batch. */
  function PollDue(bench: Byte -> Memory, devices: seq<DevicePlan>, p: Poller, due: seq<(nat, nat)>, n: nat):
    (out: Poller)
    requires |p.overrides| == |devices| && DueInRange(devices, due) && n <= |due|
    ensures |out.slots| == |p.slots| && |out.overrides| == |p.overrides|
  {
    if n == 0 then p
    else
      var q := PollDue(bench, devices, p, due, n - 1);
      var (d, g) := due[n - 1];
      var txns := devices[d].byGroup[g];
      PollGroup(bench(devices[d].unit), q, d, g, txns, |txns|)
  }

  lemma DueStarts(bench: Byte -> Memory, devices: seq<DevicePlan>, p: Poller, due: seq<(nat, nat)>)
    requires |p.overrides| == |devices| && DueInRange(devices, due)
    ensures PollDue(bench, devices, p, due, 0) == p
  {
  }

  lemma DueOneMore(bench: Byte -> Memory, devices: seq<DevicePlan>, p: Poller, due: seq<(nat, nat)>, n: nat)
    requires |p.overrides| == |devices| && DueInRange(devices, due) && n < |due|
    ensures var (d, g) := due[n]; var txns := devices[d].byGroup[g];
            PollDue(bench, devices, p, due, n + 1)
            == PollGroup(bench(devices[d].unit), PollDue(bench, devices, p, due, n), d, g, txns, |txns|)
  {
  }
}
