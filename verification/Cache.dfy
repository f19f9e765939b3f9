/** The raw tag cache: `mb-poller/src/cache.rs`. */
module Cache {
  import opened MbTypes

  /** One slot after a value write. */
  function Written(s: Snapshot, v: RawValue): Snapshot {
    Snapshot(v, Good, s.seqNo + 1)
  }

  /** All slots after the writes of one batch, in order. */
  function Publish(slots: seq<Snapshot>, updates: seq<Update>): (out: seq<Snapshot>)
    ensures |out| == |slots|
  {
    if updates == [] then slots
    else
      var before := Publish(slots, updates[..|updates| - 1]);
      var (tag, v) := updates[|updates| - 1];
      if tag < |before| then before[tag := Written(before[tag], v)] else before
  }

  /** All slots after a quality change of some tags: values and counters stay. */
  function Requalify(slots: seq<Snapshot>, tags: seq<TagId>, q: Quality): (out: seq<Snapshot>)
    ensures |out| == |slots|
    ensures forall t {:trigger out[t]} :: 0 <= t < |slots| ==>
              out[t] == if t in tags then slots[t].(quality := q) else slots[t]
  {
    seq(|slots|, t requires 0 <= t < |slots| => if t in tags then slots[t].(quality := q) else slots[t])
  }

  function NeverRead(n: nat): (slots: seq<Snapshot>)
    ensures |slots| == n && forall t :: 0 <= t < n ==> slots[t] == NEVER_READ
  {
    seq(n, _ => NEVER_READ)
  }

  predicate Updates(updates: seq<Update>, tag: TagId) {
    exists i :: 0 <= i < |updates| && updates[i].0 == tag
  }

  /** A batch writes its own tags only, and leaves each of them Good, with a new
      sequence number. */
  lemma {:induction false} PublishTouches(slots: seq<Snapshot>, updates: seq<Update>, t: TagId)
    requires t < |slots|
    ensures !Updates(updates, t) ==> Publish(slots, updates)[t] == slots[t]
    ensures Updates(updates, t) ==>
              Publish(slots, updates)[t].quality == Good && Publish(slots, updates)[t].seqNo > slots[t].seqNo
  {
    if updates != [] {
      var n := |updates| - 1;
      PublishTouches(slots, updates[..n], t);
      assert Updates(updates[..n], t) ==> Updates(updates, t);
      if Updates(updates, t) && updates[n].0 != t {
        var i :| 0 <= i < |updates| && updates[i].0 == t;
        assert updates[..n][i].0 == t;
      }
    }
  }

  /** A tag named once holds the value of that update. */
  lemma {:induction false} PublishWrites(slots: seq<Snapshot>, updates: seq<Update>, i: nat)
    requires i < |updates| && updates[i].0 < |slots|
    requires forall j :: 0 <= j < |updates| && j != i ==> updates[j].0 != updates[i].0
    ensures var (tag, v) := updates[i]; Publish(slots, updates)[tag] == Snapshot(v, Good, slots[tag].seqNo + 1)
  {
    var n := |updates| - 1;
    if i == n {
      PublishTouches(slots, updates[..n], updates[i].0);
    } else {
      PublishWrites(slots, updates[..n], i);
    }
  }

  class TagCache {
    var slots: seq<Snapshot>
    var batchSeq: nat
    /** Every batch handed to the broadcast channel, oldest first; its ring keeps the
        newest of them for each receiver. */
    var sent: seq<seq<TagId>>

    constructor (tagCount: nat)
      ensures slots == NeverRead(tagCount)
      ensures sent == [] && batchSeq == 0
    {
      slots := NeverRead(tagCount);
      batchSeq := 0;
      sent := [];
    }

    /** Copies a snapshot into a prepared generation; no batch is sent. */
    method Seed(tag: TagId, snapshot: Snapshot)
      modifies this`slots
      ensures slots == if tag < |old(slots)| then old(slots)[tag := snapshot] else old(slots)
    {
      if tag < |slots| {
        slots := slots[tag := snapshot];
      }
    }

    method SendBatch(tags: seq<TagId>)
      modifies this`batchSeq, this`sent
      ensures sent == old(sent) + [tags] && batchSeq == old(batchSeq) + 1
    {
      sent := sent + [tags];
      batchSeq := batchSeq + 1;
    }

    method PublishBatch(updates: seq<Update>)
      requires forall i :: 0 <= i < |updates| ==> updates[i].0 < |slots|
      modifies this
      ensures slots == Publish(old(slots), updates)
      ensures |sent| == |old(sent)| + 1 && sent[..|sent| - 1] == old(sent)
      ensures |sent[|sent| - 1]| == |updates|
      ensures forall i :: 0 <= i < |updates| ==> sent[|sent| - 1][i] == updates[i].0
    {
      var touched: seq<TagId> := [];
      for i := 0 to |updates|
        invariant slots == Publish(old(slots), updates[..i]) && sent == old(sent)
        invariant |touched| == i && forall j :: 0 <= j < i ==> touched[j] == updates[j].0
      {
        var (tag, v) := updates[i];
        assert updates[..i + 1][..i] == updates[..i];
        slots := slots[tag := Written(slots[tag], v)];
        touched := touched + [tag];
      }
      assert updates[..|updates|] == updates;
      SendBatch(touched);
    }

    method SetDeviceQuality(tags: seq<TagId>, q: Quality)
      requires forall t :: t in tags ==> t < |slots|
      modifies this
      ensures slots == Requalify(old(slots), tags, q)
      ensures sent == old(sent) + [tags]
    {
      for i := 0 to |tags|
        invariant slots == Requalify(old(slots), tags[..i], q) && sent == old(sent)
      {
        assert tags[..i + 1] == tags[..i] + [tags[i]] && tags[i] in tags;
        slots := slots[tags[i] := slots[tags[i]].(quality := q)];
      }
      assert tags[..|tags|] == tags;
      SendBatch(tags);
    }

    method DegradeUncertain(tags: seq<TagId>)
      requires forall t :: t in tags ==> t < |slots|
      modifies this
      ensures slots == Requalify(old(slots), tags, Uncertain)
      ensures sent == old(sent) + [tags]
    {
      SetDeviceQuality(tags, Uncertain);
    }
  }
}
