/** Typed engineering values and the store that publishes them:
    `tags-core/src/value.rs` and `tags-core/src/store.rs`. */
module Typed {
  import opened MbTypes
  import opened Graph

  /** `NotFinite` stands for a float that is infinite or not a number. */
  datatype TypedValue =
    | Bool(on: bool)
    | Int(i: int)
    | UInt(n: nat)
    | Float(x: real)
    | NotFinite
    | Text(text: string)
    | Bytes(bytes: seq<Byte>)
    | Empty
  {
    /** `as_f64`, for values that are finite. */
    function Number(): Option<real> {
      match this
      case Bool(on) => Some(if on then 1.0 else 0.0)
      case Int(i) => Some(i as real)
      case UInt(n) => Some(n as real)
      case Float(x) => Some(x)
      case _ => None
    }
  }

  /** Booleans count as one and zero; text and bytes are no numbers. */
  lemma NumbersOfValues(on: bool, i: int, n: nat, x: real, text: string, bytes: seq<Byte>)
    ensures Bool(on).Number() == Some(if on then 1.0 else 0.0)
    ensures Int(i).Number() == Some(i as real) && UInt(n).Number() == Some(n as real) && Float(x).Number() == Some(x)
    ensures Text(text).Number().None? && Bytes(bytes).Number().None? && Empty.Number().None? && NotFinite.Number().None?
  {
  }

  datatype TypedSnapshot = TypedSnapshot(value: TypedValue, quality: Quality, seqNo: nat)

  const NEVER_COMPUTED: TypedSnapshot := TypedSnapshot(Empty, Bad, 0)

  /** `publish_value` on one slot. */
  function Shown(s: TypedSnapshot, v: TypedValue): TypedSnapshot {
    TypedSnapshot(v, Good, s.seqNo + 1)
  }

  class TypedStore {
    const names: seq<string>
    const byName: map<string, TagId>
    var slots: seq<TypedSnapshot>
    var batchSeq: nat
    /** Every batch handed to the broadcast channel, oldest first. */
    ghost var sent: seq<seq<TagId>>

    ghost predicate Valid()
      reads this
    {
      && |slots| == |names|
      && (forall name :: name in byName ==> byName[name] < |names| && names[byName[name]] == name)
      && (forall t :: 0 <= t < |names| ==> names[t] in byName && t <= byName[names[t]])
    }

    constructor (names: seq<string>)
      ensures Valid() && this.names == names
      ensures forall t :: 0 <= t < |slots| ==> slots[t] == NEVER_COMPUTED
      ensures sent == []
    {
      var index: map<string, TagId> := map[];
      for t := 0 to |names|
        invariant forall name :: name in index ==> index[name] < |names| && names[index[name]] == name
        invariant forall u :: 0 <= u < t ==> names[u] in index && u <= index[names[u]]
      {
        index := index[names[t] := t];
      }
      this.names, this.byName := names, index;
      this.slots := seq(|names|, _ => NEVER_COMPUTED);
      this.batchSeq, this.sent := 0, [];
    }

    method PublishValue(tag: TagId, v: TypedValue)
      modifies this`slots
      ensures slots == if tag < |old(slots)| then old(slots)[tag := Shown(old(slots)[tag], v)] else old(slots)
    {
      if tag < |slots| {
        slots := slots[tag := Shown(slots[tag], v)];
      }
    }

    method SetQuality(tag: TagId, q: Quality)
      modifies this`slots
      ensures slots == if tag < |old(slots)| then old(slots)[tag := old(slots)[tag].(quality := q)] else old(slots)
    {
      if tag < |slots| {
        slots := slots[tag := slots[tag].(quality := q)];
      }
    }

    method Seed(tag: TagId, snapshot: TypedSnapshot)
      modifies this`slots
      ensures slots == if tag < |old(slots)| then old(slots)[tag := snapshot] else old(slots)
    {
      if tag < |slots| {
        slots := slots[tag := snapshot];
      }
    }

    method Clear(tag: TagId)
      modifies this`slots
      ensures slots == if tag < |old(slots)| then old(slots)[tag := NEVER_COMPUTED] else old(slots)
    {
      Seed(tag, NEVER_COMPUTED);
    }

    /** A persisted value: present, but not fresh. */
    method Restore(tag: TagId, v: TypedValue)
      modifies this`slots
      ensures slots == if tag < |old(slots)|
                       then old(slots)[tag := TypedSnapshot(v, Uncertain, old(slots)[tag].seqNo)] else old(slots)
    {
      if tag < |slots| {
        slots := slots[tag := TypedSnapshot(v, Uncertain, slots[tag].seqNo)];
      }
    }

    /** An empty batch is not sent. */
    method SendBatch(tags: seq<TagId>)
      modifies this`batchSeq, this`sent
      ensures sent == if tags == [] then old(sent) else old(sent) + [tags]
      ensures batchSeq == old(batchSeq) + |sent| - |old(sent)|
    {
      if tags != [] {
        sent := sent + [tags];
        batchSeq := batchSeq + 1;
      }
    }

    /** What `tag("name")` reads in a formula: Good numbers only. */
    function NumericValue(name: string): Option<real>
      requires Valid()
      reads this
    {
      if name in byName && slots[byName[name]].quality == Good then slots[byName[name]].value.Number() else None
    }
  }
}
