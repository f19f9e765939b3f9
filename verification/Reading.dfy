/** From replies to tags: `scatter` of `mb-poller/src/channel.rs` and `split_txn`
    of `mb-poller/src/device.rs`, against a device whose memory stays fixed. */
module Reading {
  import opened MbTypes
  import opened MbProto
  import opened Coalesce
  import opened CoalesceLaws

  // ----- scatter -----

  datatype Scattered = Scattered(updates: seq<Update>, bad: seq<TagId>)

  function TagsOf(fields: seq<Field>): (tags: seq<TagId>)
    ensures |tags| == |fields|
    ensures forall i :: 0 <= i < |fields| ==> tags[i] == fields[i].tag
  {
    seq(|fields|, i requires 0 <= i < |fields| => fields[i].tag)
  }

  /** The whole reply contradicts the request: a register count that differs, too
      few bits, or a vendor reply that is not of the configured length. */
  predicate WrongLength(req: Request, resp: Response) {
    match resp
    case RegisterReply(words) => req.Read? && |words| != req.qty
    case BitReply(bits) => req.Read? && |bits| < req.qty
    case RawReply(bytes) => req.Custom? && req.expectLen.Some? && |bytes| != req.expectLen.value
    case WriteAck => false
  }

  /** One field's slice of the reply, if the reply reaches that far. */
  function Slice(f: Field, resp: Response): Option<RawValue> {
    match resp
    case RegisterReply(words) =>
      if f.wordOffset + f.wordLen <= |words|
      then Some(Registers(words[f.wordOffset..f.wordOffset + f.wordLen])) else None
    case BitReply(bits) =>
      if f.wordOffset + f.wordLen <= |bits|
      then Some(Bits(bits[f.wordOffset..f.wordOffset + f.wordLen])) else None
    case RawReply(bytes) => Some(Raw(bytes))
    case WriteAck => None
  }

  function SliceAll(fields: seq<Field>, resp: Response): Scattered {
    if fields == [] then Scattered([], [])
    else
      var before := SliceAll(fields[..|fields| - 1], resp);
      var f := fields[|fields| - 1];
      match Slice(f, resp)
      case Some(v) => before.(updates := before.updates + [(f.tag, v)])
      case None => before.(bad := before.bad + [f.tag])
  }

  /** What one reply publishes and what it degrades to Bad. */
  function Scatter(txn: Transaction, resp: Response): Scattered {
    if resp.WriteAck? then Scattered([], [])
    else if WrongLength(txn.req, resp) then Scattered([], TagsOf(txn.fields))
    else SliceAll(txn.fields, resp)
  }

  /** The slicing loops of `scatter`. */
  method SliceReply(txn: Transaction, resp: Response) returns (updates: seq<Update>, bad: seq<TagId>)
    ensures Scattered(updates, bad) == Scatter(txn, resp)
  {
    updates, bad := [], [];
    if resp.WriteAck? {
      return;
    }
    if WrongLength(txn.req, resp) {
      bad := TagsOf(txn.fields);
      return;
    }
    for i := 0 to |txn.fields|
      invariant Scattered(updates, bad) == SliceAll(txn.fields[..i], resp)
    {
      var f := txn.fields[i];
      assert txn.fields[..i + 1][..i] == txn.fields[..i];
      match Slice(f, resp) {
        case Some(v) => updates := updates + [(f.tag, v)];
        case None => bad := bad + [f.tag];
      }
    }
    assert txn.fields[..|txn.fields|] == txn.fields;
  }

  /** A reply that contradicts the request publishes nothing, even for the fields
      it would reach, and marks every tag of the transaction Bad. */
  lemma WrongLengthPublishesNothing(txn: Transaction, resp: Response)
    requires || (txn.req.Read? && resp.RegisterReply? && |resp.words| != txn.req.qty)
             || (txn.req.Read? && resp.BitReply? && |resp.bits| < txn.req.qty)
             || (txn.req.Custom? && resp.RawReply? && txn.req.expectLen.Some?
                 && |resp.bytes| != txn.req.expectLen.value)
    ensures Scatter(txn, resp).updates == []
    ensures |Scatter(txn, resp).bad| == |txn.fields|
    ensures forall i :: 0 <= i < |txn.fields| ==> Scatter(txn, resp).bad[i] == txn.fields[i].tag
  {
  }

  /** A vendor reply of the configured length, or of any if none is configured,
      publishes all its bytes. */
  lemma VendorReplyIsWhole(txn: Transaction, bytes: seq<Byte>)
    requires txn.req.Custom? && (txn.req.expectLen.Some? ==> |bytes| == txn.req.expectLen.value)
    ensures var s := Scatter(txn, RawReply(bytes));
            && s.bad == [] && |s.updates| == |txn.fields|
            && forall i :: 0 <= i < |txn.fields| ==> s.updates[i] == (txn.fields[i].tag, Raw(bytes))
  {
    VendorSlices(txn.fields, bytes);
  }

  lemma {:induction false} VendorSlices(fields: seq<Field>, bytes: seq<Byte>)
    ensures var s := SliceAll(fields, RawReply(bytes));
            && s.bad == [] && |s.updates| == |fields|
            && forall i :: 0 <= i < |fields| ==> s.updates[i] == (fields[i].tag, Raw(bytes))
  {
    if fields != [] {
      VendorSlices(fields[..|fields| - 1], bytes);
    }
  }

  /** Every reply that carries data settles each field once: published or bad. */
  lemma {:induction false} ScatterSettlesEveryField(txn: Transaction, resp: Response)
    requires !resp.WriteAck?
    ensures var s := Scatter(txn, resp);
            multiset(UpdatedTags(s.updates)) + multiset(s.bad) == multiset(TagsOf(txn.fields))
  {
    if WrongLength(txn.req, resp) {
      assert UpdatedTags([]) == [];
    } else {
      SliceAllSettles(txn.fields, resp);
    }
  }

  /** The kind of reply the transport accepts for a request; it turns any other
      into a fatal error. */
  predicate Answers(req: Request, resp: Response) {
    match req
    case Read(area, _, _) => if area.IsBitDomain() then resp.BitReply? else resp.RegisterReply?
    case Custom(_, _, _) => resp.RawReply?
    case _ => resp.WriteAck?
  }

  function ReplyKind(req: Request): RawKind {
    match req
    case Read(area, _, _) => if area.IsBitDomain() then OfBits else OfRegisters
    case _ => OfBytes
  }

  /** A slot only ever receives the kind of value that its one function answers
      with. */
  lemma {:induction false} UpdatesAreOfOneKind(txn: Transaction, resp: Response)
    requires Answers(txn.req, resp)
    ensures forall i :: 0 <= i < |Scatter(txn, resp).updates| ==>
              ReplyKind(txn.req).Admits(Scatter(txn, resp).updates[i].1)
  {
    SlicesAreOfOneKind(txn.fields, txn.req, resp);
  }

  lemma {:induction false} SlicesAreOfOneKind(fields: seq<Field>, req: Request, resp: Response)
    requires Answers(req, resp)
    ensures forall i :: 0 <= i < |SliceAll(fields, resp).updates| ==>
              ReplyKind(req).Admits(SliceAll(fields, resp).updates[i].1)
  {
    if fields != [] {
      SlicesAreOfOneKind(fields[..|fields| - 1], req, resp);
    }
  }

  function UpdatedTags(updates: seq<Update>): (tags: seq<TagId>)
    ensures |tags| == |updates|
    ensures forall i :: 0 <= i < |updates| ==> tags[i] == updates[i].0
  {
    seq(|updates|, i requires 0 <= i < |updates| => updates[i].0)
  }

  lemma {:induction false} SliceAllSettles(fields: seq<Field>, resp: Response)
    ensures var s := SliceAll(fields, resp);
            multiset(UpdatedTags(s.updates)) + multiset(s.bad) == multiset(TagsOf(fields))
  {
    if fields == [] {
      assert UpdatedTags([]) == [] && TagsOf(fields) == [];
    } else {
      var init, f := fields[..|fields| - 1], fields[|fields| - 1];
      SliceAllSettles(init, resp);
      assert TagsOf(fields) == TagsOf(init) + [f.tag];
      var before := SliceAll(init, resp);
      if Slice(f, resp).Some? {
        var u := (f.tag, Slice(f, resp).value);
        assert UpdatedTags(before.updates + [u]) == UpdatedTags(before.updates) + [f.tag];
      }
    }
  }

  // ----- A device with a fixed memory -----

  datatype Memory = Memory(
    words: (Area, nat) -> Word,
    bits: (Area, nat) -> bool,
    mapped: (Area, nat) -> bool,
    vendor: (Byte, seq<Byte>) -> seq<Byte>)

  predicate SpanMapped(m: Memory, area: Area, addr: nat, len: nat) {
    forall a: nat :: addr <= a < addr + len ==> m.mapped(area, a)
  }

  function SpanReply(m: Memory, area: Area, addr: nat, len: nat): Response {
    if area.IsBitDomain() then BitReply(seq(len, i requires 0 <= i => m.bits(area, addr + i)))
    else RegisterReply(seq<Word>(len, i requires 0 <= i => m.words(area, addr + i)))
  }

  /** How such a device answers: a read that meets an unmapped address is refused
      with IllegalDataAddress. */
  function MemoryReply(m: Memory, req: Request): Reply {
    match req
    case Read(area, addr, qty) =>
      if SpanMapped(m, area, addr, qty) then Ok(SpanReply(m, area, addr, qty))
      else Err(Exception(IllegalDataAddress))
    case Custom(code, data, _) => Ok(RawReply(m.vendor(code, data)))
    case _ => Ok(WriteAck)
  }

  /** What a tag is to be read from: its own address and width. */
  datatype Target = Target(tag: TagId, addr: nat, len: nat)

  function TargetOf(iv: Interval): Target {
    Target(iv.field.tag, iv.start, iv.field.wordLen)
  }

  function EntryTargets(ivals: seq<Interval>): (ts: seq<Target>)
    ensures |ts| == |ivals|
    ensures forall i :: 0 <= i < |ivals| ==> ts[i] == TargetOf(ivals[i])
  {
    seq(|ivals|, i requires 0 <= i < |ivals| => TargetOf(ivals[i]))
  }

  function FieldTarget(base: nat, f: Field): Target {
    Target(f.tag, base + f.wordOffset, f.wordLen)
  }

  /** What a compiled transaction reads its fields from. */
  function Targets(base: nat, fields: seq<Field>): (ts: seq<Target>)
    ensures |ts| == |fields|
    ensures forall i :: 0 <= i < |fields| ==> ts[i] == FieldTarget(base, fields[i])
  {
    seq(|fields|, i requires 0 <= i < |fields| => FieldTarget(base, fields[i]))
  }

  function AllTargets(txns: seq<Transaction>): seq<Target> {
    if txns == [] then [] else Targets(txns[0].base, txns[0].fields) + AllTargets(txns[1..])
  }

  /** An individual read of one tag: a request for exactly its span, sliced as a
      transaction with that one field. */
  ghost function OwnRead(m: Memory, area: Area, t: Target): Update {
    (t.tag, if area.IsBitDomain() then Bits(SpanReply(m, area, t.addr, t.len).bits)
            else Registers(SpanReply(m, area, t.addr, t.len).words))
  }

  ghost function OwnReads(m: Memory, area: Area, ts: seq<Target>): (us: seq<Update>)
    ensures |us| == |ts|
    ensures forall i :: 0 <= i < |ts| ==> us[i] == OwnRead(m, area, ts[i])
  {
    seq(|ts|, i requires 0 <= i < |ts| => OwnRead(m, area, ts[i]))
  }

  /** Everything published when each transaction is sent once. */
  ghost function Published(m: Memory, txns: seq<Transaction>): seq<Update> {
    if txns == [] then []
    else
      (match MemoryReply(m, txns[0].req)
       case Ok(resp) => Scatter(txns[0], resp).updates
       case Err(_) => [])
      + Published(m, txns[1..])
  }

  // ----- split_txn -----

  function SplitOne(txn: Transaction, f: Field): Transaction {
    var addr := TruncU16(txn.base + f.wordOffset);
    var qty := TruncU16(Max(f.wordLen, 1));
    Transaction(if txn.req.Read? then Read(txn.req.area, addr, qty) else txn.req,
                addr, [f.(wordOffset := 0)], false)
  }

  /** One singleton transaction per field. */
  function SplitTxn(txn: Transaction): (subs: seq<Transaction>)
    ensures |subs| == |txn.fields|
    ensures forall i {:trigger subs[i]} :: 0 <= i < |subs| ==> subs[i] == SplitOne(txn, txn.fields[i])
  {
    seq(|txn.fields|, i requires 0 <= i < |txn.fields| => SplitOne(txn, txn.fields[i]))
  }

  /** A split read obeys the same limits, reads exactly its field's own span, and
      never splits again. */
  lemma SplitReadsAreLegal(area: Area, txn: Transaction, i: nat)
    requires LegalRead(area, txn) && i < |txn.fields|
    ensures var sub := SplitTxn(txn)[i]; var t := FieldTarget(txn.base, txn.fields[i]);
            && LegalRead(area, sub) && !sub.coalesced
            && sub.req == Read(area, t.addr, t.len)
            && Targets(sub.base, sub.fields) == [t]
            && t.addr + t.len <= txn.req.addr + txn.req.qty && txn.req.addr <= t.addr
  {
    assert txn.fields[i] in txn.fields;
  }

  lemma {:induction false} SplitKeepsTargets(area: Area, txn: Transaction, n: nat)
    requires LegalRead(area, txn) && n <= |txn.fields|
    ensures AllTargets(SplitTxn(txn)[n..]) == Targets(txn.base, txn.fields)[n..]
    decreases |txn.fields| - n
  {
    if n < |txn.fields| {
      SplitReadsAreLegal(area, txn, n);
      SplitKeepsTargets(area, txn, n + 1);
      assert SplitTxn(txn)[n..][1..] == SplitTxn(txn)[n + 1..];
    }
  }

  // ----- Coalesced reading preserves meaning -----

  lemma SliceOfMemory(m: Memory, area: Area, base: nat, qty: nat, f: Field)
    requires f.wordOffset + f.wordLen <= qty
    ensures Slice(f, SpanReply(m, area, base, qty)) == Some(OwnRead(m, area, FieldTarget(base, f)).1)
  {
    if area.IsBitDomain() {
      assert SpanReply(m, area, base, qty).bits[f.wordOffset..f.wordOffset + f.wordLen]
          == SpanReply(m, area, base + f.wordOffset, f.wordLen).bits;
    } else {
      assert SpanReply(m, area, base, qty).words[f.wordOffset..f.wordOffset + f.wordLen]
          == SpanReply(m, area, base + f.wordOffset, f.wordLen).words;
    }
  }

  lemma {:induction false} SliceAllOfMemory(m: Memory, area: Area, base: nat, qty: nat, fields: seq<Field>)
    requires forall i :: 0 <= i < |fields| ==> fields[i].wordOffset + fields[i].wordLen <= qty
    ensures SliceAll(fields, SpanReply(m, area, base, qty))
         == Scattered(OwnReads(m, area, Targets(base, fields)), [])
  {
    if fields != [] {
      var init, f := fields[..|fields| - 1], fields[|fields| - 1];
      SliceAllOfMemory(m, area, base, qty, init);
      SliceOfMemory(m, area, base, qty, f);
      OwnReadsAppend(m, area, base, init, f);
      assert fields == init + [f];
    }
  }

  lemma OwnReadsAppend(m: Memory, area: Area, base: nat, fields: seq<Field>, f: Field)
    ensures OwnReads(m, area, Targets(base, fields + [f]))
         == OwnReads(m, area, Targets(base, fields)) + [OwnRead(m, area, FieldTarget(base, f))]
  {
  }

  /** A fully mapped legal read publishes to each of its tags what a read of that
      tag alone would return, and degrades none. */
  lemma ReadServesItsTargets(m: Memory, area: Area, txn: Transaction)
    requires LegalRead(area, txn) && SpanMapped(m, area, txn.req.addr, txn.req.qty)
    ensures MemoryReply(m, txn.req).Ok?
    ensures Scatter(txn, MemoryReply(m, txn.req).resp)
         == Scattered(OwnReads(m, area, Targets(txn.base, txn.fields)), [])
  {
    SliceAllOfMemory(m, area, txn.base, txn.req.qty, txn.fields);
  }

  /** `OwnRead` is what a request for the tag's span alone publishes. */
  lemma OwnReadIsAnIndividualRead(m: Memory, area: Area, t: Target)
    requires 1 <= t.len <= area.MaxQty() && t.addr + t.len <= ADDRESS_SPACE
    requires SpanMapped(m, area, t.addr, t.len)
    ensures var txn := Transaction(Read(area, t.addr, t.len), t.addr, [Field(t.tag, 0, t.len)], false);
            Published(m, [txn]) == [OwnRead(m, area, t)]
  {
    var txn := Transaction(Read(area, t.addr, t.len), t.addr, [Field(t.tag, 0, t.len)], false);
    ReadServesItsTargets(m, area, txn);
    assert OwnReads(m, area, Targets(txn.base, txn.fields)) == [OwnRead(m, area, t)];
    assert Published(m, [txn][1..]) == [];
  }

  lemma OwnReadsConcat(m: Memory, area: Area, a: seq<Target>, b: seq<Target>)
    ensures OwnReads(m, area, a + b) == OwnReads(m, area, a) + OwnReads(m, area, b)
  {
  }

  ghost predicate AllMapped(m: Memory, area: Area, txns: seq<Transaction>) {
    forall t :: t in txns ==> LegalRead(area, t) && SpanMapped(m, area, t.req.addr, t.req.qty)
  }

  lemma {:induction false} PublishedIsOwnReads(m: Memory, area: Area, txns: seq<Transaction>)
    requires AllMapped(m, area, txns)
    ensures Published(m, txns) == OwnReads(m, area, AllTargets(txns))
  {
    if txns != [] {
      ReadServesItsTargets(m, area, txns[0]);
      PublishedIsOwnReads(m, area, txns[1..]);
      OwnReadsConcat(m, area, Targets(txns[0].base, txns[0].fields), AllTargets(txns[1..]));
    }
  }

  function RunTargets(runs: seq<Run>): seq<Target> {
    if runs == [] then [] else Targets(runs[0].start, runs[0].fields) + RunTargets(runs[1..])
  }

  lemma {:induction false} EmitKeepsTargets(area: Area, runs: seq<Run>)
    requires forall i :: 0 <= i < |runs| ==> runs[i].start < ADDRESS_SPACE
    ensures AllTargets(EmitAll(area, runs)) == RunTargets(runs)
  {
    if runs != [] {
      assert EmitAll(area, runs)[1..] == EmitAll(area, runs[1..]);
      EmitKeepsTargets(area, runs[1..]);
    }
  }

  lemma Associate<T>(a: seq<T>, b: seq<T>, c: seq<T>)
    ensures (a + b) + c == a + (b + c)
  {
  }

  lemma RunTargetsCons(run: Run, runs: seq<Run>)
    ensures RunTargets([run] + runs) == Targets(run.start, run.fields) + RunTargets(runs)
  {
    assert ([run] + runs)[1..] == runs;
  }

  lemma ExtendTargets(run: Run, iv: Interval)
    requires run.start <= iv.start < ADDRESS_SPACE
    ensures Targets(run.start, Extend(run, iv).fields) == Targets(run.start, run.fields) + [TargetOf(iv)]
  {
  }

  lemma FreshTargets(iv: Interval)
    ensures Targets(iv.start, Fresh(iv).fields) == [TargetOf(iv)]
  {
  }

  lemma EntryTargetsCons(ivals: seq<Interval>)
    requires ivals != []
    ensures EntryTargets(ivals) == [TargetOf(ivals[0])] + EntryTargets(ivals[1..])
  {
  }

  ghost predicate Follows(run: Run, rest: seq<Interval>) {
    && SortedByStart(rest)
    && (forall i :: 0 <= i < |rest| ==> run.start <= rest[i].start < ADDRESS_SPACE)
  }

  lemma {:induction false} GrowKeepsTargets(run: Run, rest: seq<Interval>, gap: nat, cap: nat)
    requires Follows(run, rest)
    ensures RunTargets(Grow(run, rest, gap, cap)) == Targets(run.start, run.fields) + EntryTargets(rest)
    decreases |rest|
  {
    var own := Targets(run.start, run.fields);
    if rest == [] {
      RunTargetsCons(run, []);
      assert [run] + [] == [run];
    } else {
      var iv, tail := rest[0], rest[1..];
      var joins := Joins(run.start, run.end, iv.start, iv.end, gap, cap);
      var next := if joins then Extend(run, iv) else Fresh(iv);
      assert Follows(next, tail);
      GrowKeepsTargets(next, tail, gap, cap);
      var runs := Grow(next, tail, gap, cap);
      assert RunTargets(Grow(run, rest, gap, cap)) == own + ([TargetOf(iv)] + EntryTargets(tail)) by {
        if joins {
          ExtendTargets(run, iv);
          Associate(own, [TargetOf(iv)], EntryTargets(tail));
        } else {
          FreshTargets(iv);
          RunTargetsCons(run, runs);
        }
      }
      EntryTargetsCons(rest);
    }
  }

  lemma RunsStartInRange(sorted: seq<Interval>, gap: nat, cap: nat)
    requires SortedByStart(sorted) && ValidIntervals(sorted, cap)
    ensures var runs := Runs(sorted, gap, cap); forall i :: 0 <= i < |runs| ==> runs[i].start < ADDRESS_SPACE
  {
    if sorted != [] {
      FreshWithinLimits(sorted[0], gap, cap);
      GrowWithinLimits(Fresh(sorted[0]), sorted[1..], gap, cap);
      var runs := Runs(sorted, gap, cap);
      forall i | 0 <= i < |runs|
        ensures runs[i].start < ADDRESS_SPACE
      {
        assert WithinLimits(runs[i], gap, cap);
      }
    }
  }

  lemma RunsKeepTargets(sorted: seq<Interval>, gap: nat, cap: nat)
    requires SortedByStart(sorted) && ValidIntervals(sorted, cap)
    ensures RunTargets(Runs(sorted, gap, cap)) == EntryTargets(sorted)
  {
    if sorted != [] {
      assert forall i :: 0 <= i < |sorted| ==> ValidInterval(sorted[i], cap);
      GrowKeepsTargets(Fresh(sorted[0]), sorted[1..], gap, cap);
      FreshTargets(sorted[0]);
      EntryTargetsCons(sorted);
    }
  }

  /** The compiled transactions read every entry from its own address and width,
      each once, in start order. */
  lemma PlanReadsEveryEntryOnce(area: Area, ivals: seq<Interval>, gap: nat)
    requires ValidIntervals(ivals, area.MaxQty())
    ensures AllTargets(Coalesced(area, ivals, gap)) == EntryTargets(SortByStart(ivals))
    ensures multiset(SortByStart(ivals)) == multiset(ivals)
  {
    var sorted, cap := SortByStart(ivals), area.MaxQty();
    SortedIsValid(ivals, cap);
    SortByStartIsStable(ivals, 0);
    RunsStartInRange(sorted, gap, cap);
    EmitKeepsTargets(area, Runs(sorted, gap, cap));
    RunsKeepTargets(sorted, gap, cap);
  }

  /** Whatever the device holds, the merged reads publish exactly what individual
      reads of the entries would. */
  lemma MergingPreservesMeaning(m: Memory, area: Area, ivals: seq<Interval>, gap: nat)
    requires ValidIntervals(ivals, area.MaxQty())
    requires forall t :: t in Coalesced(area, ivals, gap) && t.req.Read?
               ==> SpanMapped(m, area, t.req.addr, t.req.qty)
    ensures Published(m, Coalesced(area, ivals, gap)) == OwnReads(m, area, EntryTargets(SortByStart(ivals)))
  {
    MergedReadsAreLegal(area, ivals, gap);
    PublishedIsOwnReads(m, area, Coalesced(area, ivals, gap));
    PlanReadsEveryEntryOnce(area, ivals, gap);
  }

  /** Splitting a merged read changes nothing either: the singletons publish what
      the whole read would. */
  lemma SplittingPreservesMeaning(m: Memory, area: Area, txn: Transaction)
    requires LegalRead(area, txn) && SpanMapped(m, area, txn.req.addr, txn.req.qty)
    ensures Published(m, SplitTxn(txn)) == Published(m, [txn])
  {
    var subs := SplitTxn(txn);
    forall t | t in subs
      ensures LegalRead(area, t) && SpanMapped(m, area, t.req.addr, t.req.qty)
    {
      var i :| 0 <= i < |subs| && subs[i] == t;
      SplitReadsAreLegal(area, txn, i);
    }
    PublishedIsOwnReads(m, area, subs);
    PublishedIsOwnReads(m, area, [txn]);
    SplitKeepsTargets(area, txn, 0);
    assert AllTargets([txn][1..]) == [];
    assert subs[0..] == subs && Targets(txn.base, txn.fields)[0..] == Targets(txn.base, txn.fields);
    assert AllTargets([txn]) == Targets(txn.base, txn.fields);
  }
}
