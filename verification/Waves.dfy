/** One evaluation wave of `tags-core/src/engine.rs` as a function, and what every
    wave keeps: calculated tags agree with an evaluation from scratch, and what is
    published follows them within the deadband. */
module Waves {
  import opened MbTypes
  import opened Graph
  import opened Typed
  import opened Formula

  /** What a wave works on: the calculated and the published store, the deadband
      memory, and the tags published so far. */
  datatype Wave =
    Wave(computed: seq<TypedSnapshot>, store: seq<TypedSnapshot>, last: seq<Option<real>>, changed: seq<TagId>) {
    predicate Sized(n: nat) {
      |computed| == n && |store| == n && |last| == n
    }
  }

  predicate WithinDeadband(meta: TagMeta, last: Option<real>, v: TypedValue) {
    && meta.deadband.Some? && last.Some? && v.Number().Some?
    && var diff := v.Number().value - last.value;
       (if diff < 0.0 then -diff else diff) < meta.deadband.value
  }

  /** The deadband gate: a recovery from below Good always passes. */
  predicate Suppressed(meta: TagMeta, s: TypedSnapshot, last: Option<real>, v: TypedValue) {
    s.quality == Good && WithinDeadband(meta, last, v)
  }

  function Remembered(last: Option<real>, v: TypedValue): Option<real> {
    if v.Number().Some? then v.Number() else last
  }

  /** One tag of a wave, given its outcome. */
  function Settle(meta: TagMeta, w: Wave, t: TagId, o: Outcome): (out: Wave)
    requires t < |w.computed| && w.Sized(|w.computed|)
    ensures out.Sized(|w.computed|)
  {
    match o
    case Degraded(q) =>
      var w' := w.(computed := w.computed[t := w.computed[t].(quality := q)]);
      if w.store[t].quality == q then w'
      else w'.(store := w.store[t := w.store[t].(quality := q)], changed := w.changed + [t])
    case Usable(v) =>
      var w' := w.(computed := w.computed[t := Shown(w.computed[t], v)]);
      if Suppressed(meta, w.store[t], w.last[t], v) then w'
      else w'.(store := w.store[t := Shown(w.store[t], v)], last := w.last[t := Remembered(w.last[t], v)],
               changed := w.changed + [t])
  }

  function AfterTag(deps: Edges, metas: seq<TagMeta>, raws: seq<Snapshot>, w: Wave, t: TagId): (out: Wave)
    requires WellFormed(deps) && |metas| == |raws| == |deps| && w.Sized(|deps|) && t < |deps|
    ensures out.Sized(|deps|)
  {
    Settle(metas[t], w, t, Evaluate(metas[t], raws[t], Pick(Outcomes(w.computed), deps[t])))
  }

  /** The affected tags among the first `k` of the order, in order. */
  ghost function WaveUpTo(deps: Edges, metas: seq<TagMeta>, raws: seq<Snapshot>, affected: seq<bool>, w: Wave,
                          order: seq<TagId>, k: nat): (out: Wave)
    requires WellFormed(deps) && |metas| == |raws| == |affected| == |deps| && w.Sized(|deps|)
    requires k <= |order| && InRange(order, |deps|)
    ensures out.Sized(|deps|)
  {
    if k == 0 then w
    else
      var before := WaveUpTo(deps, metas, raws, affected, w, order, k - 1);
      if affected[order[k - 1]] then AfterTag(deps, metas, raws, before, order[k - 1]) else before
  }

  ghost predicate InRange(order: seq<TagId>, n: nat) {
    forall i :: 0 <= i < |order| ==> order[i] < n
  }

  ghost predicate WaveInputs(deps: Edges, metas: seq<TagMeta>, raws: seq<Snapshot>, affected: seq<bool>, w: Wave,
                             order: seq<TagId>) {
    && WellFormed(deps) && |metas| == |raws| == |affected| == |deps| && w.Sized(|deps|)
    && EvaluationOrder(deps, order)
    && InRange(order, |deps|)
  }

  lemma {:induction false} WaveOneMore(deps: Edges, metas: seq<TagMeta>, raws: seq<Snapshot>, affected: seq<bool>,
                                       w: Wave, order: seq<TagId>, k: nat)
    requires WaveInputs(deps, metas, raws, affected, w, order) && k < |order|
    ensures var before := WaveUpTo(deps, metas, raws, affected, w, order, k);
            WaveUpTo(deps, metas, raws, affected, w, order, k + 1)
            == if affected[order[k]] then AfterTag(deps, metas, raws, before, order[k]) else before
  {
  }

  // ----- Calculated tags -----

  /** Every dependent of an affected tag is affected. */
  ghost predicate Closed(deps: Edges, affected: seq<bool>) {
    && |affected| == |deps|
    && forall t: nat, d: nat :: Link(deps, t, d) && affected[d] ==> affected[t]
  }

  /** The tags that a batch affects. */
  ghost function AffectedBy(deps: Edges, changed: seq<TagId>): (mask: seq<bool>)
    ensures |mask| == |deps| && forall t: nat :: t < |deps| ==> (mask[t] <==> Affects(deps, changed, t))
  {
    seq(|deps|, t requires 0 <= t < |deps| => Affects(deps, changed, t))
  }

  lemma AffectedIsClosed(deps: Edges, changed: seq<TagId>)
    ensures Closed(deps, AffectedBy(deps, changed))
  {
    forall t: nat, d: nat | Link(deps, t, d) && AffectedBy(deps, changed)[d]
      ensures AffectedBy(deps, changed)[t]
    {
      var c :| c in changed && c < |deps| && DependsOn(deps, d, c);
      DependsFurther(deps, t, d, c);
    }
  }

  /** The batch names every tag. */
  ghost predicate NamesAll(tags: seq<TagId>, n: nat) {
    forall t: nat :: t < n ==> t in tags
  }

  lemma AllAffected(deps: Edges, changed: seq<TagId>)
    requires NamesAll(changed, |deps|)
    ensures forall t: nat :: t < |deps| ==> AffectedBy(deps, changed)[t]
  {
    forall t: nat | t < |deps|
      ensures Affects(deps, changed, t)
    {
      DependsOnItself(deps, t);
    }
  }

  /** The tag's calculated slot is what its recipe makes of the others. */
  ghost predicate Current(deps: Edges, metas: seq<TagMeta>, raws: seq<Snapshot>, computed: seq<TypedSnapshot>, t: TagId)
    requires WellFormed(deps) && |metas| == |raws| == |computed| == |deps| && t < |deps|
  {
    Holds(deps, metas, raws, Outcomes(computed), t)
  }

  lemma {:induction false} SettleCalculates(meta: TagMeta, w: Wave, t: TagId, o: Outcome)
    requires t < |w.computed| && w.Sized(|w.computed|) && (o.Degraded? ==> o.quality != Good)
    ensures OutcomeOf(Settle(meta, w, t, o).computed[t]) == o
    ensures forall u :: 0 <= u < |w.computed| && u != t ==> Settle(meta, w, t, o).computed[u] == w.computed[u]
  {
  }

  /** A tag's equation only looks at itself and the tags it reads. */
  lemma {:induction false} CurrentKeeps(deps: Edges, metas: seq<TagMeta>, raws: seq<Snapshot>, raws': seq<Snapshot>,
                                        computed: seq<TypedSnapshot>, computed': seq<TypedSnapshot>, t: TagId)
    requires WellFormed(deps) && |metas| == |raws| == |raws'| == |computed| == |computed'| == |deps| && t < |deps|
    requires Current(deps, metas, raws, computed, t)
    requires raws'[t] == raws[t] && computed'[t] == computed[t]
             && forall d :: d in deps[t] ==> computed'[d] == computed[d]
    ensures Current(deps, metas, raws', computed', t)
  {
    assert Pick(Outcomes(computed), deps[t]) == Pick(Outcomes(computed'), deps[t]);
  }

  // ----- What is published -----

  /** A published slot follows its calculated one: the same quality, and when Good
      the same value or one within the deadband of the last number published. */
  predicate Follows(meta: TagMeta, c: TypedSnapshot, s: TypedSnapshot, last: Option<real>) {
    && s.quality == c.quality
    && (c.quality == Good ==> s.value == c.value || WithinDeadband(meta, last, c.value))
  }

  /** The deadband memory is the published number, when the slot holds one. */
  predicate Remembers(s: TypedSnapshot, last: Option<real>) {
    s.value.Number().Some? ==> last == s.value.Number()
  }

  /** A wave leaves the value shown before, or shows the one it has calculated. */
  predicate ShowsOldOrNew(before: TypedSnapshot, c: TypedSnapshot, s: TypedSnapshot) {
    s.value == before.value || s.value == c.value
  }

  ghost predicate PublishedOk(metas: seq<TagMeta>, w: Wave) {
    && w.Sized(|metas|)
    && forall t :: 0 <= t < |metas| ==> Follows(metas[t], w.computed[t], w.store[t], w.last[t])
  }

  ghost predicate MemoryOk(w: Wave) {
    && |w.store| == |w.last|
    && forall t :: 0 <= t < |w.store| ==> Remembers(w.store[t], w.last[t])
  }

  /** What becomes of a published slot and of its deadband memory. Below Good, only
      the quality follows. A Good number less than the deadband away from the last
      one published leaves a Good slot alone; every other Good value is published,
      and remembered if it is a number. */
  predicate Gated(meta: TagMeta, s: TypedSnapshot, last: Option<real>, c: TypedSnapshot, s': TypedSnapshot,
                  last': Option<real>)
  {
    if c.quality != Good then s' == s.(quality := c.quality) && last' == last
    else if && s.quality == Good && meta.deadband.Some? && last.Some? && c.value.Number().Some?
            && -meta.deadband.value < c.value.Number().value - last.value < meta.deadband.value
    then s' == s && last' == last
    else && s' == TypedSnapshot(c.value, Good, s.seqNo + 1)
         && last' == if c.value.Number().Some? then c.value.Number() else last
  }

  /** What one tag's step does to the published side. */
  lemma {:induction false} SettlePublishes(meta: TagMeta, w: Wave, t: TagId, o: Outcome)
    requires t < |w.computed| && w.Sized(|w.computed|) && (o.Degraded? ==> o.quality != Good)
    ensures Stepped(meta, w, Settle(meta, w, t, o), t)
  {
  }

  ghost predicate Stepped(meta: TagMeta, w: Wave, out: Wave, t: TagId)
    requires t < |w.computed| && w.Sized(|w.computed|) && out.Sized(|w.computed|)
  {
    && Gated(meta, w.store[t], w.last[t], out.computed[t], out.store[t], out.last[t])
    && Follows(meta, out.computed[t], out.store[t], out.last[t])
    && ShowsOldOrNew(w.store[t], out.computed[t], out.store[t])
    && (Remembers(w.store[t], w.last[t]) ==> Remembers(out.store[t], out.last[t]))
    && (out.changed == if out.store[t] != w.store[t] then w.changed + [t] else w.changed)
    && (forall u :: 0 <= u < |w.computed| && u != t ==>
          out.computed[u] == w.computed[u] && out.store[u] == w.store[u] && out.last[u] == w.last[u])
  }

  lemma {:induction false} SettleFollowsStore(meta: TagMeta, w: Wave, t: TagId, o: Outcome)
    requires t < |w.computed| && w.Sized(|w.computed|) && (o.Degraded? ==> o.quality != Good)
    requires w.last[t] == w.store[t].value.Number()
    ensures var out := Settle(meta, w, t, o); Follows(meta, out.computed[t], out.store[t], out.store[t].value.Number())
  {
  }

  // ----- Numbers stay numbers -----

  /** Every usable value of the recipe is a number. */
  ghost predicate YieldsNumbers(meta: TagMeta, kind: RawKind) {
    forall raw: RawValue, numbers :: kind.Admits(raw) && Value(meta, raw, numbers).Usable? ==>
      Value(meta, raw, numbers).value.Number().Some?
  }

  /** None is: text, or the bytes of a vendor reply. */
  ghost predicate YieldsOthers(meta: TagMeta, kind: RawKind) {
    forall raw: RawValue, numbers :: kind.Admits(raw) && Value(meta, raw, numbers).Usable? ==>
      Value(meta, raw, numbers).value.Number().None?
  }

  ghost predicate StableRecipe(meta: TagMeta, kind: RawKind) {
    YieldsNumbers(meta, kind) || YieldsOthers(meta, kind)
  }

  /** A Good slot holds a number exactly if the recipe yields numbers. */
  ghost predicate OfKind(meta: TagMeta, kind: RawKind, s: TypedSnapshot) {
    s.quality == Good ==> (s.value.Number().Some? <==> YieldsNumbers(meta, kind))
  }

  /** If tag `t` had slots of its kind, it still does. */
  ghost predicate KeepsKind(meta: TagMeta, kind: RawKind, raw: RawValue, w: Wave, out: Wave, t: TagId)
    requires t < |w.computed| && w.Sized(|w.computed|) && out.Sized(|w.computed|)
  {
    StableRecipe(meta, kind) && kind.Admits(raw)
    && OfKind(meta, kind, w.store[t]) && OfKind(meta, kind, w.computed[t]) ==>
      OfKind(meta, kind, out.store[t]) && OfKind(meta, kind, out.computed[t])
  }

  lemma {:induction false} SettleKeepsKind(meta: TagMeta, kind: RawKind, w: Wave, t: TagId, raw: Snapshot,
                                           inputs: seq<Outcome>)
    requires t < |w.computed| && w.Sized(|w.computed|)
    ensures KeepsKind(meta, kind, raw.value, w, Settle(meta, w, t, Evaluate(meta, raw, inputs)), t)
  {
    OutcomeIsHonest(meta, raw, inputs);
    var o := Evaluate(meta, raw, inputs);
    assert o.Usable? ==> o == Value(meta, raw.value, Numbers(inputs));
  }

  // ----- One step, and all of them -----

  /** What the evaluation of one tag makes of a wave. */
  ghost predicate Advances(deps: Edges, metas: seq<TagMeta>, raws: seq<Snapshot>, w: Wave, out: Wave, t: TagId)
    requires WellFormed(deps) && |metas| == |raws| == |deps| && w.Sized(|deps|) && out.Sized(|deps|) && t < |deps|
  {
    && Current(deps, metas, raws, out.computed, t)
    && Stepped(metas[t], w, out, t)
    && (w.last[t] == w.store[t].value.Number() ==>
          Follows(metas[t], out.computed[t], out.store[t], out.store[t].value.Number()))
    && (forall kind :: KeepsKind(metas[t], kind, raws[t].value, w, out, t))
  }

  lemma {:induction false} TagAdvances(deps: Edges, metas: seq<TagMeta>, raws: seq<Snapshot>, w: Wave,
                                       order: seq<TagId>, k: nat)
    requires WellFormed(deps) && |metas| == |raws| == |deps| && w.Sized(|deps|)
    requires EvaluationOrder(deps, order) && k < |order| && order[k] < |deps|
    ensures Advances(deps, metas, raws, w, AfterTag(deps, metas, raws, w, order[k]), order[k])
  {
    var t := order[k];
    var inputs := Pick(Outcomes(w.computed), deps[t]);
    var o := Evaluate(metas[t], raws[t], inputs);
    OutcomeIsHonest(metas[t], raws[t], inputs);
    SettleCalculates(metas[t], w, t, o);
    SettlePublishes(metas[t], w, t, o);
    if w.last[t] == w.store[t].value.Number() {
      SettleFollowsStore(metas[t], w, t, o);
    }
    forall kind
      ensures KeepsKind(metas[t], kind, raws[t].value, w, Settle(metas[t], w, t, o), t)
    {
      SettleKeepsKind(metas[t], kind, w, t, raws[t], inputs);
    }
    StepIsCurrent(deps, metas, raws, w, Settle(metas[t], w, t, o), order, k);
  }

  /** No tag reads itself, so its own step leaves its inputs alone. */
  lemma {:induction false} StepIsCurrent(deps: Edges, metas: seq<TagMeta>, raws: seq<Snapshot>, w: Wave, out: Wave,
                                         order: seq<TagId>, k: nat)
    requires WellFormed(deps) && |metas| == |raws| == |deps| && w.Sized(|deps|) && out.Sized(|deps|)
    requires EvaluationOrder(deps, order) && k < |order| && order[k] < |deps|
    requires var t := order[k];
             && OutcomeOf(out.computed[t]) == Evaluate(metas[t], raws[t], Pick(Outcomes(w.computed), deps[t]))
             && forall u :: 0 <= u < |deps| && u != t ==> out.computed[u] == w.computed[u]
    ensures Current(deps, metas, raws, out.computed, order[k])
  {
    var t := order[k];
    forall d | d in deps[t]
      ensures d != t
    {
      assert d in order[..k];
    }
    assert Pick(Outcomes(out.computed), deps[t]) == Pick(Outcomes(w.computed), deps[t]);
  }

  ghost predicate TraceStep(deps: Edges, metas: seq<TagMeta>, raws: seq<Snapshot>, affected: seq<bool>,
                            order: seq<TagId>, trace: seq<Wave>, k: nat)
    requires WellFormed(deps) && |metas| == |raws| == |affected| == |deps| && InRange(order, |deps|)
    requires k < |order| && k + 1 < |trace| && trace[k].Sized(|deps|) && trace[k + 1].Sized(|deps|)
  {
    if affected[order[k]] then Advances(deps, metas, raws, trace[k], trace[k + 1], order[k])
    else trace[k + 1] == trace[k]
  }

  /** The states of a wave, one tag of the order after the other. */
  ghost predicate IsTrace(deps: Edges, metas: seq<TagMeta>, raws: seq<Snapshot>, affected: seq<bool>, order: seq<TagId>,
                          trace: seq<Wave>)
  {
    && WellFormed(deps) && |metas| == |raws| == |affected| == |deps|
    && Distinct(order) && InRange(order, |deps|) && |trace| == |order| + 1
    && (forall k :: 0 <= k < |trace| ==> trace[k].Sized(|deps|))
    && (forall k: nat :: k < |order| ==> TraceStep(deps, metas, raws, affected, order, trace, k))
  }

  lemma {:induction false} WaveAdvances(deps: Edges, metas: seq<TagMeta>, raws: seq<Snapshot>, affected: seq<bool>,
                                        w: Wave, order: seq<TagId>, k: nat)
    requires WaveInputs(deps, metas, raws, affected, w, order) && k < |order|
    ensures var a := WaveUpTo(deps, metas, raws, affected, w, order, k);
            var b := WaveUpTo(deps, metas, raws, affected, w, order, k + 1);
            if affected[order[k]] then Advances(deps, metas, raws, a, b, order[k]) else b == a
  {
    if affected[order[k]] {
      TagAdvances(deps, metas, raws, WaveUpTo(deps, metas, raws, affected, w, order, k), order, k);
    }
  }

  lemma {:induction false} TraceOf(deps: Edges, metas: seq<TagMeta>, raws: seq<Snapshot>, affected: seq<bool>, w: Wave,
                                   order: seq<TagId>) returns (trace: seq<Wave>)
    requires WaveInputs(deps, metas, raws, affected, w, order)
    ensures IsTrace(deps, metas, raws, affected, order, trace) && trace[0] == w
    ensures trace[|order|] == WaveUpTo(deps, metas, raws, affected, w, order, |order|)
  {
    trace := seq(|order| + 1, k requires 0 <= k <= |order| => WaveUpTo(deps, metas, raws, affected, w, order, k));
    forall k: nat | k < |order|
      ensures TraceStep(deps, metas, raws, affected, order, trace, k)
    {
      WaveAdvances(deps, metas, raws, affected, w, order, k);
    }
  }

  // ----- Waves calculate from scratch -----

  /** After the first `k` tags: the affected ones among them are current, and
      everything else is untouched. */
  ghost predicate CalculatedUpTo(deps: Edges, metas: seq<TagMeta>, raws: seq<Snapshot>, affected: seq<bool>, w: Wave,
                                 out: Wave, order: seq<TagId>, k: nat)
    requires WaveInputs(deps, metas, raws, affected, w, order) && out.Sized(|deps|) && k <= |order|
  {
    && (forall t :: t in order[..k] && affected[t] ==> Current(deps, metas, raws, out.computed, t))
    && (forall t :: 0 <= t < |deps| && !(t in order[..k] && affected[t]) ==> out.computed[t] == w.computed[t])
  }

  lemma {:induction false} TraceCalculates(deps: Edges, metas: seq<TagMeta>, raws: seq<Snapshot>, affected: seq<bool>,
                                           order: seq<TagId>, trace: seq<Wave>, k: nat)
    requires IsTrace(deps, metas, raws, affected, order, trace) && k <= |order|
    requires EvaluationOrder(deps, order)
    ensures CalculatedUpTo(deps, metas, raws, affected, trace[0], trace[k], order, k)
  {
    if k > 0 {
      TraceCalculates(deps, metas, raws, affected, order, trace, k - 1);
      assert TraceStep(deps, metas, raws, affected, order, trace, k - 1);
      assert order[..k] == order[..k - 1] + [order[k - 1]];
      if affected[order[k - 1]] {
        OneMoreCalculated(deps, metas, raws, affected, trace[0], trace[k - 1], trace[k], order, k);
      }
    }
  }

  lemma {:induction false} OneMoreCalculated(deps: Edges, metas: seq<TagMeta>, raws: seq<Snapshot>, affected: seq<bool>,
                                             w: Wave, before: Wave, out: Wave, order: seq<TagId>, k: nat)
    requires WaveInputs(deps, metas, raws, affected, w, order) && 0 < k <= |order| && affected[order[k - 1]]
    requires before.Sized(|deps|) && out.Sized(|deps|)
    requires CalculatedUpTo(deps, metas, raws, affected, w, before, order, k - 1)
    requires Current(deps, metas, raws, out.computed, order[k - 1])
    requires forall u :: 0 <= u < |deps| && u != order[k - 1] ==> out.computed[u] == before.computed[u]
    ensures CalculatedUpTo(deps, metas, raws, affected, w, out, order, k)
  {
    assert order[..k] == order[..k - 1] + [order[k - 1]];
    forall u | u in order[..k - 1] && affected[u]
      ensures Current(deps, metas, raws, out.computed, u)
    {
      EarlierIsApart(deps, order, k - 1, u);
      CurrentKeeps(deps, metas, raws, raws, before.computed, out.computed, u);
    }
  }

  /** A tag before position `k` neither is, nor reads, the tag at `k`. */
  lemma {:induction false} EarlierIsApart(deps: Edges, order: seq<TagId>, k: nat, u: TagId)
    requires EvaluationOrder(deps, order) && k < |order| && u in order[..k]
    ensures u != order[k] && u < |deps| && order[k] !in deps[u]
  {
    var i :| 0 <= i < k && order[i] == u;
    forall d | d in deps[u]
      ensures d != order[k]
    {
      assert d in order[..i];
      var j :| 0 <= j < i && order[j] == d;
    }
  }

  /** The raw snapshots last used: this wave's for the affected tags. */
  function Merged(consumed: seq<Snapshot>, raws: seq<Snapshot>, affected: seq<bool>): (out: seq<Snapshot>)
    requires |consumed| == |raws| == |affected|
    ensures |out| == |raws| && forall t :: 0 <= t < |out| ==> out[t] == if affected[t] then raws[t] else consumed[t]
  {
    seq(|raws|, t requires 0 <= t < |raws| => if affected[t] then raws[t] else consumed[t])
  }

  /** A wave over a closed set of tags leaves the calculated store equal to an
      evaluation of every tag from scratch, from the snapshots last used, provided
      that this held of the tags outside the set. */
  lemma {:induction false} WaveSolves(deps: Edges, metas: seq<TagMeta>, consumed: seq<Snapshot>, raws: seq<Snapshot>,
                                      affected: seq<bool>, w: Wave, order: seq<TagId>)
    requires WaveInputs(deps, metas, raws, affected, w, order) && |consumed| == |raws|
    requires Closed(deps, affected)
    requires forall t :: 0 <= t < |deps| && !affected[t] ==> Current(deps, metas, consumed, w.computed, t)
    ensures Solves(deps, metas, Merged(consumed, raws, affected),
                   Outcomes(WaveUpTo(deps, metas, raws, affected, w, order, |order|).computed))
  {
    var trace := TraceOf(deps, metas, raws, affected, w, order);
    TraceCalculates(deps, metas, raws, affected, order, trace, |order|);
    CalculatedSolves(deps, metas, consumed, raws, affected, w, trace[|order|], order);
  }

  lemma {:induction false} CalculatedSolves(deps: Edges, metas: seq<TagMeta>, consumed: seq<Snapshot>,
                                            raws: seq<Snapshot>, affected: seq<bool>, w: Wave, out: Wave,
                                            order: seq<TagId>)
    requires WaveInputs(deps, metas, raws, affected, w, order) && |consumed| == |raws| && out.Sized(|deps|)
    requires Closed(deps, affected) && CalculatedUpTo(deps, metas, raws, affected, w, out, order, |order|)
    requires forall t :: 0 <= t < |deps| && !affected[t] ==> Current(deps, metas, consumed, w.computed, t)
    ensures Solves(deps, metas, Merged(consumed, raws, affected), Outcomes(out.computed))
  {
    assert order[..|order|] == order;
    var merged := Merged(consumed, raws, affected);
    forall t: nat | t < |deps|
      ensures Current(deps, metas, merged, out.computed, t)
    {
      if affected[t] {
        assert t in order;
        CurrentKeeps(deps, metas, raws, merged, out.computed, out.computed, t);
      } else {
        forall d | d in deps[t]
          ensures out.computed[d] == w.computed[d]
        {
          assert Link(deps, t, d);
        }
        CurrentKeeps(deps, metas, consumed, merged, w.computed, out.computed, t);
      }
    }
    forall t: nat | t < |deps|
      ensures Holds(deps, metas, merged, Outcomes(out.computed), t)
    {
      assert Current(deps, metas, merged, out.computed, t);
    }
  }

  // ----- Waves keep what is published -----

  /** After the first `k` tags: affected ones among them follow, the memory holds,
      and the batch so far names exactly the tags written, each once. */
  ghost predicate PublishedUpTo(deps: Edges, metas: seq<TagMeta>, affected: seq<bool>, w: Wave, out: Wave,
                                order: seq<TagId>, k: nat)
    requires |metas| == |affected| == |deps| && w.Sized(|deps|) && out.Sized(|deps|) && k <= |order|
    requires InRange(order, |deps|)
  {
    && (forall t :: 0 <= t < |deps| && t in order[..k] && affected[t] ==>
          && Follows(metas[t], out.computed[t], out.store[t], out.last[t])
          && Gated(metas[t], w.store[t], w.last[t], out.computed[t], out.store[t], out.last[t]))
    && (forall t :: 0 <= t < |deps| && !(t in order[..k] && affected[t]) ==>
          out.computed[t] == w.computed[t] && out.store[t] == w.store[t] && out.last[t] == w.last[t])
    && (forall t :: 0 <= t < |deps| ==> ShowsOldOrNew(w.store[t], out.computed[t], out.store[t]))
    && MemoryOk(out)
    && Distinct(out.changed)
    && (forall t :: t in out.changed ==> t in order[..k])
    && (forall t: nat :: t in out.changed <==> t < |deps| && out.store[t] != w.store[t])
  }

  lemma NotEarlier(order: seq<TagId>, k: nat)
    requires Distinct(order) && k < |order|
    ensures order[k] !in order[..k] && order[..k + 1] == order[..k] + [order[k]]
  {
  }

  lemma {:induction false} TracePublishes(deps: Edges, metas: seq<TagMeta>, raws: seq<Snapshot>, affected: seq<bool>,
                                          order: seq<TagId>, trace: seq<Wave>, k: nat)
    requires IsTrace(deps, metas, raws, affected, order, trace) && k <= |order|
    requires MemoryOk(trace[0]) && trace[0].changed == []
    ensures PublishedUpTo(deps, metas, affected, trace[0], trace[k], order, k)
  {
    if k > 0 {
      TracePublishes(deps, metas, raws, affected, order, trace, k - 1);
      assert TraceStep(deps, metas, raws, affected, order, trace, k - 1);
      NotEarlier(order, k - 1);
      if affected[order[k - 1]] {
        OneMorePublished(deps, metas, affected, trace[0], trace[k - 1], trace[k], order, k);
      }
    }
  }

  lemma {:induction false} OneMorePublished(deps: Edges, metas: seq<TagMeta>, affected: seq<bool>, w: Wave,
                                            before: Wave, out: Wave, order: seq<TagId>, k: nat)
    requires |metas| == |affected| == |deps| && w.Sized(|deps|) && before.Sized(|deps|) && out.Sized(|deps|)
    requires InRange(order, |deps|) && 0 < k <= |order| && affected[order[k - 1]] && order[k - 1] !in order[..k - 1]
    requires PublishedUpTo(deps, metas, affected, w, before, order, k - 1)
    requires Stepped(metas[order[k - 1]], before, out, order[k - 1])
    ensures PublishedUpTo(deps, metas, affected, w, out, order, k)
  {
    var t := order[k - 1];
    assert order[..k] == order[..k - 1] + [t];
    assert t !in before.changed;
    DistinctAppends(before.changed, t);
  }

  /** After a wave that reaches every tag, and after each one that follows it: the
      published qualities are the calculated ones and values follow; the batch
      names exactly the tags written, without repeats. */
  lemma {:induction false} WaveKeepsPublished(deps: Edges, metas: seq<TagMeta>, raws: seq<Snapshot>,
                                              affected: seq<bool>, w: Wave, order: seq<TagId>)
    requires WaveInputs(deps, metas, raws, affected, w, order)
    requires MemoryOk(w) && w.changed == []
    requires PublishedOk(metas, w) || forall t :: 0 <= t < |deps| ==> affected[t]
    ensures var out := WaveUpTo(deps, metas, raws, affected, w, order, |order|);
            && PublishedOk(metas, out) && MemoryOk(out)
            && (forall t :: 0 <= t < |metas| ==> ShowsOldOrNew(w.store[t], out.computed[t], out.store[t]))
            && (forall t :: 0 <= t < |metas| && affected[t] ==>
                  Gated(metas[t], w.store[t], w.last[t], out.computed[t], out.store[t], out.last[t]))
            && (forall t :: 0 <= t < |metas| && !affected[t] ==>
                  out.computed[t] == w.computed[t] && out.store[t] == w.store[t] && out.last[t] == w.last[t])
            && Distinct(out.changed)
            && (forall t: nat :: t in out.changed <==> t < |deps| && out.store[t] != w.store[t])
  {
    var trace := TraceOf(deps, metas, raws, affected, w, order);
    var out := trace[|order|];
    TracePublishes(deps, metas, raws, affected, order, trace, |order|);
    assert order[..|order|] == order;
    forall t: nat | t < |deps|
      ensures Follows(metas[t], out.computed[t], out.store[t], out.last[t])
    {
      assert t in order;
    }
  }

  // ----- A wave with fresh memory -----

  /** The published numbers, as a fresh pump reads them. */
  function StoreNumbers(slots: seq<TypedSnapshot>): (last: seq<Option<real>>)
    ensures |last| == |slots| && forall t :: 0 <= t < |slots| ==> last[t] == slots[t].value.Number()
  {
    seq(|slots|, t requires 0 <= t < |slots| => slots[t].value.Number())
  }

  ghost predicate FollowsStoreUpTo(deps: Edges, metas: seq<TagMeta>, w: Wave, out: Wave, order: seq<TagId>, k: nat)
    requires |metas| == |deps| && w.Sized(|deps|) && out.Sized(|deps|) && k <= |order|
  {
    && (forall t :: 0 <= t < |deps| && t in order[..k] ==>
          Follows(metas[t], out.computed[t], out.store[t], out.store[t].value.Number()))
    && (forall t :: 0 <= t < |deps| && t !in order[..k] ==> out.store[t] == w.store[t] && out.last[t] == w.last[t])
  }

  lemma {:induction false} TraceFollowsStore(deps: Edges, metas: seq<TagMeta>, raws: seq<Snapshot>, affected: seq<bool>,
                                             order: seq<TagId>, trace: seq<Wave>, k: nat)
    requires IsTrace(deps, metas, raws, affected, order, trace) && k <= |order|
    requires trace[0].last == StoreNumbers(trace[0].store) && forall t :: 0 <= t < |deps| ==> affected[t]
    ensures FollowsStoreUpTo(deps, metas, trace[0], trace[k], order, k)
  {
    if k > 0 {
      TraceFollowsStore(deps, metas, raws, affected, order, trace, k - 1);
      assert TraceStep(deps, metas, raws, affected, order, trace, k - 1);
      NotEarlier(order, k - 1);
      OneMoreFollowsStore(deps, metas, raws, trace[0], trace[k - 1], trace[k], order, k);
    }
  }

  /** After a full wave that starts from the published numbers, those of the new
      store serve as its memory just as well. */
  lemma {:induction false} FreshWaveFollowsStore(deps: Edges, metas: seq<TagMeta>, raws: seq<Snapshot>,
                                                 affected: seq<bool>, w: Wave, order: seq<TagId>)
    requires WaveInputs(deps, metas, raws, affected, w, order)
    requires w.last == StoreNumbers(w.store) && forall t :: 0 <= t < |deps| ==> affected[t]
    ensures var out := WaveUpTo(deps, metas, raws, affected, w, order, |order|);
            PublishedOk(metas, out.(last := StoreNumbers(out.store)))
  {
    var trace := TraceOf(deps, metas, raws, affected, w, order);
    TraceFollowsStore(deps, metas, raws, affected, order, trace, |order|);
    assert order[..|order|] == order;
  }

  lemma {:induction false} OneMoreFollowsStore(deps: Edges, metas: seq<TagMeta>, raws: seq<Snapshot>, w: Wave,
                                               before: Wave, out: Wave, order: seq<TagId>, k: nat)
    requires WellFormed(deps) && |metas| == |raws| == |deps|
    requires w.Sized(|deps|) && before.Sized(|deps|) && out.Sized(|deps|)
    requires 0 < k <= |order| && order[k - 1] < |deps| && order[k - 1] !in order[..k - 1]
    requires w.last == StoreNumbers(w.store) && FollowsStoreUpTo(deps, metas, w, before, order, k - 1)
    requires Advances(deps, metas, raws, before, out, order[k - 1])
    ensures FollowsStoreUpTo(deps, metas, w, out, order, k)
  {
    assert order[..k] == order[..k - 1] + [order[k - 1]];
  }

  // ----- What the deadband promises -----

  function Abs(x: real): real {
    if x < 0.0 then -x else x
  }

  /** A shown value stands for a calculated one: the same, or a number within the
      deadband of it. */
  predicate Close(meta: TagMeta, calculated: TypedValue, shown: TypedValue) {
    shown == calculated
    || (meta.deadband.Some? && calculated.Number().Some? && shown.Number().Some?
        && Abs(calculated.Number().value - shown.Number().value) < meta.deadband.value)
  }

  /** What a Good tag shows is always close to what was calculated, so slow drift
      never adds up. */
  lemma PublishedIsClose(meta: TagMeta, kind: RawKind, c: TypedSnapshot, s: TypedSnapshot, last: Option<real>)
    requires Follows(meta, c, s, last) && Remembers(s, last)
    requires OfKind(meta, kind, c) && OfKind(meta, kind, s)
    ensures s.quality == c.quality && (c.quality == Good ==> Close(meta, c.value, s.value))
  {
  }

  /** Every slot holds the kind of value that its tag's function answers with. */
  ghost predicate Admitted(raws: seq<Snapshot>, kinds: seq<RawKind>) {
    |raws| == |kinds| && forall t :: 0 <= t < |raws| ==> kinds[t].Admits(raws[t].value)
  }

  ghost predicate StableRecipes(metas: seq<TagMeta>, kinds: seq<RawKind>) {
    |metas| == |kinds| && forall t :: 0 <= t < |metas| ==> StableRecipe(metas[t], kinds[t])
  }

  ghost predicate KindsOk(metas: seq<TagMeta>, kinds: seq<RawKind>, w: Wave) {
    && |kinds| == |metas| && w.Sized(|metas|)
    && forall t :: 0 <= t < |metas| ==>
         OfKind(metas[t], kinds[t], w.store[t]) && OfKind(metas[t], kinds[t], w.computed[t])
  }

  lemma {:induction false} TraceKeepsKinds(deps: Edges, metas: seq<TagMeta>, kinds: seq<RawKind>, raws: seq<Snapshot>,
                                           affected: seq<bool>, order: seq<TagId>, trace: seq<Wave>, k: nat)
    requires IsTrace(deps, metas, raws, affected, order, trace) && k <= |order|
    requires StableRecipes(metas, kinds) && KindsOk(metas, kinds, trace[0]) && Admitted(raws, kinds)
    ensures KindsOk(metas, kinds, trace[k])
  {
    if k > 0 {
      TraceKeepsKinds(deps, metas, kinds, raws, affected, order, trace, k - 1);
      assert TraceStep(deps, metas, raws, affected, order, trace, k - 1);
      if affected[order[k - 1]] {
        var t := order[k - 1];
        assert KeepsKind(metas[t], kinds[t], raws[t].value, trace[k - 1], trace[k], t);
      }
    }
  }

  /** A wave keeps numbers numbers, and text and bytes what they are. */
  lemma {:induction false} WaveKeepsKinds(deps: Edges, metas: seq<TagMeta>, kinds: seq<RawKind>, raws: seq<Snapshot>,
                                          affected: seq<bool>, w: Wave, order: seq<TagId>)
    requires WaveInputs(deps, metas, raws, affected, w, order)
    requires StableRecipes(metas, kinds) && KindsOk(metas, kinds, w) && Admitted(raws, kinds)
    ensures KindsOk(metas, kinds, WaveUpTo(deps, metas, raws, affected, w, order, |order|))
  {
    var trace := TraceOf(deps, metas, raws, affected, w, order);
    TraceKeepsKinds(deps, metas, kinds, raws, affected, order, trace, |order|);
  }

  /** Whatever order two engines use, the same snapshots give the same outcomes. */
  lemma {:induction false} OrderDoesNotMatter(deps: Edges, metas: seq<TagMeta>, raws: seq<Snapshot>, a: Wave, b: Wave,
                                              orderA: seq<TagId>, orderB: seq<TagId>, all: seq<bool>)
    requires WaveInputs(deps, metas, raws, all, a, orderA) && WaveInputs(deps, metas, raws, all, b, orderB)
    requires forall t :: 0 <= t < |deps| ==> all[t]
    ensures Outcomes(WaveUpTo(deps, metas, raws, all, a, orderA, |orderA|).computed)
         == Outcomes(WaveUpTo(deps, metas, raws, all, b, orderB, |orderB|).computed)
  {
    WaveSolves(deps, metas, raws, raws, all, a, orderA);
    WaveSolves(deps, metas, raws, raws, all, b, orderB);
    SolutionIsUnique(deps, metas, Merged(raws, raws, all),
                     Outcomes(WaveUpTo(deps, metas, raws, all, a, orderA, |orderA|).computed),
                     Outcomes(WaveUpTo(deps, metas, raws, all, b, orderB, |orderB|).computed), orderA);
  }
}
