/** The tag engine: `tags-core/src/engine.rs`. `Process` re-evaluates the closure of
    a batch and publishes through the deadband; it refines a wave. All that the
    engine, its cache and the writers do are moves of `Stream`. */
module Engine {
  import opened MbTypes
  import opened Graph
  import opened Cache
  import opened Typed
  import opened Formula
  import opened Waves
  import Stream

  /** What the change stream delivers. */
  datatype Message = Batch(tags: seq<TagId>) | Lagged

  /** A formula's `tag("name")` reads the very tag that the graph says it does. */
  lemma LookupsFollowTheGraph(store: TypedStore, entries: seq<Entry>, name: string)
    requires store.Valid() && |entries| == |store.names|
    requires forall t :: 0 <= t < |entries| ==> entries[t].name == store.names[t]
    ensures name in NameIndex(entries) <==> name in store.byName
    ensures name in NameIndex(entries) ==>
              && NameIndex(entries)[name] < |store.slots|
              && store.NumericValue(name) == OutcomeOf(store.slots[NameIndex(entries)[name]]).Number()
  {
    if name in store.byName {
      assert entries[store.byName[name]].name == name;
    }
    if name in NameIndex(entries) {
      assert store.names[NameIndex(entries)[name]] == name;
    }
  }

  class TagEngine {
    const cache: TagCache
    const store: TypedStore
    const calculated: TypedStore
    const metas: seq<TagMeta>
    const graph: DependencyGraph
    /** What the writers of this generation put into a slot; any relation. */
    const admits: (TagId, Snapshot) -> bool
    var primed: bool
    /** The next batch to receive of those that the cache has sent. */
    var position: nat
    /** For each channel task, the tags it has written but not yet announced. */
    var touched: seq<set<TagId>>
    /** The raw snapshots that the latest evaluation of each tag used. */
    ghost var consumed: seq<Snapshot>
    /** Every state of the engine, its cache and the writers since its first pass. */
    ghost var run: seq<Stream.System>

    ghost function Setting(): Stream.Config {
      Stream.Config(graph.dependencies, metas, graph.order, admits)
    }

    ghost predicate Wired()
      reads this, cache, store, calculated
    {
      && store != calculated && Setting().Valid() && Mirror(graph.dependencies, graph.dependents)
      && |cache.slots| == |store.slots| == |calculated.slots| == |metas| == |consumed|
      && position <= |cache.sent|
    }

    ghost predicate Valid()
      reads this, cache, store, calculated
    {
      Wired() && Stream.AllAdmitted(admits, cache.slots) && Stream.AllAdmitted(admits, consumed)
    }

    ghost function State(last: seq<Option<real>>, changed: seq<TagId>): Wave
      reads store, calculated
    {
      Wave(calculated.slots, store.slots, last, changed)
    }

    ghost function System(phase: Stream.Phase, w: Wave): Stream.System
      reads this, cache
    {
      Stream.System(cache.slots, touched, cache.sent, position, phase, consumed, w)
    }

    /** This state is reached by a run of the stream. */
    ghost predicate Running(phase: Stream.Phase, w: Wave)
      reads this, cache, store, calculated
    {
      && Wired() && Stream.RunOk(Setting(), run) && Stream.Last(run) == System(phase, w)
      && Stream.Sized(Setting(), System(phase, w))
    }

    /** The engine waits for its next message. */
    ghost predicate Idle(last: seq<Option<real>>)
      reads this, cache, store, calculated
    {
      |last| == |metas| && Running(Stream.Idle, State(last, []))
    }

    /** Every tag is what an evaluation from scratch of the snapshots last used
        makes of it, and what is published follows. */
    ghost predicate UpToDate(last: seq<Option<real>>)
      reads this, cache, store, calculated
    {
      && Valid()
      && Solves(graph.dependencies, metas, consumed, Outcomes(calculated.slots))
      && PublishedOk(metas, State(last, [])) && MemoryOk(State(last, []))
    }

    lemma IdleIsUpToDate(last: seq<Option<real>>)
      requires Idle(last)
      ensures UpToDate(last)
    {
      Stream.EveryRun(Setting(), run, |run| - 1);
    }

    /** Of a slot that the engine does not hold, a batch is waiting or a writer is
        about to announce it. */
    lemma IdleMissesNothing(last: seq<Option<real>>, t: TagId)
      requires Idle(last) && t < |metas| && consumed[t] != cache.slots[t]
      ensures || (exists i :: position <= i < |cache.sent| && t in cache.sent[i])
              || (exists w :: 0 <= w < |touched| && t in touched[w])
    {
      Stream.EveryRun(Setting(), run, |run| - 1);
      assert Stream.Accounted(Stream.Last(run), t);
    }

    /** With every batch received and no writer at work, the calculated store is an
        evaluation from scratch of the raw cache. */
    lemma DrainedIsCurrent(last: seq<Option<real>>)
      requires Idle(last) && position == |cache.sent| && forall w :: 0 <= w < |touched| ==> touched[w] == {}
      ensures Solves(graph.dependencies, metas, cache.slots, Outcomes(calculated.slots))
      ensures PublishedOk(metas, State(last, []))
    {
      Stream.DrainedAgrees(Setting(), run, |run| - 1);
    }

    /** A fresh engine over an empty calculated store; it has subscribed. */
    constructor (cache: TagCache, store: TypedStore, calculated: TypedStore, metas: seq<TagMeta>,
                 graph: DependencyGraph, admits: (TagId, Snapshot) -> bool)
      requires store != calculated
      requires forall t :: 0 <= t < |cache.slots| ==> admits(t, cache.slots[t])
      requires |cache.slots| == |store.slots| == |calculated.slots| == |metas| == |graph.dependencies|
      requires WellFormed(graph.dependencies) && Mirror(graph.dependencies, graph.dependents)
      requires EvaluationOrder(graph.dependencies, graph.order) && InRange(graph.order, |metas|)
      ensures Valid() && !primed && consumed == cache.slots && position == |cache.sent|
      ensures this.cache == cache && this.store == store && this.calculated == calculated
      ensures this.metas == metas && this.graph == graph && this.admits == admits
    {
      this.cache, this.store, this.calculated := cache, store, calculated;
      this.metas, this.graph, this.admits, this.primed := metas, graph, admits, false;
      this.position, this.touched := |cache.sent|, [];
      this.consumed, this.run := cache.slots, [];
    }

    // ----- The stream -----

    /** The stream makes its next move. */
    ghost method Advance(m: Stream.Move, phase: Stream.Phase, w: Wave)
      requires Wired() && Stream.RunOk(Setting(), run) && Stream.Enabled(Setting(), Stream.Last(run), m)
      requires Stream.Apply(Setting(), Stream.Last(run), m) == System(phase, w)
      modifies this`run
      ensures Running(phase, w)
    {
      Stream.RunExtends(Setting(), run, m);
      run := run + [System(phase, w)];
      Stream.EveryRun(Setting(), run, |run| - 1);
    }

    /** The first pass begins. The cache, the ring and the writers may be in any
        state. */
    method Start(ghost refresh: bool)
      requires Valid()
      modifies this`touched, this`run
      ensures Running(Stream.Reading(Stream.Everything(|metas|), Stream.NothingRead(|metas|), refresh),
                      State(StoreNumbers(store.slots), []))
    {
      touched := *;
      var all := Stream.Reading(Stream.Everything(|metas|), Stream.NothingRead(|metas|), refresh);
      run := [System(all, State(StoreNumbers(store.slots), []))];
    }

    /** Channel tasks write and announce at any time. */
    method WritersRun(ghost phase: Stream.Phase, ghost w: Wave)
      requires Running(phase, w)
      modifies cache, this`touched, this`run
      ensures Running(phase, w) && old(cache.sent) <= cache.sent
    {
      var steps: nat :| true;
      for i := 0 to steps
        invariant Running(phase, w) && old(cache.sent) <= cache.sent
      {
        var writer: nat :| true;
        if writer < |touched| {
          WriterStep(writer, phase, w);
        }
      }
    }

    /** One channel task writes a slot, or announces what it has written. */
    method WriterStep(writer: nat, ghost phase: Stream.Phase, ghost w: Wave)
      requires Running(phase, w) && writer < |touched|
      modifies cache, this`touched, this`run
      ensures Running(phase, w) && old(cache.sent) <= cache.sent
    {
      var write: Option<(TagId, Snapshot)> := *;
      var tags: seq<TagId> := *;
      if write.Some? {
        var (tag, snapshot) := write.value;
        if tag < |cache.slots| && admits(tag, snapshot) {
          cache.slots := cache.slots[tag := snapshot];
          touched := touched[writer := touched[writer] + {tag}];
          Advance(Stream.Write(writer, tag, snapshot), phase, w);
        }
      } else if forall t :: t in touched[writer] ==> t in tags {
        cache.SendBatch(tags);
        touched := touched[writer := {}];
        Advance(Stream.Announce(writer, tags), phase, w);
      }
    }

    // ----- One tag -----

    /** A tag that is not Good: the values stay, the published quality changes once. */
    method Degrade(t: TagId, q: Quality, last: seq<Option<real>>, changed: seq<TagId>) returns (changed': seq<TagId>)
      requires Wired() && t < |metas| && |last| == |metas|
      modifies store`slots, calculated`slots
      ensures Wired()
      ensures State(last, changed') == Settle(metas[t], old(State(last, changed)), t, Degraded(q))
    {
      calculated.SetQuality(t, q);
      changed' := changed;
      if store.slots[t].quality != q {
        store.SetQuality(t, q);
        changed' := changed + [t];
      }
    }

    /** A usable value: calculated at once, published through the deadband. */
    method PublishThroughDeadband(t: TagId, v: TypedValue, last: seq<Option<real>>, changed: seq<TagId>)
      returns (last': seq<Option<real>>, changed': seq<TagId>)
      requires Wired() && t < |metas| && |last| == |metas|
      modifies store`slots, calculated`slots
      ensures Wired() && |last'| == |last|
      ensures State(last', changed') == Settle(metas[t], old(State(last, changed)), t, Usable(v))
    {
      calculated.PublishValue(t, v);
      last', changed' := last, changed;
      if Suppressed(metas[t], store.slots[t], last[t], v) {
        return;
      }
      if v.Number().Some? {
        last' := last[t := v.Number()];
      }
      store.PublishValue(t, v);
      changed' := changed + [t];
    }

    /** The worst quality among the raw snapshot, if it is used, and the tags read. */
    method CombineQualities(t: TagId, raw: Snapshot) returns (q: Quality)
      requires Wired() && t < |metas|
      ensures q == InputQuality(metas[t], raw, Pick(Outcomes(calculated.slots), graph.dependencies[t]))
    {
      var tags := graph.dependencies[t];
      ghost var inputs := Pick(Outcomes(calculated.slots), tags);
      var start := if metas[t].transform.UsesRaw() then raw.quality else Good;
      q := start;
      for i := 0 to |tags|
        invariant q == Worst(start, inputs[..i])
      {
        assert tags[i] in tags && inputs[..i + 1][..i] == inputs[..i];
        q := Worse(q, calculated.slots[tags[i]].quality);
      }
      assert inputs[..|inputs|] == inputs;
    }

    /** What `tag()` reads of the calculated store. */
    method ReadNumbers(t: TagId) returns (numbers: seq<Option<real>>)
      requires Wired() && t < |metas|
      ensures numbers == Numbers(Pick(Outcomes(calculated.slots), graph.dependencies[t]))
    {
      var tags := graph.dependencies[t];
      numbers := [];
      for i := 0 to |tags|
        invariant |numbers| == i
        invariant forall j :: 0 <= j < i ==> numbers[j] == Pick(Outcomes(calculated.slots), tags)[j].Number()
      {
        assert tags[i] in tags;
        var s := calculated.slots[tags[i]];
        numbers := numbers + [if s.quality == Good then s.value.Number() else None];
      }
    }

    method EvaluateTag(t: TagId, raw: Snapshot, ghost raws: seq<Snapshot>, last: seq<Option<real>>, changed: seq<TagId>)
      returns (last': seq<Option<real>>, changed': seq<TagId>)
      requires Wired() && t < |metas| && |last| == |metas| && |raws| == |metas| && raws[t] == raw
      modifies store`slots, calculated`slots
      ensures Wired() && |last'| == |last|
      ensures State(last', changed') == AfterTag(graph.dependencies, metas, raws, old(State(last, changed)), t)
    {
      last' := last;
      var q := CombineQualities(t, raw);
      if q != Good {
        changed' := Degrade(t, q, last, changed);
        return;
      }
      var numbers := ReadNumbers(t);
      match Value(metas[t], raw.value, numbers) {
        case Degraded(_) => changed' := Degrade(t, Bad, last, changed);
        case Usable(v) => last', changed' := PublishThroughDeadband(t, v, last, changed);
      }
    }

    // ----- One wave -----

    /** The raw inputs of the wave are read once, one after the other, before it
        starts; channel tasks write the cache meanwhile. */
    method FreezeInputs(affected: seq<bool>, ghost refresh: bool, ghost w: Wave)
      returns (inputs: seq<Option<Snapshot>>)
      requires |affected| == |metas|
      requires Running(Stream.Reading(affected, Stream.NothingRead(|metas|), refresh), w)
      modifies cache, this`touched, this`run
      ensures |inputs| == |metas| && forall t :: 0 <= t < |metas| ==> (inputs[t].Some? <==> affected[t])
      ensures Running(Stream.Reading(affected, inputs, refresh), w) && old(cache.sent) <= cache.sent
    {
      inputs := [];
      assert inputs + Stream.NothingRead(|metas|) == Stream.NothingRead(|metas|);
      for t := 0 to |metas|
        invariant |inputs| == t && forall u :: 0 <= u < t ==> (inputs[u].Some? <==> affected[u])
        invariant Running(Stream.Reading(affected, inputs + Stream.NothingRead(|metas| - t), refresh), w)
        invariant old(cache.sent) <= cache.sent
      {
        WritersRun(Stream.Reading(affected, inputs + Stream.NothingRead(|metas| - t), refresh), w);
        inputs := ReadInput(affected, inputs, refresh, w);
      }
      assert inputs + Stream.NothingRead(0) == inputs;
    }

    method ReadInput(affected: seq<bool>, inputs: seq<Option<Snapshot>>, ghost refresh: bool, ghost w: Wave)
      returns (inputs': seq<Option<Snapshot>>)
      requires |inputs| < |affected| == |metas|
      requires Running(Stream.Reading(affected, inputs + Stream.NothingRead(|metas| - |inputs|), refresh), w)
      modifies this`run
      ensures |inputs'| == |inputs| + 1 && inputs'[..|inputs|] == inputs
      ensures inputs'[|inputs|].Some? <==> affected[|inputs|]
      ensures Running(Stream.Reading(affected, inputs' + Stream.NothingRead(|metas| - |inputs'|), refresh), w)
    {
      var t := |inputs|;
      ghost var unread := Stream.NothingRead(|metas| - t);
      if affected[t] {
        inputs' := inputs + [Some(cache.slots[t])];
        ghost var next := inputs' + Stream.NothingRead(|metas| - t - 1);
        assert next == (inputs + unread)[t := Some(cache.slots[t])];
        Advance(Stream.ReadInput(t), Stream.Reading(affected, next, refresh), w);
      } else {
        inputs' := inputs + [None];
        assert inputs' + Stream.NothingRead(|metas| - t - 1) == inputs + unread;
      }
    }

    /** The batch names exactly the tags whose published slot has changed, each once,
        and every slot shows its old value or the calculated one. */
    ghost predicate Publishes(before: seq<TypedSnapshot>, changed: seq<TagId>)
      reads this, store, calculated
    {
      && |before| == |store.slots| == |calculated.slots| == |metas|
      && Distinct(changed)
      && (forall t: nat :: t in changed <==> t < |metas| && store.slots[t] != before[t])
      && (forall t :: 0 <= t < |metas| ==> ShowsOldOrNew(before[t], calculated.slots[t], store.slots[t]))
    }

    /** The stores are those of the wave after the first `k` tags of the order. */
    ghost predicate Evaluated(affected: seq<bool>, reading: Stream.Phase, raws: seq<Snapshot>, start: Wave, k: nat,
                              last: seq<Option<real>>, changed: seq<TagId>)
      requires k <= |graph.order|
      reads this, cache, store, calculated
    {
      && Running(reading, start) && start.Sized(|metas|) && |last| == |affected| == |raws| == |metas|
      && State(last, changed) == WaveUpTo(graph.dependencies, metas, raws, affected, start, graph.order, k)
    }

    /** The affected tags in evaluation order; channel tasks still write. */
    method EvaluateAll(affected: seq<bool>, inputs: seq<Option<Snapshot>>, ghost reading: Stream.Phase,
                       last: seq<Option<real>>)
      returns (last': seq<Option<real>>, written: seq<TagId>)
      requires |last| == |metas| == |inputs| == |affected|
      requires reading.Reading? && reading.affected == affected && reading.inputs == inputs
      requires forall t :: 0 <= t < |metas| ==> (inputs[t].Some? <==> affected[t])
      requires Running(reading, State(last, []))
      modifies cache, store`slots, calculated`slots, this`touched, this`run
      ensures |last'| == |metas| && old(cache.sent) <= cache.sent
      ensures Running(reading, old(State(last, [])))
      ensures State(last', written)
           == WaveUpTo(graph.dependencies, metas, Stream.Inputs(affected, inputs, consumed), affected,
                       old(State(last, [])), graph.order, |graph.order|)
    {
      ghost var start, raws := State(last, []), Stream.Inputs(affected, inputs, consumed);
      last', written := last, [];
      for k := 0 to |graph.order|
        invariant old(cache.sent) <= cache.sent && Evaluated(affected, reading, raws, start, k, last', written)
      {
        last', written := EvaluateNext(affected, inputs, reading, raws, start, k, last', written);
      }
    }

    /** One more tag of the order, if it is affected. */
    method EvaluateNext(affected: seq<bool>, inputs: seq<Option<Snapshot>>, ghost reading: Stream.Phase,
                        ghost raws: seq<Snapshot>, ghost start: Wave, k: nat, last: seq<Option<real>>,
                        changed: seq<TagId>)
      returns (last': seq<Option<real>>, changed': seq<TagId>)
      requires k < |graph.order| && Evaluated(affected, reading, raws, start, k, last, changed)
      requires |inputs| == |affected| && forall t :: 0 <= t < |affected| && affected[t] ==> inputs[t] == Some(raws[t])
      modifies cache, store`slots, calculated`slots, this`touched, this`run
      ensures Evaluated(affected, reading, raws, start, k + 1, last', changed') && old(cache.sent) <= cache.sent
    {
      WritersRun(reading, start);
      WaveOneMore(graph.dependencies, metas, raws, affected, start, graph.order, k);
      var t := graph.order[k];
      if affected[t] {
        last', changed' := EvaluateTag(t, inputs[t].value, raws, last, changed);
      } else {
        last', changed' := last, changed;
      }
    }

    /** `process`: one wave over all that depends on `tags`, from the snapshots it
        reads first, and one batch for the tags it published. */
    method Process(tags: seq<TagId>, last: seq<Option<real>>, ghost refresh: bool)
      returns (last': seq<Option<real>>, ghost changed: seq<TagId>)
      requires |last| == |metas|
      requires Running(Stream.Reading(AffectedBy(graph.dependencies, tags), Stream.NothingRead(|metas|), refresh),
                       State(last, []))
      modifies cache, store, calculated`slots, this`consumed, this`touched, this`run
      ensures Idle(if refresh then StoreNumbers(store.slots) else last') && old(cache.sent) <= cache.sent
      ensures Publishes(old(store.slots), changed)
      ensures store.sent == if changed == [] then old(store.sent) else old(store.sent) + [changed]
    {
      var affected := Affected(graph.dependencies, graph.dependents, tags);
      assert affected == AffectedBy(graph.dependencies, tags);
      ghost var start := State(last, []);
      var inputs := FreezeInputs(affected, refresh, start);
      ghost var reading := Stream.Reading(affected, inputs, refresh);
      var written;
      last', written := EvaluateAll(affected, inputs, reading, last);
      store.SendBatch(written);
      Conclude(reading, start, last', written);
      changed := written;
    }

    /** The wave is over: the snapshots read for it are consumed. */
    ghost method Conclude(reading: Stream.Phase, start: Wave, last': seq<Option<real>>, changed: seq<TagId>)
      requires reading.Reading? && Running(reading, start) && |last'| == |metas| && start.Sized(|metas|)
      requires |reading.affected| == |reading.inputs| == |metas| && Stream.ReadyToFinish(reading)
      requires State(last', changed) ==
                 WaveUpTo(graph.dependencies, metas, Stream.Inputs(reading.affected, reading.inputs, consumed),
                          reading.affected, start, graph.order, |graph.order|)
      modifies this`consumed, this`run
      ensures Idle(if reading.refresh then StoreNumbers(store.slots) else last')
      ensures Publishes(start.store, changed)
    {
      FinishedWave(reading, start);
      consumed := Stream.Held(System(reading, start));
      Advance(Stream.Finish, Stream.Idle, State(if reading.refresh then StoreNumbers(store.slots) else last', []));
    }

    lemma FinishedWave(reading: Stream.Phase, start: Wave)
      requires reading.Reading? && Running(reading, start) && start.Sized(|metas|)
      requires |reading.affected| == |reading.inputs| == |metas| && Stream.ReadyToFinish(reading)
      ensures var w := WaveUpTo(graph.dependencies, metas, Stream.Inputs(reading.affected, reading.inputs, consumed),
                                reading.affected, start, graph.order, |graph.order|);
              && (forall t :: 0 <= t < |metas| ==> ShowsOldOrNew(start.store[t], w.computed[t], w.store[t]))
              && Distinct(w.changed)
              && (forall t: nat :: t in w.changed <==> t < |metas| && w.store[t] != start.store[t])
    {
      Stream.EveryRun(Setting(), run, |run| - 1);
      Stream.FinishPublishes(Setting(), System(reading, start));
    }

    // ----- The pump -----

    /** `published_numbers`: the deadband memory of a fresh pump. */
    method PublishedNumbers() returns (last: seq<Option<real>>)
      requires Wired()
      ensures last == StoreNumbers(store.slots)
    {
      last := [];
      for t := 0 to |metas|
        invariant |last| == t && forall u :: 0 <= u < t ==> last[u] == store.slots[u].value.Number()
      {
        last := last + [store.slots[t].value.Number()];
      }
    }

    method AllTags() returns (all: seq<TagId>)
      requires Wired()
      ensures AffectedBy(graph.dependencies, all) == Stream.Everything(|metas|)
    {
      all := [];
      for t := 0 to |cache.slots|
        invariant forall u: nat :: u < t ==> u in all
      {
        all := all + [t];
      }
      AllAffected(graph.dependencies, all);
    }

    /** `refresh`: a full wave in evaluation order, before a generation goes live;
        its channel tasks already run. */
    method Refresh()
      requires Valid()
      modifies this, cache, store, calculated`slots
      ensures primed && Idle(StoreNumbers(store.slots)) && old(cache.sent) <= cache.sent
      ensures forall t :: 0 <= t < |metas| ==> ShowsOldOrNew(old(store.slots)[t], calculated.slots[t], store.slots[t])
    {
      Start(true);
      var last := PublishedNumbers();
      AllAffected(graph.dependencies, graph.order);
      assert AffectedBy(graph.dependencies, graph.order) == Stream.Everything(|metas|);
      ghost var changed;
      last, changed := Process(graph.order, last, true);
      primed := true;
    }

    /** `recv` on the broadcast channel: the next batch, or word that it has been
        overwritten, which moves the receiver to the oldest one that the ring keeps. */
    method Recv() returns (msg: Message)
      requires position < |cache.sent|
      modifies this`position
      ensures position == if |cache.sent| - old(position) > 256 then |cache.sent| - 256 else old(position) + 1
      ensures msg == if |cache.sent| - old(position) > 256 then Lagged else Batch(cache.sent[old(position)])
    {
      var oldest := Stream.Oldest(cache.sent);
      if position < oldest {
        position := oldest;
        return Lagged;
      }
      position := position + 1;
      return Batch(cache.sent[position - 1]);
    }

    /** One message of the pump: a wave over a batch, or over every tag after a lag.
        The batch it sends names exactly the tags it published, each once. */
    method Receive(last: seq<Option<real>>) returns (last': seq<Option<real>>)
      requires Idle(last) && position < |cache.sent|
      modifies cache, store, calculated`slots, this`position, this`consumed, this`touched, this`run
      ensures Idle(last') && old(position) < position && old(cache.sent) <= cache.sent
      ensures var waiting := |old(cache.sent)| - old(position);
              position == if waiting > 256 then |old(cache.sent)| - 256 else old(position) + 1
      ensures store.slots == old(store.slots) ==> store.sent == old(store.sent)
      ensures store.slots != old(store.slots) ==>
                && |store.sent| == |old(store.sent)| + 1 && store.sent[..|store.sent| - 1] == old(store.sent)
                && Publishes(old(store.slots), store.sent[|store.sent| - 1])
    {
      ghost var changed;
      var msg := Recv();
      match msg {
        case Batch(tags) =>
          ghost var affected := AffectedBy(graph.dependencies, tags);
          Advance(Stream.Receive, Stream.Reading(affected, Stream.NothingRead(|metas|), false), State(last, []));
          last', changed := Process(tags, last, false);
        case Lagged =>
          Advance(Stream.Lag, Stream.Reading(Stream.Everything(|metas|), Stream.NothingRead(|metas|), false),
                  State(last, []));
          var all := AllTags();
          last', changed := Process(all, last, false);
      }
      assert changed != [] ==> changed[0] in changed;
    }

    /** `run`: a first full wave, which a primed engine has had, and then message after
        message, until none is waiting or `rounds` have been received. */
    method Run(rounds: nat) returns (last: seq<Option<real>>)
      requires if primed then Idle(StoreNumbers(store.slots)) else Valid()
      modifies cache, store, calculated`slots, this`position, this`consumed, this`touched, this`run
      ensures Idle(last) && (position >= old(position) + rounds || position == |cache.sent|)
    {
      last := PublishedNumbers();
      if !primed {
        Start(false);
        var all := AllTags();
        ghost var changed;
        last, changed := Process(all, last, false);
      }
      for i := 0 to rounds
        invariant Idle(last) && position >= old(position) + i
      {
        WritersRun(Stream.Idle, State(last, []));
        if position == |cache.sent| {
          return;
        }
        last := Receive(last);
      }
    }
  }
}
