/** The engine against concurrent writers and a lossy change stream: channel tasks
    overwrite cache slots and then announce them, the broadcast ring keeps only the
    newest batches, and the engine resyncs when it has fallen behind
    (`tags-core/src/engine.rs`, `mb-poller/src/cache.rs`). */
module Stream {
  import opened MbTypes
  import opened Graph
  import opened Typed
  import opened Formula
  import opened Waves

  /** Batches that the broadcast ring keeps for a receiver. */
  const CHANGE_CAPACITY: nat := 256

  /** `admits` tells what the writers put into a slot; it may be any relation. */
  datatype Config = Config(deps: Edges, metas: seq<TagMeta>, order: seq<TagId>, admits: (TagId, Snapshot) -> bool) {
    ghost predicate Valid() {
      WellFormed(deps) && |metas| == |deps| && EvaluationOrder(deps, order) && InRange(order, |deps|)
    }
  }

  predicate AllAdmitted(admits: (TagId, Snapshot) -> bool, raws: seq<Snapshot>) {
    forall t :: 0 <= t < |raws| ==> admits(t, raws[t])
  }

  /** The engine waits for a batch, or is reading the raw inputs of a wave. A
      refresh prepares an engine; its pump starts with fresh deadband memory. */
  datatype Phase = Idle | Reading(affected: seq<bool>, inputs: seq<Option<Snapshot>>, refresh: bool)

  /** `touched` holds, for each writer, the tags it has written but not announced;
      `log` every batch ever sent; `position` the next one to receive. */
  datatype System = System(
    cache: seq<Snapshot>, touched: seq<set<TagId>>, log: seq<seq<TagId>>, position: nat,
    phase: Phase, consumed: seq<Snapshot>, wave: Wave)

  datatype Move =
    | Write(writer: nat, tag: TagId, snapshot: Snapshot)
    | Announce(sender: nat, tags: seq<TagId>)
    | Receive
    | Lag
    | ReadInput(input: TagId)
    | Finish

  /** The oldest batch still in the ring. */
  function Oldest(log: seq<seq<TagId>>): nat {
    SatSub(|log|, CHANGE_CAPACITY)
  }

  ghost predicate Sized(cfg: Config, s: System) {
    && |s.cache| == |s.consumed| == |cfg.deps| && s.wave.Sized(|cfg.deps|) && s.wave.changed == []
    && s.position <= |s.log|
    && (s.phase.Reading? ==> |s.phase.affected| == |s.phase.inputs| == |cfg.deps|)
  }

  predicate ReadyToFinish(p: Phase)
    requires p.Reading? && |p.affected| == |p.inputs|
  {
    forall t :: 0 <= t < |p.affected| && p.affected[t] ==> p.inputs[t].Some?
  }

  ghost predicate Enabled(cfg: Config, s: System, m: Move) {
    && Sized(cfg, s)
    && match m
       case Write(writer, tag, snapshot) =>
         writer < |s.touched| && tag < |s.cache| && cfg.admits(tag, snapshot)
       case Announce(sender, tags) => sender < |s.touched| && forall t :: t in s.touched[sender] ==> t in tags
       case Receive => s.phase.Idle? && Oldest(s.log) <= s.position < |s.log|
       case Lag => s.phase.Idle? && s.position < Oldest(s.log)
       case ReadInput(t) => s.phase.Reading? && t < |s.cache| && s.phase.affected[t] && s.phase.inputs[t].None?
       case Finish => s.phase.Reading? && ReadyToFinish(s.phase)
  }

  function NothingRead(n: nat): (inputs: seq<Option<Snapshot>>)
    ensures |inputs| == n && forall t :: 0 <= t < n ==> inputs[t] == None
  {
    seq(n, _ => None)
  }

  function Everything(n: nat): (all: seq<bool>)
    ensures |all| == n && forall t :: 0 <= t < n ==> all[t]
  {
    seq(n, _ => true)
  }

  /** What a wave uses: the snapshots it has read, and elsewhere those last used. */
  function Inputs(affected: seq<bool>, inputs: seq<Option<Snapshot>>, consumed: seq<Snapshot>): (raws: seq<Snapshot>)
    requires |affected| == |inputs| == |consumed|
    ensures |raws| == |consumed|
    ensures forall t :: 0 <= t < |raws| && affected[t] && inputs[t].Some? ==> raws[t] == inputs[t].value
  {
    seq(|consumed|, t requires 0 <= t < |consumed| =>
          if affected[t] && inputs[t].Some? then inputs[t].value else consumed[t])
  }

  /** What the engine holds of each tag: this wave's input, else the last one. */
  function Held(s: System): (held: seq<Snapshot>)
    requires s.phase.Reading? ==> |s.phase.affected| == |s.phase.inputs| == |s.consumed|
    ensures |held| == |s.consumed|
  {
    if s.phase.Idle? then s.consumed
    else Inputs(s.phase.affected, s.phase.inputs, s.consumed)
  }

  ghost function Apply(cfg: Config, s: System, m: Move): System
    requires cfg.Valid() && Enabled(cfg, s, m)
  {
    match m
    case Write(writer, tag, snapshot) =>
      s.(cache := s.cache[tag := snapshot], touched := s.touched[writer := s.touched[writer] + {tag}])
    case Announce(sender, tags) =>
      s.(log := s.log + [tags], touched := s.touched[sender := {}])
    case Receive =>
      s.(phase := Reading(AffectedBy(cfg.deps, s.log[s.position]), NothingRead(|cfg.deps|), false),
         position := s.position + 1)
    case Lag =>
      s.(phase := Reading(Everything(|cfg.deps|), NothingRead(|cfg.deps|), false), position := Oldest(s.log))
    case ReadInput(t) =>
      s.(phase := s.phase.(inputs := s.phase.inputs[t := Some(s.cache[t])]))
    case Finish =>
      var w := WaveUpTo(cfg.deps, cfg.metas, Held(s), s.phase.affected, s.wave, cfg.order, |cfg.order|);
      var last := if s.phase.refresh then StoreNumbers(w.store) else w.last;
      s.(phase := Idle, consumed := Held(s), wave := w.(last := last, changed := []))
  }

  // ----- What every reachable state keeps -----

  ghost predicate Pending(s: System, t: TagId) {
    exists i :: s.position <= i < |s.log| && t in s.log[i]
  }

  ghost predicate Unannounced(s: System, t: TagId) {
    exists w :: 0 <= w < |s.touched| && t in s.touched[w]
  }

  ghost predicate Unread(s: System, t: TagId)
    requires s.phase.Reading? ==> |s.phase.affected| == |s.phase.inputs| == |s.consumed|
  {
    s.phase.Reading? && t < |s.consumed| && s.phase.affected[t] && s.phase.inputs[t].None?
  }

  /** The engine holds the tag's latest snapshot, or will be made to read it. */
  ghost predicate Accounted(s: System, t: TagId)
    requires |s.cache| == |s.consumed| && t < |s.cache|
    requires s.phase.Reading? ==> |s.phase.affected| == |s.phase.inputs| == |s.consumed|
  {
    Held(s)[t] == s.cache[t] || Unread(s, t) || Pending(s, t) || Unannounced(s, t)
  }

  ghost predicate UpToDate(cfg: Config, s: System) {
    && Solves(cfg.deps, cfg.metas, s.consumed, Outcomes(s.wave.computed))
    && PublishedOk(cfg.metas, s.wave)
  }

  ghost predicate EngineOk(cfg: Config, s: System)
    requires Sized(cfg, s)
  {
    && MemoryOk(s.wave)
    && AllAdmitted(cfg.admits, s.cache) && AllAdmitted(cfg.admits, Held(s))
    && match s.phase
       case Idle => UpToDate(cfg, s)
       case Reading(affected, _, refresh) =>
         && Closed(cfg.deps, affected)
         && ((UpToDate(cfg, s) && !refresh) || forall t :: 0 <= t < |affected| ==> affected[t])
         && (refresh ==> s.wave.last == StoreNumbers(s.wave.store))
  }

  ghost predicate Inv(cfg: Config, s: System) {
    && Sized(cfg, s) && EngineOk(cfg, s)
    && forall t: nat :: t < |s.cache| ==> Accounted(s, t)
  }

  /** The engine has subscribed some time ago and starts its first pass over all
      tags: of its own, or as the refresh that primes a new generation. The cache,
      the writers and the ring may be in any state. */
  ghost predicate Started(cfg: Config, s: System) {
    && Sized(cfg, s) && s.wave.last == StoreNumbers(s.wave.store)
    && AllAdmitted(cfg.admits, s.cache) && AllAdmitted(cfg.admits, s.consumed)
    && s.phase == Reading(Everything(|cfg.deps|), NothingRead(|cfg.deps|), s.phase.Reading? && s.phase.refresh)
  }

  lemma StartedInv(cfg: Config, s: System)
    requires cfg.Valid() && Started(cfg, s)
    ensures Inv(cfg, s)
  {
    forall t: nat | t < |s.cache|
      ensures Accounted(s, t)
    {
      assert Unread(s, t);
    }
  }

  lemma {:induction false} WriteKeeps(cfg: Config, s: System, writer: nat, tag: TagId, snapshot: Snapshot)
    requires cfg.Valid() && Inv(cfg, s) && Enabled(cfg, s, Write(writer, tag, snapshot))
    ensures Inv(cfg, Apply(cfg, s, Write(writer, tag, snapshot)))
  {
    var s' := Apply(cfg, s, Write(writer, tag, snapshot));
    assert tag in s'.touched[writer];
    forall t: nat | t < |s.cache|
      ensures Accounted(s', t)
    {
      assert Accounted(s, t);
      if t == tag {
        assert Unannounced(s', t);
      } else if Unannounced(s, t) {
        var w :| 0 <= w < |s.touched| && t in s.touched[w];
        assert t in s'.touched[w];
      }
    }
  }

  lemma {:induction false} AnnounceKeeps(cfg: Config, s: System, sender: nat, tags: seq<TagId>)
    requires cfg.Valid() && Inv(cfg, s) && Enabled(cfg, s, Announce(sender, tags))
    ensures Inv(cfg, Apply(cfg, s, Announce(sender, tags)))
  {
    var s' := Apply(cfg, s, Announce(sender, tags));
    assert s'.log[|s.log|] == tags;
    forall t: nat | t < |s.cache|
      ensures Accounted(s', t)
    {
      assert Accounted(s, t);
      if Pending(s, t) {
        var i :| s.position <= i < |s.log| && t in s.log[i];
        assert t in s'.log[i];
      } else if Unannounced(s, t) {
        var w :| 0 <= w < |s.touched| && t in s.touched[w];
        if w == sender {
          assert Pending(s', t);
        } else {
          assert t in s'.touched[w];
        }
      }
    }
  }

  lemma {:induction false} ReceiveKeeps(cfg: Config, s: System)
    requires cfg.Valid() && Inv(cfg, s) && Enabled(cfg, s, Receive)
    ensures Inv(cfg, Apply(cfg, s, Receive))
  {
    var s' := Apply(cfg, s, Receive);
    var tags := s.log[s.position];
    AffectedIsClosed(cfg.deps, tags);
    forall t: nat | t < |s.cache|
      ensures Accounted(s', t)
    {
      assert Accounted(s, t);
      if t in tags {
        DependsOnItself(cfg.deps, t);
        assert Affects(cfg.deps, tags, t);
        assert Unread(s', t);
      } else if Pending(s, t) {
        var i :| s.position <= i < |s.log| && t in s.log[i];
        assert t in s'.log[i] && s'.position <= i;
      } else if Unannounced(s, t) {
        assert Unannounced(s', t);
      }
    }
  }

  lemma {:induction false} LagKeeps(cfg: Config, s: System)
    requires cfg.Valid() && Inv(cfg, s) && Enabled(cfg, s, Lag)
    ensures Inv(cfg, Apply(cfg, s, Lag))
  {
    var s' := Apply(cfg, s, Lag);
    forall t: nat | t < |s.cache|
      ensures Accounted(s', t)
    {
      assert Unread(s', t);
    }
  }

  lemma {:induction false} ReadInputKeeps(cfg: Config, s: System, input: TagId)
    requires cfg.Valid() && Inv(cfg, s) && Enabled(cfg, s, ReadInput(input))
    ensures Inv(cfg, Apply(cfg, s, ReadInput(input)))
  {
    var s' := Apply(cfg, s, ReadInput(input));
    assert Held(s') == Held(s)[input := s.cache[input]];
    forall t: nat | t < |s.cache|
      ensures Accounted(s', t)
    {
      assert Accounted(s, t);
      assert Pending(s, t) ==> Pending(s', t);
      assert Unannounced(s, t) ==> Unannounced(s', t);
    }
  }

  /** The wave itself: from-scratch agreement and publication. */
  lemma {:induction false} FinishedWave(cfg: Config, s: System)
    requires cfg.Valid() && Inv(cfg, s) && Enabled(cfg, s, Finish)
    ensures var s' := Apply(cfg, s, Finish); Sized(cfg, s') && EngineOk(cfg, s')
  {
    var affected := s.phase.affected;
    if UpToDate(cfg, s) {
      assert forall t :: 0 <= t < |cfg.deps| ==> Holds(cfg.deps, cfg.metas, s.consumed, Outcomes(s.wave.computed), t);
    }
    WaveSolves(cfg.deps, cfg.metas, s.consumed, Held(s), affected, s.wave, cfg.order);
    assert Merged(s.consumed, Held(s), affected) == Held(s);
    WaveKeepsPublished(cfg.deps, cfg.metas, Held(s), affected, s.wave, cfg.order);
    if s.phase.refresh {
      FreshWaveFollowsStore(cfg.deps, cfg.metas, Held(s), affected, s.wave, cfg.order);
    }
  }

  lemma {:induction false} FinishKeeps(cfg: Config, s: System)
    requires cfg.Valid() && Inv(cfg, s) && Enabled(cfg, s, Finish)
    ensures Inv(cfg, Apply(cfg, s, Finish))
  {
    FinishedWave(cfg, s);
    var s' := Apply(cfg, s, Finish);
    forall t: nat | t < |s.cache|
      ensures Accounted(s', t)
    {
      assert Accounted(s, t);
      assert Pending(s, t) ==> Pending(s', t);
      assert Unannounced(s, t) ==> Unannounced(s', t);
    }
  }

  // ----- Runs -----

  ghost predicate Step(cfg: Config, s: System, s': System)
    requires cfg.Valid()
  {
    exists m :: Enabled(cfg, s, m) && s' == Apply(cfg, s, m)
  }

  ghost predicate StepAt(cfg: Config, run: seq<System>, k: nat)
    requires cfg.Valid() && k + 1 < |run|
  {
    Step(cfg, run[k], run[k + 1])
  }

  ghost predicate RunOk(cfg: Config, run: seq<System>)
    requires cfg.Valid()
  {
    && run != [] && Started(cfg, run[0])
    && forall k: nat :: k + 1 < |run| ==> StepAt(cfg, run, k)
  }

  lemma {:induction false} EveryRun(cfg: Config, run: seq<System>, k: nat)
    requires cfg.Valid() && RunOk(cfg, run) && k < |run|
    ensures Inv(cfg, run[k])
  {
    if k == 0 {
      StartedInv(cfg, run[0]);
    } else {
      EveryRun(cfg, run, k - 1);
      var s := run[k - 1];
      assert StepAt(cfg, run, k - 1);
      var m :| Enabled(cfg, s, m) && run[k] == Apply(cfg, s, m);
      match m {
        case Write(writer, tag, snapshot) => WriteKeeps(cfg, s, writer, tag, snapshot);
        case Announce(sender, tags) => AnnounceKeeps(cfg, s, sender, tags);
        case Receive => ReceiveKeeps(cfg, s);
        case Lag => LagKeeps(cfg, s);
        case ReadInput(input) => ReadInputKeeps(cfg, s, input);
        case Finish => FinishKeeps(cfg, s);
      }
    }
  }

  function Last(run: seq<System>): System
    requires run != []
  {
    run[|run| - 1]
  }

  lemma {:induction false} RunExtends(cfg: Config, run: seq<System>, m: Move)
    requires cfg.Valid() && RunOk(cfg, run) && Enabled(cfg, Last(run), m)
    ensures RunOk(cfg, run + [Apply(cfg, Last(run), m)])
  {
    var next := run + [Apply(cfg, Last(run), m)];
    forall k: nat | k + 1 < |next|
      ensures StepAt(cfg, next, k)
    {
      assert k + 1 < |run| ==> StepAt(cfg, run, k);
      assert k + 1 == |run| ==> Step(cfg, run[|run| - 1], next[|run|]);
    }
  }

  /** What the end of a wave publishes: through the deadband, old values or calculated
      ones, and one batch of exactly the tags it changed. */
  lemma FinishPublishes(cfg: Config, s: System)
    requires cfg.Valid() && Inv(cfg, s) && Enabled(cfg, s, Finish)
    ensures var w := WaveUpTo(cfg.deps, cfg.metas, Held(s), s.phase.affected, s.wave, cfg.order, |cfg.order|);
            && (forall t :: 0 <= t < |cfg.metas| ==> ShowsOldOrNew(s.wave.store[t], w.computed[t], w.store[t]))
            && (forall t :: 0 <= t < |cfg.metas| && s.phase.affected[t] ==>
                  Gated(cfg.metas[t], s.wave.store[t], s.wave.last[t], w.computed[t], w.store[t], w.last[t]))
            && Distinct(w.changed)
            && (forall t: nat :: t in w.changed <==> t < |cfg.deps| && w.store[t] != s.wave.store[t])
  {
    WaveKeepsPublished(cfg.deps, cfg.metas, Held(s), s.phase.affected, s.wave, cfg.order);
  }

  /** No writer is mid-publish, and the engine has received every batch. */
  predicate Drained(s: System) {
    s.phase.Idle? && s.position == |s.log| && forall w :: 0 <= w < |s.touched| ==> s.touched[w] == {}
  }

  /** However many batches were lost: once drained, the calculated store is an
      evaluation from scratch of the raw cache, and what is published follows it. */
  lemma {:induction false} DrainedAgrees(cfg: Config, run: seq<System>, k: nat)
    requires cfg.Valid() && RunOk(cfg, run) && k < |run| && Drained(run[k])
    ensures var s := run[k];
            && Solves(cfg.deps, cfg.metas, s.cache, Outcomes(s.wave.computed))
            && PublishedOk(cfg.metas, s.wave)
  {
    EveryRun(cfg, run, k);
    var s := run[k];
    forall t: nat | t < |s.cache|
      ensures s.consumed[t] == s.cache[t]
    {
      assert Accounted(s, t);
    }
    assert s.consumed == s.cache;
  }

  // ----- What a tag shows -----

  /** `kinds` tells what kind of raw value each tag's read function answers with: the
      writers keep to it, and every recipe yields numbers only, or none. */
  ghost predicate Respects(cfg: Config, kinds: seq<RawKind>) {
    && StableRecipes(cfg.metas, kinds)
    && forall t: TagId, s: Snapshot :: t < |kinds| && cfg.admits(t, s) ==> kinds[t].Admits(s.value)
  }

  lemma {:induction false} RunKeepsKinds(cfg: Config, kinds: seq<RawKind>, run: seq<System>, k: nat)
    requires cfg.Valid() && RunOk(cfg, run) && k < |run|
    requires Respects(cfg, kinds) && KindsOk(cfg.metas, kinds, run[0].wave)
    ensures KindsOk(cfg.metas, kinds, run[k].wave)
  {
    if k > 0 {
      RunKeepsKinds(cfg, kinds, run, k - 1);
      NextKeepsKinds(cfg, kinds, run, k - 1);
    }
  }

  lemma NextKeepsKinds(cfg: Config, kinds: seq<RawKind>, run: seq<System>, k: nat)
    requires cfg.Valid() && RunOk(cfg, run) && k + 1 < |run|
    requires Respects(cfg, kinds) && KindsOk(cfg.metas, kinds, run[k].wave)
    ensures KindsOk(cfg.metas, kinds, run[k + 1].wave)
  {
    EveryRun(cfg, run, k);
    assert StepAt(cfg, run, k);
    StepKeepsKinds(cfg, kinds, run[k], run[k + 1]);
  }

  lemma {:induction false} StepKeepsKinds(cfg: Config, kinds: seq<RawKind>, s: System, s': System)
    requires cfg.Valid() && Inv(cfg, s) && Step(cfg, s, s')
    requires Respects(cfg, kinds) && KindsOk(cfg.metas, kinds, s.wave)
    ensures KindsOk(cfg.metas, kinds, s'.wave)
  {
    var m :| Enabled(cfg, s, m) && s' == Apply(cfg, s, m);
    if m.Finish? {
      assert Admitted(Held(s), kinds);
      WaveKeepsKinds(cfg.deps, cfg.metas, kinds, Held(s), s.phase.affected, s.wave, cfg.order);
    }
  }

  /** In every state in which the engine is idle, drained or not: what each tag
      shows has the calculated quality and, when Good, is the calculated value or a
      number within the deadband of it. */
  lemma {:induction false} IdlePublishes(cfg: Config, kinds: seq<RawKind>, run: seq<System>, k: nat, t: TagId)
    requires cfg.Valid() && RunOk(cfg, run) && k < |run| && run[k].phase.Idle? && t < |cfg.metas|
    requires Respects(cfg, kinds) && KindsOk(cfg.metas, kinds, run[0].wave)
    ensures var s := run[k];
            && |s.wave.store| == |s.wave.computed| == |cfg.metas|
            && Solves(cfg.deps, cfg.metas, s.consumed, Outcomes(s.wave.computed))
            && s.wave.store[t].quality == s.wave.computed[t].quality
            && (s.wave.computed[t].quality == Good ==>
                  Close(cfg.metas[t], s.wave.computed[t].value, s.wave.store[t].value))
  {
    EveryRun(cfg, run, k);
    RunKeepsKinds(cfg, kinds, run, k);
    var w := run[k].wave;
    assert Follows(cfg.metas[t], w.computed[t], w.store[t], w.last[t]);
    assert Remembers(w.store[t], w.last[t]);
    PublishedIsClose(cfg.metas[t], kinds[t], w.computed[t], w.store[t], w.last[t]);
  }

  /** Once drained, the same holds against an evaluation `out` of the raw cache. */
  lemma {:induction false} DrainedPublishes(cfg: Config, kinds: seq<RawKind>, run: seq<System>, k: nat,
                                            out: seq<Outcome>, t: TagId)
    requires cfg.Valid() && RunOk(cfg, run) && k < |run| && Drained(run[k])
    requires Respects(cfg, kinds) && KindsOk(cfg.metas, kinds, run[0].wave)
    requires Solves(cfg.deps, cfg.metas, run[k].cache, out) && t < |out|
    ensures var s := run[k];
            && t < |s.wave.store| == |s.wave.computed| == |cfg.metas|
            && s.wave.store[t].quality == out[t].Quality()
            && OutcomeOf(s.wave.computed[t]) == out[t]
            && (out[t].Usable? ==> Close(cfg.metas[t], out[t].value, s.wave.store[t].value))
  {
    var s := run[k];
    DrainedAgrees(cfg, run, k);
    IdlePublishes(cfg, kinds, run, k, t);
    SolutionIsUnique(cfg.deps, cfg.metas, s.cache, out, Outcomes(s.wave.computed), cfg.order);
    assert Holds(cfg.deps, cfg.metas, s.cache, out, t);
    OutcomeIsHonest(cfg.metas[t], s.cache[t], Pick(out, cfg.deps[t]));
  }

  /** The slot is Good and shows the number `y`, or one within the deadband of it. */
  predicate ShowsNumber(s: TypedSnapshot, y: real, deadband: Option<real>) {
    && s.quality == Good && s.value.Number().Some?
    && (s.value.Number().value == y
        || (deadband.Some? && -deadband.value < y - s.value.Number().value < deadband.value))
  }

  lemma DrainedNumber(cfg: Config, kinds: seq<RawKind>, run: seq<System>, k: nat, out: seq<Outcome>, t: TagId, y: real)
    requires cfg.Valid() && RunOk(cfg, run) && k < |run| && Drained(run[k])
    requires Respects(cfg, kinds) && KindsOk(cfg.metas, kinds, run[0].wave)
    requires Solves(cfg.deps, cfg.metas, run[k].cache, out) && t < |out|
    requires out[t].Usable? && out[t].value.Number() == Some(y)
    ensures t < |run[k].wave.store| && ShowsNumber(run[k].wave.store[t], y, cfg.metas[t].deadband)
  {
    DrainedPublishes(cfg, kinds, run, k, out, t);
  }

  /** Once drained, a formula tag that rests on Good inputs shows what its formula
      makes of the number in its register, as the cache holds it now, and of the
      numbers of the tags it names; and it is Bad if the formula fails. */
  lemma DrainedFormula(cfg: Config, kinds: seq<RawKind>, run: seq<System>, k: nat, out: seq<Outcome>, t: TagId, x: real)
    requires cfg.Valid() && RunOk(cfg, run) && k < |run| && Drained(run[k])
    requires Respects(cfg, kinds) && KindsOk(cfg.metas, kinds, run[0].wave)
    requires Solves(cfg.deps, cfg.metas, run[k].cache, out) && t < |out|
    requires cfg.metas[t].transform.Expr? && AllGood(cfg.deps, cfg.metas, run[k].cache, out, t)
    requires var meta, raw := cfg.metas[t], run[k].cache[t].value;
             if meta.transform.readsRaw then meta.decode(raw).Some? && meta.decode(raw).value.Number() == Some(x)
             else x == 0.0
    ensures t < |run[k].wave.store|
    ensures match cfg.metas[t].transform.eval(x, NumbersRead(out, cfg.deps[t]))
            case Some(y) => out[t] == Usable(Float(y)) && ShowsNumber(run[k].wave.store[t], y, cfg.metas[t].deadband)
            case None => run[k].wave.store[t].quality == Bad
  {
    FormulaIsEvaluated(cfg.deps, cfg.metas, run[k].cache, out, t, x);
    DrainedPublishes(cfg, kinds, run, k, out, t);
    if out[t].Usable? {
      DrainedNumber(cfg, kinds, run, k, out, t, out[t].value.x);
    }
  }

  /** Once drained, a linear tag with a Good register shows its number, scaled and
      shifted. */
  lemma DrainedLinear(cfg: Config, kinds: seq<RawKind>, run: seq<System>, k: nat, out: seq<Outcome>, t: TagId,
                      v: TypedValue)
    requires cfg.Valid() && RunOk(cfg, run) && k < |run| && Drained(run[k])
    requires Respects(cfg, kinds) && KindsOk(cfg.metas, kinds, run[0].wave)
    requires Solves(cfg.deps, cfg.metas, run[k].cache, out) && t < |out|
    requires cfg.metas[t].transform.Linear? && AllGood(cfg.deps, cfg.metas, run[k].cache, out, t)
    requires cfg.metas[t].decode(run[k].cache[t].value) == Some(v) && v.Number().Some?
    ensures t < |run[k].wave.store|
    ensures ShowsNumber(run[k].wave.store[t],
                        v.Number().value * cfg.metas[t].transform.scale + cfg.metas[t].transform.offset,
                        cfg.metas[t].deadband)
  {
    LinearNumber(cfg.deps, cfg.metas, run[k].cache, out, t, v);
    DrainedNumber(cfg, kinds, run, k, out, t, out[t].value.Number().value);
  }
}
