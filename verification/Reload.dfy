/** Hot reload: `RunningStack::reload` and `register_signatures` of
    `svc-host/src/stack.rs`. Values move to the new generation by name and recipe,
    never by index. */
module Reload {
  import opened MbTypes
  import opened Cache
  import opened Graph
  import opened Typed
  import opened Formula
  import opened Waves
  import opened Engine
  import Stream
  import Decode
  import Resolve

  // ----- Configurations -----

  /** The acquisition recipe: all that decides how a raw sample is taken. */
  datatype Source = Source(
    transport: string, channelEnabled: bool, deviceEnabled: bool, unit: Byte, code: Resolve.FunctionCode, address: Word,
    dataType: Decode.DataType, wordOrder: Decode.Endian, byteOrder: Decode.Endian, length: Option<Word>,
    bit: Option<Byte>,
    request: seq<Byte>, responseLen: Option<Word>, channel: string)

  datatype TransformText = TransformText(formula: Option<string>, scale: real, offset: real, dataType: Decode.DataType)

  type Recipe = (Source, TransformText)

  /** One register; its tag id is its position. */
  datatype Register = Register(name: string, source: Source, transform: TransformText, deps: Deps)

  /** `startup` stands for the settings that need a restart, `plans` for the
      compiled poll plans as they print. */
  datatype Config = Config(registers: seq<Register>, startup: string, plans: string, writePlansOk: bool)

  predicate DistinctNames(cfg: Config) {
    forall i, j :: 0 <= i < j < |cfg.registers| ==> cfg.registers[i].name != cfg.registers[j].name
  }

  function Names(cfg: Config): (names: seq<string>)
    ensures |names| == |cfg.registers| && forall t :: 0 <= t < |names| ==> names[t] == cfg.registers[t].name
  {
    seq(|cfg.registers|, t requires 0 <= t < |cfg.registers| => cfg.registers[t].name)
  }

  function RecipeOf(r: Register): Recipe {
    (r.source, r.transform)
  }

  function EntriesOf(cfg: Config): (entries: seq<Graph.Entry>)
    ensures |entries| == |cfg.registers|
  {
    seq(|cfg.registers|, t requires 0 <= t < |cfg.registers| =>
          Graph.Entry(cfg.registers[t].name, cfg.registers[t].deps))
  }

  /** `by_name`: the tag of a name. */
  function IdsUpTo(cfg: Config, n: nat): (ids: map<string, TagId>)
    requires n <= |cfg.registers|
    ensures forall name :: name in ids ==> ids[name] < n && cfg.registers[ids[name]].name == name
    ensures forall t {:trigger cfg.registers[t].name in ids} :: 0 <= t < n ==> cfg.registers[t].name in ids
  {
    if n == 0 then map[] else IdsUpTo(cfg, n - 1)[cfg.registers[n - 1].name := n - 1]
  }

  function Ids(cfg: Config): map<string, TagId> {
    IdsUpTo(cfg, |cfg.registers|)
  }

  lemma IdIsPosition(cfg: Config, t: TagId)
    requires DistinctNames(cfg) && t < |cfg.registers|
    ensures cfg.registers[t].name in Ids(cfg) && Ids(cfg)[cfg.registers[t].name] == t
  {
    var u := Ids(cfg)[cfg.registers[t].name];
    assert cfg.registers[u].name == cfg.registers[t].name;
  }

  /** Names to recipes. */
  ghost predicate Signs(cfg: Config, regs: map<string, Recipe>) {
    && (forall t {:trigger cfg.registers[t].name in regs} :: 0 <= t < |cfg.registers| ==>
          cfg.registers[t].name in regs && regs[cfg.registers[t].name] == RecipeOf(cfg.registers[t]))
    && (forall name :: name in regs ==> name in Ids(cfg))
  }

  /** `register_signatures`. */
  method RegisterSignatures(cfg: Config) returns (regs: map<string, Recipe>)
    requires DistinctNames(cfg)
    ensures Signs(cfg, regs)
  {
    regs := map[];
    for t := 0 to |cfg.registers|
      invariant forall u :: 0 <= u < t ==>
                  cfg.registers[u].name in regs && regs[cfg.registers[u].name] == RecipeOf(cfg.registers[u])
      invariant forall name :: name in regs ==> name in Ids(cfg)
    {
      IdIsPosition(cfg, t);
      regs := regs[cfg.registers[t].name := RecipeOf(cfg.registers[t])];
    }
  }

  lemma SignedName(cfg: Config, regs: map<string, Recipe>, name: string)
    requires DistinctNames(cfg) && Signs(cfg, regs) && name in regs
    ensures name in Ids(cfg) && regs[name] == RecipeOf(cfg.registers[Ids(cfg)[name]])
  {
    var t := Ids(cfg)[name];
    assert cfg.registers[t].name == name;
  }

  // ----- What moves -----

  /** The old tag of the same name, if its acquisition recipe is unchanged. */
  function SameSource(prev: Config, next: Config, t: TagId): Option<TagId>
    requires t < |next.registers|
  {
    var name := next.registers[t].name;
    if name in Ids(prev) && prev.registers[Ids(prev)[name]].source == next.registers[t].source
    then Some(Ids(prev)[name]) else None
  }

  /** The old tag of the same name, if its whole recipe is unchanged. */
  function SameRecipe(prev: Config, next: Config, t: TagId): Option<TagId>
    requires t < |next.registers|
  {
    var name := next.registers[t].name;
    if name in Ids(prev) && RecipeOf(prev.registers[Ids(prev)[name]]) == RecipeOf(next.registers[t])
    then Some(Ids(prev)[name])
    else None
  }

  /** A new raw slot at the handover. */
  function MovedRaw(prev: Config, next: Config, slots: seq<Snapshot>, t: TagId): Snapshot
    requires t < |next.registers| && |slots| == |prev.registers|
  {
    match SameSource(prev, next, t)
    case Some(u) => slots[u]
    case None => NEVER_READ
  }

  /** A new published slot at the handover. */
  function MovedTyped(prev: Config, next: Config, slots: seq<TypedSnapshot>, t: TagId): TypedSnapshot
    requires t < |next.registers| && |slots| == |prev.registers|
  {
    match SameRecipe(prev, next, t)
    case Some(u) => slots[u]
    case None => NEVER_COMPUTED
  }

  /** The old register `u` and the new one `t` carry the same name. */
  predicate SameName(prev: Config, next: Config, u: TagId, t: TagId)
    requires u < |prev.registers| && t < |next.registers|
  {
    prev.registers[u].name == next.registers[t].name
  }

  /** The name of the new register `t` is new. */
  ghost predicate NewName(prev: Config, next: Config, t: TagId)
    requires t < |next.registers|
  {
    forall u :: 0 <= u < |prev.registers| ==> !SameName(prev, next, u, t)
  }

  /** The handover goes by name: a raw slot moves if the source is unchanged, a
      published one if the transform is as well; the others start anew. */
  ghost predicate Moves(prev: Config, next: Config, drained: seq<Snapshot>, handover: seq<Snapshot>,
                        drainedTyped: seq<TypedSnapshot>, published: seq<TypedSnapshot>) {
    && |drained| == |drainedTyped| == |prev.registers| && |handover| == |published| == |next.registers|
    && (forall t, u :: 0 <= t < |handover| && 0 <= u < |drained| && SameName(prev, next, u, t) ==>
          && handover[t] == (if prev.registers[u].source == next.registers[t].source then drained[u] else NEVER_READ)
          && published[t] == (if prev.registers[u].source == next.registers[t].source
                                 && prev.registers[u].transform == next.registers[t].transform
                              then drainedTyped[u] else NEVER_COMPUTED))
    && (forall t :: 0 <= t < |handover| && NewName(prev, next, t) ==>
          handover[t] == NEVER_READ && published[t] == NEVER_COMPUTED)
  }

  lemma LookupsGoByName(prev: Config, next: Config, t: TagId)
    requires DistinctNames(prev) && t < |next.registers|
    ensures forall u :: 0 <= u < |prev.registers| && SameName(prev, next, u, t) ==>
              && SameSource(prev, next, t)
                 == (if prev.registers[u].source == next.registers[t].source then Some(u) else None)
              && SameRecipe(prev, next, t)
                 == (if prev.registers[u].source == next.registers[t].source
                        && prev.registers[u].transform == next.registers[t].transform then Some(u) else None)
    ensures NewName(prev, next, t) ==> SameSource(prev, next, t).None? && SameRecipe(prev, next, t).None?
  {
    forall u | 0 <= u < |prev.registers| && SameName(prev, next, u, t)
      ensures Ids(prev)[prev.registers[u].name] == u && prev.registers[u].name in Ids(prev)
    {
      IdIsPosition(prev, u);
    }
    var name := next.registers[t].name;
    if name in Ids(prev) {
      assert SameName(prev, next, Ids(prev)[name], t);
    }
  }

  /** A tag whose recipe is new, or not as it was, starts anew. */
  lemma ChangedRecipeStartsAnew(prev: Config, next: Config, drained: seq<Snapshot>, handover: seq<Snapshot>,
                                drainedTyped: seq<TypedSnapshot>, published: seq<TypedSnapshot>, t: TagId)
    requires Moves(prev, next, drained, handover, drainedTyped, published)
    requires t < |next.registers| && !KeepsRecipe(next, prev, t)
    ensures published[t] == NEVER_COMPUTED
  {
    if !NewName(prev, next, t) {
      var u :| 0 <= u < |prev.registers| && SameName(prev, next, u, t);
      assert SameName(next, prev, t, u);
    }
  }

  lemma MovesByName(prev: Config, next: Config, drained: seq<Snapshot>, handover: seq<Snapshot>,
                    drainedTyped: seq<TypedSnapshot>, published: seq<TypedSnapshot>)
    requires DistinctNames(prev)
    requires |drained| == |drainedTyped| == |prev.registers| && |handover| == |published| == |next.registers|
    requires forall t :: 0 <= t < |handover| ==> handover[t] == MovedRaw(prev, next, drained, t)
    requires forall t :: 0 <= t < |published| ==> published[t] == MovedTyped(prev, next, drainedTyped, t)
    ensures Moves(prev, next, drained, handover, drainedTyped, published)
  {
    forall t | 0 <= t < |handover|
      ensures forall u :: 0 <= u < |drained| && SameName(prev, next, u, t) ==>
                && handover[t] == (if prev.registers[u].source == next.registers[t].source
                                   then drained[u] else NEVER_READ)
                && published[t] == (if prev.registers[u].source == next.registers[t].source
                                       && prev.registers[u].transform == next.registers[t].transform
                                    then drainedTyped[u] else NEVER_COMPUTED)
      ensures NewName(prev, next, t) ==> handover[t] == NEVER_READ && published[t] == NEVER_COMPUTED
    {
      LookupsGoByName(prev, next, t);
    }
  }

  // ----- Under which recipe a sample was taken -----

  /** Which values a source gives. It is any relation: what holds of every one of
      them holds of the source a value really came from. */
  type Produces = (Source, RawValue) -> bool

  predicate SampledBy(produces: Produces, source: Source, s: Snapshot) {
    && (s.value.Absent? || produces(source, s.value))
    && (s.quality == Good ==> !s.value.Absent?)
  }

  /** Every value was sampled under its register's current source. */
  predicate Sampled(produces: Produces, cfg: Config, slots: seq<Snapshot>) {
    && |slots| == |cfg.registers|
    && forall t :: 0 <= t < |slots| ==> SampledBy(produces, cfg.registers[t].source, slots[t])
  }

  /** What the channel tasks of a generation put into its slots. */
  function Admits(produces: Produces, cfg: Config): (TagId, Snapshot) -> bool {
    (t: TagId, s: Snapshot) => t < |cfg.registers| ==> SampledBy(produces, cfg.registers[t].source, s)
  }

  /** Samples stay under their own recipe when they move. */
  lemma MovedAreSampled(produces: Produces, prev: Config, next: Config, slots: seq<Snapshot>, moved: seq<Snapshot>)
    requires Sampled(produces, prev, slots) && |moved| == |next.registers|
    requires forall t :: 0 <= t < |moved| ==> moved[t] == MovedRaw(prev, next, slots, t)
    ensures Sampled(produces, next, moved)
  {
  }

  /** A Good calculated tag that reads its own register rests on a sample taken
      under the current recipe; and so does every Good tag it depends on. */
  lemma GoodRestsOnCurrentSamples(produces: Produces, cfg: Config, deps: Edges, metas: seq<TagMeta>,
                                  slots: seq<Snapshot>, out: seq<Outcome>, p: seq<TagId>)
    requires Sampled(produces, cfg, slots) && Solves(deps, metas, slots, out)
    requires Path(deps, p) && out[p[0]].Quality() == Good
    ensures var d := p[|p| - 1];
            && d < |out| && out[d].Quality() == Good
            && (metas[d].transform.UsesRaw() ==> produces(cfg.registers[d].source, slots[d].value))
  {
    PathInRange(deps, p, |p| - 1);
    QualityPropagates(deps, metas, slots, out, p);
    var d := p[|p| - 1];
    assert Holds(deps, metas, slots, out, d);
    OutcomeIsHonest(metas[d], slots[d], Pick(out, deps[d]));
    if metas[d].transform.UsesRaw() {
      WorstIsWorst(slots[d].quality, Pick(out, deps[d]));
    }
  }

  // ----- Deciding whether polling changes -----

  /** No old register carries this name and source. */
  ghost predicate NewSource(prev: Config, next: Config, t: TagId)
    requires t < |next.registers|
  {
    forall u :: 0 <= u < |prev.registers| && SameName(prev, next, u, t) ==>
      prev.registers[u].source != next.registers[t].source
  }

  lemma NewSourceHasNone(prev: Config, next: Config, t: TagId)
    requires DistinctNames(prev) && t < |next.registers|
    ensures NewSource(prev, next, t) <==> SameSource(prev, next, t).None?
  {
    LookupsGoByName(prev, next, t);
    if SameSource(prev, next, t).Some? {
      assert SameName(prev, next, SameSource(prev, next, t).value, t);
    }
  }

  /** Names, recipes of acquisition, or the compiled plans differ. */
  ghost predicate PollingChanges(prev: Config, next: Config) {
    || Names(prev) != Names(next) || prev.plans != next.plans
    || exists t :: 0 <= t < |next.registers| && NewSource(prev, next, t)
  }

  lemma UnchangedPollingKeepsIds(prev: Config, next: Config, t: TagId)
    requires DistinctNames(prev) && !PollingChanges(prev, next) && t < |next.registers|
    ensures |prev.registers| == |next.registers| && SameSource(prev, next, t) == Some(t)
  {
    assert |Names(prev)| == |Names(next)| && Names(prev)[t] == Names(next)[t];
    NewSourceHasNone(prev, next, t);
    LookupsGoByName(prev, next, t);
    assert SameName(prev, next, t, t);
  }

  lemma SameSourceSigns(prev: Config, next: Config, oldRegs: map<string, Recipe>, t: TagId)
    requires DistinctNames(prev) && Signs(prev, oldRegs) && t < |next.registers|
    ensures var r := next.registers[t];
            && (SameSource(prev, next, t).Some? <==> r.name in oldRegs && oldRegs[r.name].0 == r.source)
            && (SameRecipe(prev, next, t).Some? <==> r.name in oldRegs && oldRegs[r.name] == RecipeOf(r))
            && (r.name in Ids(prev) <==> r.name in oldRegs)
  {
    var name := next.registers[t].name;
    if name in oldRegs {
      SignedName(prev, oldRegs, name);
    }
    if name in Ids(prev) {
      assert prev.registers[Ids(prev)[name]].name == name;
    }
  }

  method CheckPolling(prev: Config, next: Config, oldRegs: map<string, Recipe>) returns (changed: bool)
    requires DistinctNames(prev) && Signs(prev, oldRegs)
    ensures changed <==> PollingChanges(prev, next)
  {
    if Names(prev) != Names(next) || prev.plans != next.plans {
      return true;
    }
    for t := 0 to |next.registers|
      invariant forall u :: 0 <= u < t ==> !NewSource(prev, next, u)
    {
      SameSourceSigns(prev, next, oldRegs, t);
      NewSourceHasNone(prev, next, t);
      var r := next.registers[t];
      if r.name !in oldRegs || oldRegs[r.name].0 != r.source {
        return true;
      }
    }
    changed := false;
  }

  // ----- The seeding loops -----

  /** Slots of an unchanged acquisition recipe have moved, the others stay. */
  function SeededRaw(prev: Config, next: Config, from: seq<Snapshot>, before: seq<Snapshot>): (out: seq<Snapshot>)
    requires |from| == |prev.registers| && |before| == |next.registers|
    ensures |out| == |before|
    ensures forall t {:trigger SameSource(prev, next, t)} :: 0 <= t < |out| ==>
              out[t] == (match SameSource(prev, next, t) case Some(u) => from[u] case None => before[t])
  {
    seq(|before|, t requires 0 <= t < |before| =>
          (match SameSource(prev, next, t) case Some(u) => from[u] case None => before[t]))
  }

  /** Copies raw slots by name where the acquisition recipe is unchanged. The loop
      visits a hash map, so in any order. */
  method SeedRaw(prev: Config, next: Config, oldRegs: map<string, Recipe>, newRegs: map<string, Recipe>,
                  from: TagCache, to: TagCache)
    requires DistinctNames(prev) && DistinctNames(next) && Signs(prev, oldRegs) && Signs(next, newRegs)
    requires from != to && |from.slots| == |prev.registers| && |to.slots| == |next.registers|
    modifies to`slots
    ensures to.slots == SeededRaw(prev, next, from.slots, old(to.slots))
  {
    ghost var goal := SeededRaw(prev, next, from.slots, to.slots);
    var names := newRegs.Keys;
    while names != {}
      invariant |to.slots| == |next.registers| && names <= newRegs.Keys
      invariant forall t :: 0 <= t < |to.slots| ==>
                  to.slots[t] == if next.registers[t].name in names then old(to.slots)[t] else goal[t]
      decreases names
    {
      var name :| name in names;
      SeedRawNamed(prev, next, oldRegs, newRegs, from, to, name, old(to.slots), goal);
      names := names - {name};
    }
    assert to.slots == goal;
  }

  method SeedRawNamed(prev: Config, next: Config, oldRegs: map<string, Recipe>, newRegs: map<string, Recipe>,
                      from: TagCache, to: TagCache, name: string, ghost before: seq<Snapshot>,
                      ghost goal: seq<Snapshot>)
    requires DistinctNames(prev) && DistinctNames(next) && Signs(prev, oldRegs) && Signs(next, newRegs)
    requires from != to && |from.slots| == |prev.registers| && |to.slots| == |next.registers| && name in newRegs
    requires |before| == |to.slots| && goal == SeededRaw(prev, next, from.slots, before)
    requires forall t :: 0 <= t < |to.slots| && next.registers[t].name == name ==> to.slots[t] == before[t]
    modifies to`slots
    ensures |to.slots| == |old(to.slots)|
    ensures forall t :: 0 <= t < |to.slots| ==>
              to.slots[t] == if next.registers[t].name == name then goal[t] else old(to.slots)[t]
  {
    SignedName(next, newRegs, name);
    var t := Ids(next)[name];
    SameSourceSigns(prev, next, oldRegs, t);
    if name in oldRegs && oldRegs[name].0 == newRegs[name].0 {
      to.Seed(t, from.slots[Ids(prev)[name]]);
    }
  }

  /** Slots of an unchanged recipe have moved, the others stay. */
  function SeededTyped(prev: Config, next: Config, from: seq<TypedSnapshot>, before: seq<TypedSnapshot>):
    (out: seq<TypedSnapshot>)
    requires |from| == |prev.registers| && |before| == |next.registers|
    ensures |out| == |before|
    ensures forall t {:trigger SameRecipe(prev, next, t)} :: 0 <= t < |out| ==>
              out[t] == (match SameRecipe(prev, next, t) case Some(u) => from[u] case None => before[t])
  {
    seq(|before|, t requires 0 <= t < |before| =>
          (match SameRecipe(prev, next, t) case Some(u) => from[u] case None => before[t]))
  }

  lemma SeededAreSampled(produces: Produces, prev: Config, next: Config, from: seq<Snapshot>, before: seq<Snapshot>)
    requires Sampled(produces, prev, from) && Sampled(produces, next, before)
    ensures Sampled(produces, next, SeededRaw(prev, next, from, before))
  {
    forall t | 0 <= t < |next.registers|
      ensures SampledBy(produces, next.registers[t].source, SeededRaw(prev, next, from, before)[t])
    {
      if SameSource(prev, next, t).Some? {
        var u := SameSource(prev, next, t).value;
        assert SampledBy(produces, prev.registers[u].source, from[u]);
      }
    }
  }

  /** Copies published slots by name where the whole recipe is unchanged. */
  method SeedTyped(prev: Config, next: Config, oldRegs: map<string, Recipe>, newRegs: map<string, Recipe>,
                    from: TypedStore, to: TypedStore)
    requires DistinctNames(prev) && DistinctNames(next) && Signs(prev, oldRegs) && Signs(next, newRegs)
    requires from != to && |from.slots| == |prev.registers| && |to.slots| == |next.registers|
    modifies to`slots
    ensures to.slots == SeededTyped(prev, next, from.slots, old(to.slots))
  {
    ghost var goal := SeededTyped(prev, next, from.slots, to.slots);
    var names := newRegs.Keys;
    while names != {}
      invariant |to.slots| == |next.registers| && names <= newRegs.Keys
      invariant forall t :: 0 <= t < |to.slots| ==>
                  to.slots[t] == if next.registers[t].name in names then old(to.slots)[t] else goal[t]
      decreases names
    {
      var name :| name in names;
      SeedTypedNamed(prev, next, oldRegs, newRegs, from, to, name, old(to.slots), goal);
      names := names - {name};
    }
    assert to.slots == goal;
  }

  method SeedTypedNamed(prev: Config, next: Config, oldRegs: map<string, Recipe>, newRegs: map<string, Recipe>,
                        from: TypedStore, to: TypedStore, name: string, ghost before: seq<TypedSnapshot>,
                        ghost goal: seq<TypedSnapshot>)
    requires DistinctNames(prev) && DistinctNames(next) && Signs(prev, oldRegs) && Signs(next, newRegs)
    requires from != to && |from.slots| == |prev.registers| && |to.slots| == |next.registers| && name in newRegs
    requires |before| == |to.slots| && goal == SeededTyped(prev, next, from.slots, before)
    requires forall t :: 0 <= t < |to.slots| && next.registers[t].name == name ==> to.slots[t] == before[t]
    modifies to`slots
    ensures |to.slots| == |old(to.slots)|
    ensures forall t :: 0 <= t < |to.slots| ==>
              to.slots[t] == if next.registers[t].name == name then goal[t] else old(to.slots)[t]
  {
    SignedName(next, newRegs, name);
    var t := Ids(next)[name];
    SameSourceSigns(prev, next, oldRegs, t);
    if name in oldRegs && oldRegs[name] == newRegs[name] {
      to.Seed(t, from.slots[Ids(prev)[name]]);
    }
  }

  /** Persisted values of other recipes are forgotten. */
  method Forget(persist: map<string, TypedValue>, oldRegs: map<string, Recipe>, newRegs: map<string, Recipe>)
    returns (kept: map<string, TypedValue>)
    ensures forall name :: name in kept <==>
              name in persist && (name in oldRegs ==> name in newRegs && newRegs[name] == oldRegs[name])
    ensures forall name :: name in kept ==> kept[name] == persist[name]
  {
    kept := persist;
    var names := oldRegs.Keys;
    while names != {}
      invariant names <= oldRegs.Keys
      invariant forall name :: name in kept <==>
                  name in persist
                  && (name in oldRegs && name !in names ==> name in newRegs && newRegs[name] == oldRegs[name])
      invariant forall name :: name in kept ==> kept[name] == persist[name]
      decreases names
    {
      var name :| name in names;
      if name !in newRegs || newRegs[name] != oldRegs[name] {
        kept := kept - {name};
      }
      names := names - {name};
    }
  }

  // ----- The running stack -----

  datatype Rejection = PumpDown | StartupSetting | BadEngine | BadWritePlan

  datatype ReloadResult = Unchanged | Rejected(why: Rejection) | Committed(pumpOk: bool)

  /** What an edit that passes every check must satisfy. */
  ghost predicate Acceptable(cfg: Config, next: Config, pumpRunning: bool) {
    && pumpRunning && next.startup == cfg.startup && next.writePlansOk
    && FormulasOk(next)
  }

  /** Formulas parse, read known tags, and read no tag in a circle. */
  ghost predicate FormulasOk(next: Config) {
    Resolvable(EntriesOf(next)) && Acyclic(EdgesOf(EntriesOf(next)))
  }

  /** The old register `t` lives on with an unchanged recipe. */
  ghost predicate KeepsRecipe(prev: Config, next: Config, t: TagId)
    requires t < |prev.registers|
  {
    exists u :: 0 <= u < |next.registers| && SameName(prev, next, t, u)
      && prev.registers[t].source == next.registers[u].source
      && prev.registers[t].transform == next.registers[u].transform
  }

  lemma KeepsRecipeIsLookup(prev: Config, next: Config, t: TagId)
    requires DistinctNames(next) && t < |prev.registers|
    ensures KeepsRecipe(prev, next, t) <==> SameRecipe(next, prev, t).Some?
  {
    LookupsGoByName(next, prev, t);
    if SameRecipe(next, prev, t).Some? {
      var u := SameRecipe(next, prev, t).value;
      assert SameName(next, prev, u, t) && SameName(prev, next, t, u);
    }
    if KeepsRecipe(prev, next, t) {
      var u :| 0 <= u < |next.registers| && SameName(prev, next, t, u)
        && prev.registers[t].source == next.registers[u].source
        && prev.registers[t].transform == next.registers[u].transform;
      assert SameName(next, prev, u, t);
    }
  }

  lemma SignaturesTell(prev: Config, next: Config, oldRegs: map<string, Recipe>, newRegs: map<string, Recipe>, t: TagId)
    requires DistinctNames(prev) && DistinctNames(next) && Signs(prev, oldRegs) && Signs(next, newRegs)
    requires t < |prev.registers|
    ensures var name := prev.registers[t].name;
            && name in oldRegs
            && (KeepsRecipe(prev, next, t) <==> name in newRegs && newRegs[name] == oldRegs[name])
  {
    assert prev.registers[t].name in oldRegs;
    KeepsRecipeIsLookup(prev, next, t);
    SameSourceSigns(next, prev, newRegs, t);
  }

  /** Of the old registers' persisted values exactly those survive whose recipe is
      unchanged; the others stay. */
  ghost predicate PersistKept(prev: Config, next: Config, before: map<string, TypedValue>,
                              after: map<string, TypedValue>) {
    && (forall t :: 0 <= t < |prev.registers| ==>
          (prev.registers[t].name in after <==> prev.registers[t].name in before && KeepsRecipe(prev, next, t)))
    && (forall name :: name in after ==> name in before && after[name] == before[name])
    && (forall name :: name in before && name !in Ids(prev) ==> name in after)
  }

  class RunningStack {
    /** Compiles every register's recipe. */
    const compile: Config -> seq<TagMeta>
    const produces: Produces
    var cfg: Config
    var cache: TagCache
    var typed: TypedStore
    var engine: TagEngine
    /** The deadband memory of the engine's pump. */
    var memory: seq<Option<real>>
    var persist: map<string, TypedValue>
    var revision: nat
    /** The OPC UA server, if there is one, and its value pump are running. */
    var pumpRunning: bool

    ghost predicate Valid()
      reads this, cache, typed, engine, engine.cache, engine.store, engine.calculated
    {
      && DistinctNames(cfg)
      && engine.cache == cache && engine.store == typed && engine.metas == compile(cfg)
      && |engine.metas| == |cfg.registers| && engine.admits == Admits(produces, cfg)
      && engine.Idle(memory)
    }

    /** Every Good calculated tag, and every tag it depends on, is Good for a sample
        taken under the current acquisition recipe, if it reads its register: the
        sample that its latest evaluation used, whatever the writers do since. */
    ghost predicate RestsOnCurrentSamples()
      reads this, cache, typed, engine, engine.cache, engine.store, engine.calculated
    {
      && Valid()
      && forall p ::
           Path(engine.graph.dependencies, p) && p[0] < |cfg.registers|
           && engine.calculated.slots[p[0]].quality == Good ==>
             var d := p[|p| - 1];
             && d < |cfg.registers| && engine.calculated.slots[d].quality == Good
             && (engine.metas[d].transform.UsesRaw() ==> produces(cfg.registers[d].source, engine.consumed[d].value))
    }

    /** Each tag shows what was handed over, or what the first wave has calculated. */
    ghost predicate ShowsHandedOrNew(published: seq<TypedSnapshot>)
      reads this, cache, typed, engine, engine.cache, engine.store, engine.calculated
    {
      && Valid() && |published| == |cfg.registers|
      && forall t :: 0 <= t < |published| ==>
           ShowsOldOrNew(published[t], engine.calculated.slots[t], typed.slots[t])
    }

    /** A new generation has made its first wave. */
    ghost predicate Live(published: seq<TypedSnapshot>)
      reads this, cache, typed, engine, engine.cache, engine.store, engine.calculated
    {
      && engine.primed && memory == StoreNumbers(typed.slots)
      && ShowsHandedOrNew(published)
    }

    /** It holds after every wave of every generation. */
    lemma AlwaysRestsOnCurrentSamples()
      requires Valid()
      ensures RestsOnCurrentSamples()
    {
      var deps, out := engine.graph.dependencies, Outcomes(engine.calculated.slots);
      engine.IdleIsUpToDate(memory);
      AdmittedIsSampled(engine.consumed);
      forall p | Path(deps, p) && p[0] < |cfg.registers| && engine.calculated.slots[p[0]].quality == Good
        ensures var d := p[|p| - 1];
                && d < |cfg.registers| && engine.calculated.slots[d].quality == Good
                && (engine.metas[d].transform.UsesRaw() ==> produces(cfg.registers[d].source, engine.consumed[d].value))
      {
        GoodRestsOnCurrentSamples(produces, cfg, deps, engine.metas, engine.consumed, out, p);
        assert out[p[|p| - 1]] == OutcomeOf(engine.calculated.slots[p[|p| - 1]]);
      }
    }

    lemma AdmittedIsSampled(raws: seq<Snapshot>)
      requires engine.admits == Admits(produces, cfg) && |raws| == |cfg.registers|
      ensures Stream.AllAdmitted(engine.admits, raws) <==> Sampled(produces, cfg, raws)
    {
      assert forall t :: 0 <= t < |raws| ==>
               (engine.admits(t, raws[t]) <==> SampledBy(produces, cfg.registers[t].source, raws[t]));
    }

    constructor (compile: Config -> seq<TagMeta>, produces: Produces, cfg: Config, engine: TagEngine,
                 memory: seq<Option<real>>)
      requires DistinctNames(cfg) && engine.metas == compile(cfg) && |engine.metas| == |cfg.registers|
      requires engine.Idle(memory)
      requires engine.admits == Admits(produces, cfg)
      ensures Valid() && this.cfg == cfg && this.engine == engine && this.compile == compile && revision == 0
    {
      this.compile, this.produces, this.cfg, this.engine := compile, produces, cfg, engine;
      this.cache, this.typed, this.memory := engine.cache, engine.store, memory;
      this.persist, this.revision, this.pumpRunning := map[], 0, true;
    }

    /** Channel tasks write and announce until they are told to stop: each only
        samples taken under its own recipe, and quality changes that leave the values. */
    method WritersRun(c: TagCache, under: Config)
      requires Sampled(produces, under, c.slots)
      modifies c
      ensures Sampled(produces, under, c.slots) && old(c.sent) <= c.sent
    {
      var steps: nat :| true;
      for i := 0 to steps
        invariant Sampled(produces, under, c.slots) && old(c.sent) <= c.sent
      {
        WriterStep(c, under);
      }
    }

    method WriterStep(c: TagCache, under: Config)
      requires Sampled(produces, under, c.slots)
      modifies c
      ensures Sampled(produces, under, c.slots) && old(c.sent) <= c.sent
    {
      var tag: nat :| true;
      var value: RawValue := *;
      if tag < |under.registers| {
        if value.Absent? {
          var answers: bool := *;
          var q := if answers then Uncertain else Bad;
          c.slots := c.slots[tag := c.slots[tag].(quality := q)];
        } else if produces(under.registers[tag].source, value) {
          c.slots := c.slots[tag := Written(c.slots[tag], value)];
        }
      } else {
        var tags: seq<TagId> := *;
        c.SendBatch(tags);
      }
    }

    /** The old engine publishes, and the old channel tasks write, until they are
        told to stop. */
    method GenerationRuns()
      requires Valid()
      modifies this`memory, cache, engine, engine.store, engine.calculated`slots
      ensures Valid() && old(cache.sent) <= cache.sent
    {
      var rounds: nat :| true;
      for i := 0 to rounds
        invariant Valid() && old(cache.sent) <= cache.sent
      {
        engine.WritersRun(Stream.Idle, engine.State(memory, []));
        if engine.position < |cache.sent| {
          memory := engine.Receive(memory);
        }
      }
      engine.WritersRun(Stream.Idle, engine.State(memory, []));
    }

    /** The engine of the new generation, if the formulas allow it. */
    method PrepareEngine(next: Config, newCache: TagCache) returns (e: Option<TagEngine>)
      requires |compile(next)| == |next.registers| && Sampled(produces, next, newCache.slots)
      ensures e.Some? <==> FormulasOk(next)
      ensures e.Some? ==>
                && fresh(e.value) && fresh(e.value.store) && fresh(e.value.calculated)
                && e.value.cache == newCache && e.value.metas == compile(next) && e.value.Valid()
                && e.value.admits == Admits(produces, next)
                && forall t :: 0 <= t < |e.value.store.slots| ==> e.value.store.slots[t] == NEVER_COMPUTED
    {
      var built := Build(EntriesOf(next));
      if built.Err? {
        return None;
      }
      var store := new TypedStore(Names(next));
      var calculated := new TypedStore(Names(next));
      RestoreRetentive(next, store);
      ClearAll(store);
      var prepared := new TagEngine(newCache, store, calculated, compile(next), built.value, Admits(produces, next));
      e := Some(prepared);
    }

    method RestoreRetentive(next: Config, store: TypedStore)
      requires |store.slots| == |next.registers|
      modifies store`slots
      ensures |store.slots| == |next.registers|
    {
      for t := 0 to |next.registers|
        invariant |store.slots| == |next.registers|
      {
        if next.registers[t].name in persist {
          store.Restore(t, persist[next.registers[t].name]);
        }
      }
    }

    method ClearAll(store: TypedStore)
      modifies store`slots
      ensures |store.slots| == |old(store.slots)|
      ensures forall t :: 0 <= t < |store.slots| ==> store.slots[t] == NEVER_COMPUTED
    {
      for t := 0 to |store.slots|
        invariant |store.slots| == |old(store.slots)|
        invariant forall u :: 0 <= u < t ==> store.slots[u] == NEVER_COMPUTED
      {
        store.Clear(t);
      }
    }

    /** `reload`. A candidate that fails any check leaves the running generation as
        it was; an accepted one takes over with the values that may move. */
    method Reload(next: Config)
      returns (r: ReloadResult, ghost drained: seq<Snapshot>, ghost handover: seq<Snapshot>,
               ghost drainedTyped: seq<TypedSnapshot>, ghost published: seq<TypedSnapshot>)
      requires Valid() && DistinctNames(next) && |compile(next)| == |next.registers|
      modifies this, cache, typed, engine, engine.calculated
      ensures Valid()
      ensures r.Unchanged? <==> next == old(cfg)
      ensures r.Committed? <==> next != old(cfg) && Acceptable(old(cfg), next, old(pumpRunning))
      ensures !r.Committed? ==>
                && cfg == old(cfg) && cache == old(cache) && typed == old(typed) && engine == old(engine)
                && persist == old(persist) && revision == old(revision)
                && cache.slots == old(cache.slots) && typed.slots == old(typed.slots)
                && engine.calculated.slots == old(engine.calculated.slots)
      ensures r.Committed? ==>
                && cfg == next && revision == old(revision) + 1
                && Live(published) && RestsOnCurrentSamples()
                && PersistKept(old(cfg), next, old(persist), persist)
                && Moves(old(cfg), next, drained, handover, drainedTyped, published)
      ensures r.Committed? ==>
                forall t :: 0 <= t < |next.registers| && !KeepsRecipe(next, old(cfg), t) ==>
                  typed.slots[t].value == Empty || typed.slots[t].value == engine.calculated.slots[t].value
    {
      drained, handover, drainedTyped, published := [], [], [], [];
      if next == cfg {
        return Unchanged, drained, handover, drainedTyped, published;
      }
      if !pumpRunning {
        return Rejected(PumpDown), drained, handover, drainedTyped, published;
      }
      if next.startup != cfg.startup {
        return Rejected(StartupSetting), drained, handover, drainedTyped, published;
      }
      r, drained, handover, drainedTyped, published := PrepareAndCommit(next);
      if r.Committed? {
        AlwaysRestsOnCurrentSamples();
        forall t | 0 <= t < |next.registers| && !KeepsRecipe(next, old(cfg), t)
          ensures typed.slots[t].value == Empty || typed.slots[t].value == engine.calculated.slots[t].value
        {
          ChangedRecipeStartsAnew(old(cfg), next, drained, handover, drainedTyped, published, t);
          assert ShowsOldOrNew(published[t], engine.calculated.slots[t], typed.slots[t]);
        }
      }
    }

    method PrepareAndCommit(next: Config)
      returns (r: ReloadResult, ghost drained: seq<Snapshot>, ghost handover: seq<Snapshot>,
               ghost drainedTyped: seq<TypedSnapshot>, ghost published: seq<TypedSnapshot>)
      requires Valid() && DistinctNames(next) && |compile(next)| == |next.registers|
      modifies this, cache, typed, engine, engine.calculated
      ensures Valid() && !r.Unchanged?
      ensures r.Committed? <==> FormulasOk(next) && next.writePlansOk
      ensures !r.Committed? ==>
                && cfg == old(cfg) && cache == old(cache) && typed == old(typed) && engine == old(engine)
                && persist == old(persist) && revision == old(revision)
                && cache.slots == old(cache.slots) && typed.slots == old(typed.slots)
                && engine.calculated.slots == old(engine.calculated.slots)
      ensures r.Committed? ==>
                && cfg == next && revision == old(revision) + 1
                && Live(published)
                && PersistKept(old(cfg), next, old(persist), persist)
                && Moves(old(cfg), next, drained, handover, drainedTyped, published)
    {
      drained, handover, drainedTyped, published := [], [], [], [];
      var oldRegs := RegisterSignatures(cfg);
      var newRegs := RegisterSignatures(next);
      var changed := CheckPolling(cfg, next, oldRegs);
      var why, prepared := Prepare(next, oldRegs, newRegs, changed);
      if prepared.None? {
        return Rejected(why), drained, handover, drainedTyped, published;
      }
      drained, handover, drainedTyped, published :=
        Commit(next, oldRegs, newRegs, changed, prepared.value);
      var pumpOk: bool := *;
      r := Committed(pumpOk);
    }

    /** A new engine over a cache is ready to take over. */
    ghost predicate ReadyToCommit(next: Config, changed: bool, e: TagEngine)
      reads this, cache, typed, e, e.cache, e.store, e.calculated
    {
      && e != engine && {e.store, e.calculated} !! {engine.store, engine.calculated}
      && (if changed then e.cache != cache else e.cache == cache)
      && e.metas == compile(next) && e.Wired() && |compile(next)| == |next.registers|
      && e.admits == Admits(produces, next) && Stream.AllAdmitted(e.admits, e.consumed)
      && (changed ==> Sampled(produces, next, e.cache.slots))
      && (changed ==> forall t :: 0 <= t < |next.registers| && SameSource(cfg, next, t).None? ==>
                        e.cache.slots[t] == NEVER_READ)
      && (forall t :: 0 <= t < |next.registers| && SameRecipe(cfg, next, t).None? ==>
          e.store.slots[t] == NEVER_COMPUTED)
    }

    /** Everything that can fail, before anything of the old generation is touched. */
    method Prepare(next: Config, oldRegs: map<string, Recipe>, newRegs: map<string, Recipe>, changed: bool)
      returns (why: Rejection, e: Option<TagEngine>)
      requires Valid() && DistinctNames(next) && Signs(cfg, oldRegs) && Signs(next, newRegs)
      requires |compile(next)| == |next.registers| && (changed <==> PollingChanges(cfg, next))
      ensures e.Some? <==> FormulasOk(next) && next.writePlansOk
      ensures e.Some? ==>
                && fresh(e.value) && fresh(e.value.store) && fresh(e.value.calculated)
                && (changed ==> fresh(e.value.cache))
                && ReadyToCommit(next, changed, e.value)
    {
      var newCache := cache;
      if changed {
        newCache := new TagCache(|next.registers|);
      } else {
        StayingIsMoving(cfg, next, cache.slots);
        AllSampled(cache.slots);
        MovedAreSampled(produces, cfg, next, cache.slots, cache.slots);
      }
      why := BadEngine;
      e := PrepareEngine(next, newCache);
      if e.None? {
        return;
      }
      if changed {
        AllSampled(cache.slots);
        SeededAreSampled(produces, cfg, next, cache.slots, newCache.slots);
        SeedRaw(cfg, next, oldRegs, newRegs, cache, newCache);
      }
      SeedTyped(cfg, next, oldRegs, newRegs, typed, e.value.store);
      if !next.writePlansOk {
        why, e := BadWritePlan, None;
      }
    }

    /** The old generation runs on until it has stopped; persisted values of other
        recipes are forgotten. */
    method Drain(next: Config, oldRegs: map<string, Recipe>, newRegs: map<string, Recipe>)
      requires Valid() && DistinctNames(next) && Signs(cfg, oldRegs) && Signs(next, newRegs)
      modifies this`persist, this`memory, cache, engine, engine.store, engine.calculated`slots
      ensures Valid() && PersistKept(cfg, next, old(persist), persist) && old(cache.sent) <= cache.sent
    {
      GenerationRuns();
      persist := Forget(persist, oldRegs, newRegs);
      forall t | 0 <= t < |cfg.registers|
        ensures cfg.registers[t].name in persist
                <==> cfg.registers[t].name in old(persist) && KeepsRecipe(cfg, next, t)
      {
        SignaturesTell(cfg, next, oldRegs, newRegs, t);
      }
    }

    /** The prepared engine stays as it is meanwhile. */
    method DrainBeside(next: Config, oldRegs: map<string, Recipe>, newRegs: map<string, Recipe>, ghost changed: bool,
                       ghost newEngine: TagEngine)
      requires Valid() && DistinctNames(next) && Signs(cfg, oldRegs) && Signs(next, newRegs)
      requires ReadyToCommit(next, changed, newEngine)
      modifies this`persist, this`memory, cache, engine, engine.store, engine.calculated`slots
      ensures Valid() && PersistKept(cfg, next, old(persist), persist)
      ensures ReadyToCommit(next, changed, newEngine)
    {
      Drain(next, oldRegs, newRegs);
    }

    /** The final raw snapshots move, and the new channel tasks start. */
    method HandOverRaw(next: Config, oldRegs: map<string, Recipe>, newRegs: map<string, Recipe>, changed: bool,
                       newCache: TagCache)
      returns (ghost handover: seq<Snapshot>)
      requires DistinctNames(cfg) && DistinctNames(next) && Signs(cfg, oldRegs) && Signs(next, newRegs)
      requires Sampled(produces, cfg, cache.slots) && (changed <==> PollingChanges(cfg, next))
      requires |newCache.slots| == |next.registers| && (if changed then newCache != cache else newCache == cache)
      requires changed ==> forall t :: 0 <= t < |next.registers| && SameSource(cfg, next, t).None? ==>
                             newCache.slots[t] == NEVER_READ
      modifies newCache
      ensures |handover| == |next.registers| && Sampled(produces, next, newCache.slots)
      ensures old(newCache.sent) <= newCache.sent
      ensures forall t :: 0 <= t < |handover| ==> handover[t] == MovedRaw(cfg, next, old(cache.slots), t)
    {
      if changed {
        SeedRaw(cfg, next, oldRegs, newRegs, cache, newCache);
      } else {
        StayingIsMoving(cfg, next, cache.slots);
      }
      handover := newCache.slots;
      MovedAreSampled(produces, cfg, next, old(cache.slots), handover);
      WritersRun(newCache, next);
    }

    /** The final published slots move. */
    method HandOverTyped(next: Config, oldRegs: map<string, Recipe>, newRegs: map<string, Recipe>, store: TypedStore)
      returns (ghost published: seq<TypedSnapshot>)
      requires DistinctNames(cfg) && DistinctNames(next) && Signs(cfg, oldRegs) && Signs(next, newRegs)
      requires store != typed && |typed.slots| == |cfg.registers| && |store.slots| == |next.registers|
      requires forall t :: 0 <= t < |next.registers| && SameRecipe(cfg, next, t).None? ==>
                 store.slots[t] == NEVER_COMPUTED
      modifies store`slots
      ensures published == store.slots && |published| == |next.registers|
      ensures forall t :: 0 <= t < |published| ==> published[t] == MovedTyped(cfg, next, typed.slots, t)
    {
      SeedTyped(cfg, next, oldRegs, newRegs, typed, store);
      published := store.slots;
    }

    /** The old generation drains; what may move moves; the new one goes live. */
    method Commit(next: Config, oldRegs: map<string, Recipe>, newRegs: map<string, Recipe>, changed: bool,
                  newEngine: TagEngine)
      returns (ghost drained: seq<Snapshot>, ghost handover: seq<Snapshot>,
               ghost drainedTyped: seq<TypedSnapshot>, ghost published: seq<TypedSnapshot>)
      requires Valid() && DistinctNames(next) && Signs(cfg, oldRegs) && Signs(next, newRegs)
      requires changed <==> PollingChanges(cfg, next)
      requires ReadyToCommit(next, changed, newEngine)
      modifies this, cache, typed, engine, engine.calculated
      modifies newEngine.cache, newEngine, newEngine.store, newEngine.calculated
      ensures cfg == next && engine == newEngine && revision == old(revision) + 1
      ensures Live(published)
      ensures PersistKept(old(cfg), next, old(persist), persist)
      ensures Moves(old(cfg), next, drained, handover, drainedTyped, published)
    {
      DrainBeside(next, oldRegs, newRegs, changed, newEngine);
      drained, drainedTyped := cache.slots, typed.slots;
      handover, published := TakeOver(next, oldRegs, newRegs, changed, newEngine);
    }

    /** What the stopped generation leaves moves to the new one, which goes live. */
    method TakeOver(next: Config, oldRegs: map<string, Recipe>, newRegs: map<string, Recipe>, changed: bool,
                    newEngine: TagEngine)
      returns (ghost handover: seq<Snapshot>, ghost published: seq<TypedSnapshot>)
      requires Valid() && DistinctNames(next) && Signs(cfg, oldRegs) && Signs(next, newRegs)
      requires changed <==> PollingChanges(cfg, next)
      requires ReadyToCommit(next, changed, newEngine)
      modifies this`cfg, this`cache, this`typed, this`engine, this`memory, this`revision
      modifies newEngine.cache, newEngine, newEngine.store, newEngine.calculated`slots
      ensures cfg == next && engine == newEngine && revision == old(revision) + 1
      ensures Live(published)
      ensures Moves(old(cfg), next, old(cache.slots), handover, old(typed.slots), published)
    {
      AllSampled(cache.slots);
      handover := HandOverRaw(next, oldRegs, newRegs, changed, newEngine.cache);
      published := HandOverTyped(next, oldRegs, newRegs, newEngine.store);
      MovesByName(cfg, next, old(cache.slots), handover, typed.slots, published);
      GoLive(next, newEngine);
    }

    /** The prepared engine makes its first wave, while the channel tasks of the new
        generation write, and takes over. */
    method GoLive(next: Config, newEngine: TagEngine)
      requires DistinctNames(next) && newEngine.Wired() && newEngine.metas == compile(next)
      requires |compile(next)| == |next.registers| && newEngine.admits == Admits(produces, next)
      requires Stream.AllAdmitted(newEngine.admits, newEngine.consumed)
      requires Sampled(produces, next, newEngine.cache.slots)
      modifies this`cfg, this`cache, this`typed, this`engine, this`memory, this`revision
      modifies newEngine, newEngine.cache, newEngine.store, newEngine.calculated`slots
      ensures Valid() && cfg == next && cache == newEngine.cache && engine == newEngine && revision == old(revision) + 1
      ensures Live(old(newEngine.store.slots))
    {
      newEngine.Refresh();
      cfg, cache, typed, engine := next, newEngine.cache, newEngine.store, newEngine;
      memory := newEngine.PublishedNumbers();
      revision := revision + 1;
    }

    lemma AllSampled(raws: seq<Snapshot>)
      requires Valid() && raws == cache.slots
      ensures Sampled(produces, cfg, raws)
    {
      engine.IdleIsUpToDate(memory);
      AdmittedIsSampled(raws);
    }
  }

  /** When polling does not change, every raw slot stays where it is. */
  lemma StayingIsMoving(prev: Config, next: Config, slots: seq<Snapshot>)
    requires DistinctNames(prev) && !PollingChanges(prev, next) && |slots| == |prev.registers|
    ensures |next.registers| == |prev.registers|
    ensures forall t :: 0 <= t < |next.registers| ==> MovedRaw(prev, next, slots, t) == slots[t]
  {
    assert |Names(prev)| == |Names(next)|;
    forall t | 0 <= t < |next.registers|
      ensures MovedRaw(prev, next, slots, t) == slots[t]
    {
      UnchangedPollingKeepsIds(prev, next, t);
    }
  }
}
