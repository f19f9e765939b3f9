/** The formula dependency graph: `tags-core/src/graph.rs`. Kahn's algorithm builds
    an evaluation order, or names the tags that a cycle blocks; `affected` closes a
    set of changed tags under dependents. */
module Graph {
  import opened MbTypes

  /** What a formula's text says about the tags it reads. */
  datatype Deps = NoFormula | Unparsable | Reads(names: seq<string>)

  datatype Entry = Entry(name: string, deps: Deps)

  /** For each tag, the tags its formula reads. */
  type Edges = seq<seq<TagId>>

  ghost predicate WellFormed(deps: Edges) {
    forall t :: 0 <= t < |deps| ==> forall d :: d in deps[t] ==> d < |deps|
  }

  // ----- Paths -----

  ghost predicate Link(deps: Edges, t: TagId, d: TagId) {
    t < |deps| && d < |deps| && d in deps[t]
  }

  /** Each tag of a path reads the next one. */
  ghost predicate Path(deps: Edges, p: seq<TagId>) {
    && p != [] && p[0] < |deps|
    && forall i :: 0 <= i < |p| - 1 ==> Link(deps, p[i], p[i + 1])
  }

  /** `t` is `d`, or reads it directly or through others. */
  ghost predicate DependsOn(deps: Edges, t: TagId, d: TagId) {
    exists p :: Path(deps, p) && p[0] == t && p[|p| - 1] == d
  }

  /** A path that comes back to where it has been. */
  ghost predicate Lasso(deps: Edges, p: seq<TagId>) {
    Path(deps, p) && exists i :: 0 <= i < |p| - 1 && p[i] == p[|p| - 1]
  }

  ghost predicate ReachesCycle(deps: Edges, t: TagId) {
    exists p :: Lasso(deps, p) && p[0] == t
  }

  ghost predicate Acyclic(deps: Edges) {
    forall t: nat :: t < |deps| ==> !ReachesCycle(deps, t)
  }

  lemma {:induction false} PathInRange(deps: Edges, p: seq<TagId>, i: nat)
    requires Path(deps, p) && i < |p|
    ensures p[i] < |deps|
  {
    if i > 0 {
      assert Link(deps, p[i - 1], p[i]);
    }
  }

  // ----- Orders -----

  lemma DistinctAppends(s: seq<TagId>, x: TagId)
    requires Distinct(s) && x !in s
    ensures Distinct(s + [x])
  {
  }

  /** Every tag of `order` comes after the tags it reads. */
  ghost predicate Ordered(deps: Edges, order: seq<TagId>) {
    forall k :: 0 <= k < |order| ==> order[k] < |deps| && forall d :: d in deps[order[k]] ==> d in order[..k]
  }

  /** An evaluation order: every tag once, after the tags it reads. */
  ghost predicate EvaluationOrder(deps: Edges, order: seq<TagId>) {
    && Distinct(order) && Ordered(deps, order)
    && forall t: nat :: t < |deps| ==> t in order
  }

  /** Along a path from an ordered tag, positions in the order strictly fall. */
  lemma {:induction false} PositionsFall(deps: Edges, order: seq<TagId>, p: seq<TagId>, i: nat, j: nat, at: nat)
    returns (later: nat)
    requires Distinct(order) && Ordered(deps, order) && Path(deps, p) && i <= j < |p|
    requires at < |order| && order[at] == p[i]
    ensures later < |order| && order[later] == p[j] && later <= at && (i < j ==> later < at)
    decreases j - i
  {
    if i == j {
      later := at;
    } else {
      assert Link(deps, p[i], p[i + 1]);
      assert p[i + 1] in order[..at];
      var next :| 0 <= next < at && order[..at][next] == p[i + 1];
      later := PositionsFall(deps, order, p, i + 1, j, next);
    }
  }

  /** An ordered tag reaches no cycle. */
  lemma {:induction false} OrderedReachesNoCycle(deps: Edges, order: seq<TagId>, t: TagId)
    requires Distinct(order) && Ordered(deps, order) && t in order
    ensures !ReachesCycle(deps, t)
  {
    if ReachesCycle(deps, t) {
      var p :| Lasso(deps, p) && p[0] == t;
      var i :| 0 <= i < |p| - 1 && p[i] == p[|p| - 1];
      var at :| 0 <= at < |order| && order[at] == t;
      var first := PositionsFall(deps, order, p, 0, i, at);
      var last := PositionsFall(deps, order, p, i, |p| - 1, first);
      assert false;
    }
  }

  // ----- Pigeonhole -----

  ghost function Below(n: nat): (all: set<TagId>)
    ensures |all| == n && forall t: nat :: t in all <==> t < n
  {
    if n == 0 then {} else Below(n - 1) + {n - 1}
  }

  ghost function Elements(s: seq<TagId>): (all: set<TagId>)
    ensures forall t :: t in all <==> t in s
    ensures Distinct(s) ==> |all| == |s|
  {
    if s == [] then {}
    else
      var init := s[..|s| - 1];
      assert s == init + [s[|s| - 1]];
      Elements(init) + {s[|s| - 1]}
  }

  lemma {:induction false} DistinctFits(s: seq<TagId>, n: nat)
    requires Distinct(s) && forall t :: t in s ==> t < n
    ensures |s| <= n
    ensures |s| == n ==> forall t: nat :: t < n ==> t in s
  {
    SubsetSize(Elements(s), Below(n));
  }

  lemma {:induction false} SubsetSize(a: set<TagId>, b: set<TagId>)
    requires a <= b
    ensures |a| <= |b| && (|a| == |b| ==> a == b)
  {
    assert b == a + (b - a);
    assert |b| == |a| + |b - a|;
    if |a| == |b| {
      assert b - a == {};
    }
  }

  ghost predicate ReadsOneOf(deps: Edges, t: TagId, tags: set<TagId>) {
    exists d :: d in tags && Link(deps, t, d)
  }

  /** Tags each of which reads one of them. */
  ghost predicate Trapped(deps: Edges, stuck: set<TagId>) {
    && (forall t :: t in stuck ==> t < |deps|)
    && (forall t {:trigger ReadsOneOf(deps, t, stuck)} :: t in stuck ==> ReadsOneOf(deps, t, stuck))
  }

  lemma {:induction false} WalkWithin(deps: Edges, stuck: set<TagId>, t: TagId, n: nat) returns (p: seq<TagId>)
    requires Trapped(deps, stuck) && t in stuck
    ensures Path(deps, p) && p[0] == t && |p| == n + 1 && forall x :: x in p ==> x in stuck
  {
    if n == 0 {
      p := [t];
    } else {
      var init := WalkWithin(deps, stuck, t, n - 1);
      assert init[n - 1] in init;
      assert ReadsOneOf(deps, init[n - 1], stuck);
      var d :| d in stuck && Link(deps, init[n - 1], d);
      p := init + [d];
      forall i | 0 <= i < |p| - 1
        ensures Link(deps, p[i], p[i + 1])
      {
        assert i < |init| - 1 ==> Link(deps, init[i], init[i + 1]);
      }
    }
  }

  lemma {:induction false} TrappedReachesCycle(deps: Edges, stuck: set<TagId>, t: TagId)
    requires Trapped(deps, stuck) && t in stuck
    ensures ReachesCycle(deps, t)
  {
    var p := WalkWithin(deps, stuck, t, |deps|);
    forall x | x in p
      ensures x < |deps|
    {
    }
    if Distinct(p) {
      DistinctFits(p, |deps|);
      assert false;
    }
    var i, j :| 0 <= i < j < |p| && p[i] == p[j];
    var loop := p[..j + 1];
    forall k | 0 <= k < |loop| - 1
      ensures Link(deps, loop[k], loop[k + 1])
    {
      assert Link(deps, p[k], p[k + 1]);
    }
    assert loop[i] == loop[|loop| - 1];
    assert Lasso(deps, loop);
  }

  // ----- Degrees -----

  function Count(s: seq<TagId>, x: TagId): nat {
    if s == [] then 0 else Count(s[..|s| - 1], x) + if s[|s| - 1] == x then 1 else 0
  }

  /** How many of the tags read are not yet in the order. */
  ghost function Open(ds: seq<TagId>, done: set<TagId>): nat {
    if ds == [] then 0 else Open(ds[..|ds| - 1], done) + if ds[|ds| - 1] in done then 0 else 1
  }

  lemma {:induction false} OpenAfter(ds: seq<TagId>, done: set<TagId>, x: TagId)
    requires x !in done
    ensures Open(ds, done) == Open(ds, done + {x}) + Count(ds, x)
  {
    if ds != [] {
      OpenAfter(ds[..|ds| - 1], done, x);
    }
  }

  lemma {:induction false} OpenNone(ds: seq<TagId>)
    ensures Open(ds, {}) == |ds|
  {
    if ds != [] {
      OpenNone(ds[..|ds| - 1]);
    }
  }

  lemma {:induction false} OpenMeansUnread(ds: seq<TagId>, done: set<TagId>)
    ensures Open(ds, done) == 0 <==> forall d :: d in ds ==> d in done
  {
    if ds != [] {
      var n := |ds| - 1;
      OpenMeansUnread(ds[..n], done);
      assert ds == ds[..n] + [ds[n]];
    }
  }

  lemma {:induction false} CountIn(s: seq<TagId>, x: TagId)
    ensures Count(s, x) > 0 <==> x in s
  {
    if s != [] {
      CountIn(s[..|s| - 1], x);
      assert s == s[..|s| - 1] + [s[|s| - 1]];
    }
  }

  lemma CountAppends(s: seq<TagId>, y: TagId, x: TagId)
    ensures Count(s + [y], x) == Count(s, x) + if y == x then 1 else 0
  {
    assert (s + [y])[..|s|] == s;
  }

  lemma {:induction false} CountDrops(s: seq<TagId>, x: TagId)
    requires s != []
    ensures Count(s, x) == Count(s[1..], x) + if s[0] == x then 1 else 0
  {
    if |s| > 1 {
      CountDrops(s[..|s| - 1], x);
      assert s[..|s| - 1][1..] == s[1..][..|s[1..]| - 1];
    }
  }

  /** `dependents` is `deps` read backwards. */
  ghost predicate Mirror(deps: Edges, dependents: Edges) {
    && |dependents| == |deps|
    && (forall d, t :: 0 <= d < |deps| && t in dependents[d] ==> t < |deps|)
    && forall d: nat, t: nat :: d < |deps| && t < |deps| ==> Count(dependents[d], t) == Count(deps[t], d)
  }

  lemma MirrorLinks(deps: Edges, dependents: Edges, d: TagId, t: TagId)
    requires Mirror(deps, dependents) && d < |deps| && t < |deps|
    ensures t in dependents[d] <==> d in deps[t]
  {
    CountIn(dependents[d], t);
    CountIn(deps[t], d);
  }

  lemma {:induction false} MirrorGrows(deps: Edges, dependents: Edges, t: TagId, d: TagId)
    requires Mirror(deps, dependents) && t < |deps| && d < |deps|
    ensures Mirror(deps[t := deps[t] + [d]], dependents[d := dependents[d] + [t]])
  {
    var deps', dependents' := deps[t := deps[t] + [d]], dependents[d := dependents[d] + [t]];
    forall e: nat, u: nat | e < |deps| && u < |deps|
      ensures Count(dependents'[e], u) == Count(deps'[u], e)
    {
      CountAppends(dependents[d], t, u);
      CountAppends(deps[t], d, e);
    }
  }

  // ----- Names -----

  /** Names to dense ids; of two tags with one name the later wins. */
  function NameIndex(entries: seq<Entry>): (ids: map<string, TagId>)
    ensures forall name :: name in ids ==> ids[name] < |entries| && entries[ids[name]].name == name
    ensures forall t :: 0 <= t < |entries| ==> entries[t].name in ids && t <= ids[entries[t].name]
  {
    if entries == [] then map[]
    else NameIndex(entries[..|entries| - 1])[entries[|entries| - 1].name := |entries| - 1]
  }

  function NamesOf(deps: Deps): seq<string> {
    if deps.Reads? then deps.names else []
  }

  predicate Resolves(ids: map<string, TagId>, deps: Deps) {
    !deps.Unparsable? && forall name :: name in NamesOf(deps) ==> name in ids
  }

  function Ids(ids: map<string, TagId>, names: seq<string>): (out: seq<TagId>)
    requires forall name :: name in names ==> name in ids
    ensures |out| == |names| && forall k :: 0 <= k < |names| ==> out[k] == ids[names[k]]
  {
    seq(|names|, k requires 0 <= k < |names| => ids[names[k]])
  }

  /** Every formula parses and reads known tags only. */
  ghost predicate Resolvable(entries: seq<Entry>) {
    forall t :: 0 <= t < |entries| ==> Resolves(NameIndex(entries), entries[t].deps)
  }

  ghost function EdgesOf(entries: seq<Entry>): (deps: Edges)
    requires Resolvable(entries)
    ensures |deps| == |entries| && WellFormed(deps)
    ensures forall t :: 0 <= t < |entries| ==> deps[t] == Ids(NameIndex(entries), NamesOf(entries[t].deps))
  {
    seq(|entries|, t requires 0 <= t < |entries| => Ids(NameIndex(entries), NamesOf(entries[t].deps)))
  }

  // ----- build -----

  datatype DependencyGraph = DependencyGraph(order: seq<TagId>, dependencies: Edges, dependents: Edges)

  datatype BuildError =
    | ParseFailure(tag: TagId)
    | UnknownDependency(tag: TagId, name: string)
    | Cycle(blocked: seq<TagId>)

  datatype Result<T> = Ok(value: T) | Err(error: BuildError)

  method IndexNames(entries: seq<Entry>) returns (ids: map<string, TagId>)
    ensures ids == NameIndex(entries)
  {
    ids := map[];
    for t := 0 to |entries|
      invariant ids == NameIndex(entries[..t])
    {
      assert entries[..t + 1][..t] == entries[..t];
      ids := ids[entries[t].name := t];
    }
    assert entries[..|entries|] == entries;
  }

  /** Adds the edges of one tag; stops at the first unknown name. */
  method LinkTag(ids: map<string, TagId>, names: seq<string>, t: TagId, deps: Edges, dependents: Edges)
    returns (unknown: Option<string>, deps': Edges, dependents': Edges)
    requires Mirror(deps, dependents) && t < |deps| && deps[t] == []
    requires forall name :: name in ids ==> ids[name] < |deps|
    ensures Mirror(deps', dependents') && |deps'| == |deps|
    ensures unknown.None? <==> forall name :: name in names ==> name in ids
    ensures unknown.None? ==> deps' == deps[t := Ids(ids, names)]
    ensures unknown.Some? ==> exists k :: 0 <= k < |names| && names[k] == unknown.value && names[k] !in ids
                                        && forall j :: 0 <= j < k ==> names[j] in ids
  {
    unknown, deps', dependents' := None, deps, dependents;
    for k := 0 to |names|
      invariant unknown.None? && Mirror(deps', dependents') && |deps'| == |deps|
      invariant forall name :: name in names[..k] ==> name in ids
      invariant deps' == deps[t := Ids(ids, names[..k])]
    {
      assert names[..k + 1] == names[..k] + [names[k]];
      if names[k] !in ids {
        unknown := Some(names[k]);
        return;
      }
      var d := ids[names[k]];
      MirrorGrows(deps', dependents', t, d);
      assert Ids(ids, names[..k + 1]) == Ids(ids, names[..k]) + [d];
      deps' := deps'[t := deps'[t] + [d]];
      dependents' := dependents'[d := dependents'[d] + [t]];
    }
    assert names[..|names|] == names;
  }

  /** What the tags before `t` read; nothing yet for the others. */
  ghost predicate Linked(ids: map<string, TagId>, entries: seq<Entry>, deps: Edges, t: nat) {
    && |deps| == |entries| && t <= |entries|
    && (forall u :: 0 <= u < t ==>
          Resolves(ids, entries[u].deps) && deps[u] == Ids(ids, NamesOf(entries[u].deps)))
    && (forall u :: t <= u < |entries| ==> deps[u] == [])
  }

  /** The first tag that cannot be linked, and why. */
  ghost predicate FirstProblem(entries: seq<Entry>, e: BuildError) {
    var ids := NameIndex(entries);
    && (e.ParseFailure? || e.UnknownDependency?)
    && e.tag < |entries|
    && (forall u :: 0 <= u < e.tag ==> Resolves(ids, entries[u].deps))
    && (e.ParseFailure? ==> entries[e.tag].deps.Unparsable?)
    && (e.UnknownDependency? ==> entries[e.tag].deps.Reads? && e.name in entries[e.tag].deps.names && e.name !in ids)
  }

  lemma AllLinked(entries: seq<Entry>, deps: Edges)
    requires Linked(NameIndex(entries), entries, deps, |entries|)
    ensures Resolvable(entries) && deps == EdgesOf(entries)
  {
  }

  lemma LinkedOneMore(ids: map<string, TagId>, entries: seq<Entry>, deps: Edges, t: nat)
    requires t < |entries| && Linked(ids, entries, deps, t) && Resolves(ids, entries[t].deps)
    ensures Linked(ids, entries, deps[t := Ids(ids, NamesOf(entries[t].deps))], t + 1)
  {
  }

  lemma ProblemAt(entries: seq<Entry>, deps: Edges, t: nat, e: BuildError)
    requires t < |entries| && Linked(NameIndex(entries), entries, deps, t)
    requires if entries[t].deps.Unparsable? then e == ParseFailure(t)
             else e.UnknownDependency? && e.tag == t && e.name in NamesOf(entries[t].deps)
                   && e.name !in NameIndex(entries)
    ensures FirstProblem(entries, e) && !Resolvable(entries)
  {
    assert !Resolves(NameIndex(entries), entries[t].deps);
  }

  method LinkAll(entries: seq<Entry>) returns (r: Result<(Edges, Edges)>)
    ensures r.Ok? <==> Resolvable(entries)
    ensures r.Ok? ==> r.value.0 == EdgesOf(entries) && Mirror(r.value.0, r.value.1)
    ensures r.Err? ==> FirstProblem(entries, r.error)
  {
    var ids := IndexNames(entries);
    var deps: Edges := seq(|entries|, _ => []);
    var dependents: Edges := seq(|entries|, _ => []);
    for t := 0 to |entries|
      invariant Linked(ids, entries, deps, t) && Mirror(deps, dependents)
    {
      if entries[t].deps.Unparsable? {
        ProblemAt(entries, deps, t, ParseFailure(t));
        return Err(ParseFailure(t));
      }
      ghost var before := deps;
      var unknown;
      unknown, deps, dependents := LinkTag(ids, NamesOf(entries[t].deps), t, deps, dependents);
      if unknown.Some? {
        ProblemAt(entries, before, t, UnknownDependency(t, unknown.value));
        return Err(UnknownDependency(t, unknown.value));
      }
      LinkedOneMore(ids, entries, before, t);
    }
    AllLinked(entries, deps);
    r := Ok((deps, dependents));
  }

  // ----- Kahn's algorithm -----

  /** Tags whose degree is zero are in the order, or ready to join it. */
  ghost predicate ZeroesListed(degrees: seq<nat>, listed: seq<TagId>) {
    && Distinct(listed)
    && (forall t :: t in listed ==> t < |degrees|)
    && (forall t :: 0 <= t < |degrees| ==> (t in listed <==> degrees[t] == 0))
  }

  /** Takes one ordered tag off the degrees of its dependents. */
  method Release(degrees: seq<nat>, ready: seq<TagId>, next: seq<TagId>, ghost open: seq<nat>, ghost order: seq<TagId>)
    returns (degrees': seq<nat>, ready': seq<TagId>)
    requires |open| == |degrees| && forall t :: t in next ==> t < |degrees|
    requires forall t :: 0 <= t < |degrees| ==> degrees[t] == open[t] + Count(next, t)
    requires ZeroesListed(degrees, order + ready)
    ensures degrees' == open && ZeroesListed(degrees', order + ready')
  {
    degrees', ready' := degrees, ready;
    for j := 0 to |next|
      invariant |degrees'| == |degrees|
      invariant forall t :: 0 <= t < |degrees| ==> degrees'[t] == open[t] + Count(next[j..], t)
      invariant ZeroesListed(degrees', order + ready')
    {
      var t := next[j];
      assert t in next && next[j..][0] == t && next[j..][1..] == next[j + 1..];
      forall u | 0 <= u < |degrees|
        ensures Count(next[j..], u) == Count(next[j + 1..], u) + if u == t then 1 else 0
      {
        CountDrops(next[j..], u);
      }
      degrees' := degrees'[t := degrees'[t] - 1];
      if degrees'[t] == 0 {
        assert order + (ready' + [t]) == (order + ready') + [t];
        ready' := ready' + [t];
      }
    }
  }

  ghost predicate Degrees(deps: Edges, degrees: seq<nat>, order: seq<TagId>) {
    && |degrees| == |deps|
    && forall t :: 0 <= t < |deps| ==> degrees[t] == Open(deps[t], Elements(order))
  }

  lemma {:induction false} JoinsOrder(deps: Edges, degrees: seq<nat>, order: seq<TagId>, ready: seq<TagId>)
    requires WellFormed(deps) && Ordered(deps, order) && Degrees(deps, degrees, order)
    requires ready != [] && ZeroesListed(degrees, order + ready)
    ensures Ordered(deps, order + [ready[0]])
    ensures |order| < |deps| && ready[0] < |deps| && ready[0] !in order
    ensures order + ready == (order + [ready[0]]) + ready[1..]
  {
    var tag := ready[0];
    assert (order + ready)[|order|] == tag && tag in order + ready;
    forall k | 0 <= k < |order|
      ensures order[k] != tag
    {
      assert (order + ready)[k] == order[k];
    }
    OpenMeansUnread(deps[tag], Elements(order));
    OrderedAppends(deps, order, tag);
    DistinctFits(order + ready, |deps|);
  }

  lemma OrderedAppends(deps: Edges, order: seq<TagId>, tag: TagId)
    requires Ordered(deps, order) && tag < |deps| && forall d :: d in deps[tag] ==> d in order
    ensures Ordered(deps, order + [tag])
  {
    var next := order + [tag];
    forall k | 0 <= k < |next|
      ensures next[k] < |deps| && forall d :: d in deps[next[k]] ==> d in next[..k]
    {
      assert next[..k] == order[..k];
    }
    assert order[..|order|] == order;
  }

  /** The degrees after `tag` has joined the order. */
  ghost function OpenDegrees(deps: Edges, order: seq<TagId>): (open: seq<nat>)
    ensures Degrees(deps, open, order)
  {
    seq(|deps|, t requires 0 <= t < |deps| => Open(deps[t], Elements(order)))
  }

  lemma {:induction false} DegreesDrop(deps: Edges, dependents: Edges, degrees: seq<nat>, order: seq<TagId>, tag: TagId)
    requires Mirror(deps, dependents) && Degrees(deps, degrees, order) && tag < |deps| && tag !in order
    ensures var open := OpenDegrees(deps, order + [tag]);
            forall t :: 0 <= t < |deps| ==> degrees[t] == open[t] + Count(dependents[tag], t)
  {
    assert Elements(order + [tag]) == Elements(order) + {tag};
    forall t: nat | t < |deps|
      ensures degrees[t] == Open(deps[t], Elements(order + [tag])) + Count(dependents[tag], t)
    {
      OpenAfter(deps[t], Elements(order), tag);
    }
  }

  method InitialDegrees(deps: Edges) returns (degrees: seq<nat>, ready: seq<TagId>)
    ensures Degrees(deps, degrees, []) && ZeroesListed(degrees, ready)
  {
    degrees, ready := [], [];
    for t := 0 to |deps|
      invariant |degrees| == t && forall u :: 0 <= u < t ==> degrees[u] == |deps[u]|
      invariant ZeroesListed(degrees, ready)
    {
      ghost var listed := ready;
      assert forall u :: u in listed ==> u < t;
      degrees := degrees + [|deps[t]|];
      if |deps[t]| == 0 {
        DistinctAppends(ready, t);
        ready := ready + [t];
      }
      assert forall u :: u in ready <==> u in listed || (u == t && |deps[t]| == 0);
    }
    forall t | 0 <= t < |deps|
      ensures degrees[t] == Open(deps[t], Elements([]))
    {
      OpenNone(deps[t]);
    }
  }

  /** Kahn's loop: no degree is ever decremented below zero. */
  method Sort(deps: Edges, dependents: Edges) returns (order: seq<TagId>, degrees: seq<nat>)
    requires WellFormed(deps) && Mirror(deps, dependents)
    ensures Ordered(deps, order) && Degrees(deps, degrees, order) && ZeroesListed(degrees, order)
  {
    var ready;
    degrees, ready := InitialDegrees(deps);
    order := [];
    assert order + ready == ready;
    while ready != []
      invariant Ordered(deps, order) && Degrees(deps, degrees, order)
      invariant ZeroesListed(degrees, order + ready)
      decreases |deps| - |order|
    {
      var tag := ready[0];
      JoinsOrder(deps, degrees, order, ready);
      DegreesDrop(deps, dependents, degrees, order, tag);
      degrees, ready := Release(degrees, ready[1..], dependents[tag], OpenDegrees(deps, order + [tag]), order + [tag]);
      order := order + [tag];
    }
    assert order + [] == order;
  }

  /** The tags left with a positive degree are exactly those that reach a cycle. */
  lemma {:induction false} LeftoversReachCycles(deps: Edges, order: seq<TagId>, degrees: seq<nat>, t: TagId)
    requires WellFormed(deps) && Ordered(deps, order) && Degrees(deps, degrees, order) && ZeroesListed(degrees, order)
    requires t < |deps|
    ensures degrees[t] > 0 <==> ReachesCycle(deps, t)
  {
    if degrees[t] == 0 {
      OrderedReachesNoCycle(deps, order, t);
    } else {
      var stuck := Below(|deps|) - Elements(order);
      forall u | u in stuck
        ensures ReadsOneOf(deps, u, stuck)
      {
        OpenMeansUnread(deps[u], Elements(order));
        var d :| d in deps[u] && d !in Elements(order);
        assert d in stuck && Link(deps, u, d);
      }
      TrappedReachesCycle(deps, stuck, t);
    }
  }

  /** `blocked` lists exactly the tags that reach a cycle, in declaration order. */
  ghost predicate BlockedExactly(deps: Edges, blocked: seq<TagId>) {
    StrictlyAscending(blocked) && forall t: nat :: t in blocked <==> t < |deps| && ReachesCycle(deps, t)
  }

  method Arrange(deps: Edges, dependents: Edges) returns (order: seq<TagId>, blocked: seq<TagId>)
    requires WellFormed(deps) && Mirror(deps, dependents)
    ensures BlockedExactly(deps, blocked) && (blocked == [] <==> Acyclic(deps))
    ensures blocked == [] ==> EvaluationOrder(deps, order)
  {
    var degrees;
    order, degrees := Sort(deps, dependents);
    forall t: nat | t < |deps|
      ensures degrees[t] > 0 <==> ReachesCycle(deps, t)
    {
      LeftoversReachCycles(deps, order, degrees, t);
    }
    DistinctFits(order, |deps|);
    blocked := [];
    if |order| != |deps| {
      blocked := Blocked(degrees);
      if blocked == [] {
        AllListed(degrees, order);
      }
      assert blocked[0] in blocked;
    }
  }

  /** `DependencyGraph::build`: accepts exactly the acyclic configurations whose
      formulas parse and read known tags; else names the first problem, or exactly
      the tags that reach a cycle. */
  method Build(entries: seq<Entry>) returns (r: Result<DependencyGraph>)
    ensures r.Ok? <==> Resolvable(entries) && Acyclic(EdgesOf(entries))
    ensures r.Ok? ==>
              && r.value.dependencies == EdgesOf(entries)
              && Mirror(r.value.dependencies, r.value.dependents)
              && EvaluationOrder(r.value.dependencies, r.value.order)
    ensures r.Err? ==>
              if r.error.Cycle? then
                Resolvable(entries) && r.error.blocked != [] && BlockedExactly(EdgesOf(entries), r.error.blocked)
              else FirstProblem(entries, r.error)
  {
    var linked := LinkAll(entries);
    if linked.Err? {
      return Err(linked.error);
    }
    var (deps, dependents) := linked.value;
    var order, blocked := Arrange(deps, dependents);
    r := if blocked == [] then Ok(DependencyGraph(order, deps, dependents)) else Err(Cycle(blocked));
  }

  method Blocked(degrees: seq<nat>) returns (blocked: seq<TagId>)
    ensures StrictlyAscending(blocked) && forall t: nat :: t in blocked <==> t < |degrees| && degrees[t] > 0
  {
    blocked := [];
    for t := 0 to |degrees|
      invariant StrictlyAscending(blocked)
      invariant forall i :: 0 <= i < |blocked| ==> blocked[i] < t
      invariant forall u: nat :: u in blocked <==> u < t && degrees[u] > 0
    {
      if degrees[t] > 0 {
        blocked := blocked + [t];
      }
    }
  }

  lemma {:induction false} AllListed(degrees: seq<nat>, order: seq<TagId>)
    requires ZeroesListed(degrees, order) && forall t :: 0 <= t < |degrees| ==> degrees[t] == 0
    ensures |order| == |degrees|
  {
    SubsetSize(Below(|degrees|), Elements(order));
    DistinctFits(order, |degrees|);
  }

  // ----- affected -----

  predicate AllMarked(marks: seq<bool>, tags: seq<TagId>) {
    forall t :: t in tags ==> t < |marks| && marks[t]
  }

  /** Every dependent of a marked tag is marked, unless the tag still waits. */
  ghost predicate Closing(dependents: Edges, marks: seq<bool>, todo: seq<TagId>) {
    && |marks| == |dependents|
    && AllMarked(marks, todo)
    && (forall d :: 0 <= d < |marks| && marks[d] && d !in todo ==> AllMarked(marks, dependents[d]))
  }

  ghost predicate Affects(deps: Edges, changed: seq<TagId>, t: TagId) {
    exists c :: c in changed && c < |deps| && DependsOn(deps, t, c)
  }

  lemma DependsOnItself(deps: Edges, t: TagId)
    requires t < |deps|
    ensures DependsOn(deps, t, t)
  {
    assert Path(deps, [t]);
  }

  lemma DependsFurther(deps: Edges, t: TagId, d: TagId, c: TagId)
    requires Link(deps, t, d) && DependsOn(deps, d, c)
    ensures DependsOn(deps, t, c)
  {
    var p :| Path(deps, p) && p[0] == d && p[|p| - 1] == c;
    var q := [t] + p;
    forall i | 0 <= i < |q| - 1
      ensures Link(deps, q[i], q[i + 1])
    {
      assert i > 0 ==> Link(deps, p[i - 1], p[i]);
    }
    assert Path(deps, q) && q[|q| - 1] == c;
  }

  /** A closed set of marks that holds the end of a path holds its start. */
  lemma {:induction false} MarksGoBack(deps: Edges, dependents: Edges, marks: seq<bool>, p: seq<TagId>, i: nat)
    requires Mirror(deps, dependents) && Closing(dependents, marks, []) && Path(deps, p) && i < |p|
    requires p[|p| - 1] < |deps| && marks[p[|p| - 1]]
    ensures p[i] < |deps| && marks[p[i]]
    decreases |p| - i
  {
    if i < |p| - 1 {
      MarksGoBack(deps, dependents, marks, p, i + 1);
      assert Link(deps, p[i], p[i + 1]);
      MirrorLinks(deps, dependents, p[i + 1], p[i]);
    }
  }

  ghost predicate Sound(deps: Edges, changed: seq<TagId>, marks: seq<bool>) {
    |marks| == |deps| && forall t: nat {:trigger marks[t]} :: t < |marks| && marks[t] ==> Affects(deps, changed, t)
  }

  /** The tags to mark first: those of `changed` that exist, each once. */
  method MarkChanged(deps: Edges, changed: seq<TagId>) returns (marks: seq<bool>, todo: seq<TagId>)
    ensures Sound(deps, changed, marks) && Distinct(todo)
    ensures forall t: nat :: t < |deps| ==> (marks[t] <==> t in changed)
    ensures forall t: nat :: t in todo <==> t < |deps| && marks[t]
  {
    marks, todo := seq(|deps|, _ => false), [];
    for k := 0 to |changed|
      invariant |marks| == |deps| && Distinct(todo)
      invariant forall t: nat :: t < |deps| ==> (marks[t] <==> t in changed[..k])
      invariant forall t: nat :: t in todo <==> t < |deps| && marks[t]
    {
      var t := changed[k];
      assert changed[..k + 1] == changed[..k] + [t];
      if t < |marks| && !marks[t] {
        DistinctAppends(todo, t);
        marks := marks[t := true];
        todo := todo + [t];
      }
    }
    assert changed[..|changed|] == changed;
    forall t: nat | t < |marks| && marks[t]
      ensures Affects(deps, changed, t)
    {
      DependsOnItself(deps, t);
    }
  }

  /** How many tags are still unmarked. */
  ghost function Unmarked(marks: seq<bool>): nat {
    if marks == [] then 0 else Unmarked(marks[..|marks| - 1]) + if marks[|marks| - 1] then 0 else 1
  }

  lemma {:induction false} MarkingCounts(marks: seq<bool>, t: nat)
    requires t < |marks| && !marks[t]
    ensures Unmarked(marks[t := true]) < Unmarked(marks)
  {
    var n := |marks| - 1;
    if t < n {
      MarkingCounts(marks[..n], t);
      assert marks[t := true][..n] == marks[..n][t := true];
    } else {
      assert marks[t := true][..n] == marks[..n];
    }
  }

  lemma AppendHolds(todo: seq<TagId>, d: TagId, x: TagId)
    ensures x in todo + [d] <==> x in todo || x == d
  {
  }

  lemma ClosingGrows(dependents: Edges, marks: seq<bool>, todo: seq<TagId>, d: TagId, t: TagId)
    requires Closing(dependents, marks, todo + [d]) && t < |marks|
    ensures Closing(dependents, marks[t := true], (todo + [t]) + [d])
  {
    forall x: TagId
      ensures x in (todo + [t]) + [d] <==> x in todo + [d] || x == t
    {
      AppendHolds(todo + [t], d, x);
      AppendHolds(todo, t, x);
      AppendHolds(todo, d, x);
    }
    var next := marks[t := true];
    forall e: nat | e < |next| && next[e] && e !in (todo + [t]) + [d]
      ensures AllMarked(next, dependents[e])
    {
      assert t in (todo + [t]) + [d] && e !in todo + [d];
      assert AllMarked(marks, dependents[e]);
    }
  }

  lemma ClosingDone(dependents: Edges, marks: seq<bool>, todo: seq<TagId>, d: TagId)
    requires Closing(dependents, marks, todo + [d]) && d < |marks|
    requires AllMarked(marks, dependents[d])
    ensures Closing(dependents, marks, todo)
  {
    forall x: TagId
      ensures x in todo + [d] <==> x in todo || x == d
    {
      AppendHolds(todo, d, x);
    }
  }

  /** Marks the dependents of one tag taken off the list. */
  method MarkDependents(deps: Edges, dependents: Edges, changed: seq<TagId>, d: TagId, marks: seq<bool>,
                        todo: seq<TagId>)
    returns (marks': seq<bool>, todo': seq<TagId>)
    requires Mirror(deps, dependents) && Sound(deps, changed, marks)
    requires d < |deps| && marks[d] && Closing(dependents, marks, todo + [d])
    ensures Sound(deps, changed, marks') && Closing(dependents, marks', todo')
    ensures forall t :: 0 <= t < |marks| && marks[t] ==> marks'[t]
    ensures Unmarked(marks') < Unmarked(marks) || (marks' == marks && todo' == todo)
  {
    marks', todo' := marks, todo;
    var next := dependents[d];
    for j := 0 to |next|
      invariant Sound(deps, changed, marks')
      invariant forall t :: 0 <= t < |marks| && marks[t] ==> marks'[t]
      invariant forall t :: t in next[..j] ==> t < |marks'| && marks'[t]
      invariant Closing(dependents, marks', todo' + [d])
      invariant Unmarked(marks') < Unmarked(marks) || (marks' == marks && todo' == todo)
    {
      var t := next[j];
      assert t in dependents[d] && next[..j + 1] == next[..j] + [t];
      if !marks'[t] {
        MirrorLinks(deps, dependents, d, t);
        assert Affects(deps, changed, d);
        ghost var c :| c in changed && c < |deps| && DependsOn(deps, d, c);
        DependsFurther(deps, t, d, c);
        MarkingCounts(marks', t);
        ClosingGrows(dependents, marks', todo', d, t);
        marks' := marks'[t := true];
        todo' := todo' + [t];
      }
    }
    assert next[..|next|] == next;
    ClosingDone(dependents, marks', todo', d);
  }

  lemma AffectedAreMarked(deps: Edges, dependents: Edges, changed: seq<TagId>, marks: seq<bool>)
    requires Mirror(deps, dependents) && Closing(dependents, marks, []) && |marks| == |deps|
    requires forall t: nat :: t < |deps| && t in changed ==> marks[t]
    ensures forall t: nat :: t < |deps| && Affects(deps, changed, t) ==> marks[t]
  {
    forall t: nat | t < |deps| && Affects(deps, changed, t)
      ensures marks[t]
    {
      var c :| c in changed && c < |deps| && DependsOn(deps, t, c);
      var p :| Path(deps, p) && p[0] == t && p[|p| - 1] == c;
      MarksGoBack(deps, dependents, marks, p, 0);
    }
  }

  /** `DependencyGraph::affected`: exactly the changed tags and all that depend on
      them, directly or through others. */
  method Affected(deps: Edges, dependents: Edges, changed: seq<TagId>) returns (marks: seq<bool>)
    requires Mirror(deps, dependents)
    ensures |marks| == |deps| && forall t: nat :: t < |deps| ==> (marks[t] <==> Affects(deps, changed, t))
  {
    var todo;
    marks, todo := MarkChanged(deps, changed);
    while todo != []
      invariant Sound(deps, changed, marks) && Closing(dependents, marks, todo)
      invariant forall t: nat :: t < |deps| && t in changed ==> marks[t]
      decreases Unmarked(marks), |todo|
    {
      var d := todo[|todo| - 1];
      assert d in todo && todo == todo[..|todo| - 1] + [d];
      marks, todo := MarkDependents(deps, dependents, changed, d, marks, todo[..|todo| - 1]);
    }
    AffectedAreMarked(deps, dependents, changed, marks);
  }
}
