/** The poll wheel: `mb-poller/src/schedule.rs`. One timer per distinct period; the
    timers that fire together give one batch, ordered by priority. */
module Schedule {
  import opened MbTypes
  import opened Wire
  import opened Ticks
  import opened Plan
  import opened PlanLaws
  import Resolve

  datatype Unit = Unit(priority: int, device: nat, group: nat)

  ghost predicate PlanShaped(plan: ChannelPlan) {
    && |plan.periods| == |plan.priorities| == |plan.groups|
    && forall d :: 0 <= d < |plan.devices| ==> |plan.devices[d].byGroup| == |plan.groups|
  }

  /** A compiled channel has the shape the wheel indexes. */
  lemma CompiledIsShaped(ch: Resolve.ResolvedChannel, pollGroups: seq<PollGroup>, plan: ChannelPlan)
    requires Compiled(ch, pollGroups, plan)
    ensures PlanShaped(plan)
  {
  }

  /** The work of group `g` on the first `n` devices. */
  function GroupWork(plan: ChannelPlan, g: nat, n: nat): seq<Unit>
    requires PlanShaped(plan) && g < |plan.groups| && n <= |plan.devices|
  {
    if n == 0 then []
    else GroupWork(plan, g, n - 1)
         + if plan.devices[n - 1].byGroup[g] != [] then [Unit(plan.priorities[g], n - 1, g)] else []
  }

  /** The work of the first `n` groups with a given period. */
  function PeriodWork(plan: ChannelPlan, period: nat, n: nat): seq<Unit>
    requires PlanShaped(plan) && n <= |plan.groups|
  {
    if n == 0 then []
    else PeriodWork(plan, period, n - 1)
         + if plan.periods[n - 1] == period then GroupWork(plan, n - 1, |plan.devices|) else []
  }

  // ----- The stable sort by descending priority -----

  function InsertUnit(u: Unit, sorted: seq<Unit>): seq<Unit> {
    if sorted == [] || u.priority >= sorted[0].priority then [u] + sorted
    else [sorted[0]] + InsertUnit(u, sorted[1..])
  }

  function SortUnits(us: seq<Unit>): seq<Unit> {
    if us == [] then [] else InsertUnit(us[0], SortUnits(us[1..]))
  }

  predicate Descending(us: seq<Unit>) {
    forall i, j :: 0 <= i < j < |us| ==> us[i].priority >= us[j].priority
  }

  /** The units of one priority, in order. */
  function AtPriority(us: seq<Unit>, p: int): seq<Unit> {
    if us == [] then [] else (if us[0].priority == p then [us[0]] else []) + AtPriority(us[1..], p)
  }

  lemma {:induction false} InsertUnitKeeps(u: Unit, sorted: seq<Unit>)
    ensures multiset(InsertUnit(u, sorted)) == multiset{u} + multiset(sorted)
  {
    if sorted != [] && u.priority < sorted[0].priority {
      InsertUnitKeeps(u, sorted[1..]);
      assert sorted == [sorted[0]] + sorted[1..];
    }
  }

  lemma UnitCons(u: Unit, us: seq<Unit>)
    requires Descending(us) && forall x :: x in us ==> u.priority >= x.priority
    ensures Descending([u] + us)
  {
  }

  lemma {:induction false} InsertUnitSorts(u: Unit, sorted: seq<Unit>)
    requires Descending(sorted)
    ensures Descending(InsertUnit(u, sorted))
    ensures multiset(InsertUnit(u, sorted)) == multiset{u} + multiset(sorted)
  {
    InsertUnitKeeps(u, sorted);
    if sorted == [] || u.priority >= sorted[0].priority {
      UnitCons(u, sorted);
    } else {
      var rest := InsertUnit(u, sorted[1..]);
      InsertUnitSorts(u, sorted[1..]);
      forall x | x in rest
        ensures sorted[0].priority >= x.priority
      {
        assert x in multiset(rest);
        assert x == u || x in sorted[1..];
      }
      UnitCons(sorted[0], rest);
    }
  }

  lemma AtPriorityCons(u: Unit, us: seq<Unit>, p: int)
    ensures AtPriority([u] + us, p) == (if u.priority == p then [u] else []) + AtPriority(us, p)
  {
    assert ([u] + us)[1..] == us;
  }

  lemma {:induction false} InsertUnitIsStable(u: Unit, sorted: seq<Unit>, p: int)
    requires Descending(sorted)
    ensures AtPriority(InsertUnit(u, sorted), p) == (if u.priority == p then [u] else []) + AtPriority(sorted, p)
  {
    if sorted == [] || u.priority >= sorted[0].priority {
      AtPriorityCons(u, sorted, p);
    } else {
      var head, tail := sorted[0], sorted[1..];
      InsertUnitIsStable(u, tail, p);
      AtPriorityCons(head, InsertUnit(u, tail), p);
      AtPriorityCons(head, tail, p);
      assert sorted == [head] + tail;
      assert u.priority != p || head.priority != p;
    }
  }

  /** Sorted by descending priority, nothing lost, and in the old order within each
      priority. */
  lemma {:induction false} SortUnitsIsStable(us: seq<Unit>, p: int)
    ensures Descending(SortUnits(us)) && multiset(SortUnits(us)) == multiset(us)
    ensures AtPriority(SortUnits(us), p) == AtPriority(us, p)
  {
    if us != [] {
      SortUnitsIsStable(us[1..], p);
      InsertUnitSorts(us[0], SortUnits(us[1..]));
      InsertUnitIsStable(us[0], SortUnits(us[1..]), p);
      assert us == [us[0]] + us[1..];
    }
  }

  // ----- The wheel -----

  function Pairs(us: seq<Unit>): (ps: seq<(nat, nat)>)
    ensures |ps| == |us| && forall i :: 0 <= i < |us| ==> ps[i] == (us[i].device, us[i].group)
  {
    seq(|us|, i requires 0 <= i < |us| => (us[i].device, us[i].group))
  }

  /** All work of the fired slots, slot after slot. */
  function Gathered(dueMap: seq<seq<Unit>>, fired: seq<nat>): seq<Unit>
    requires forall i :: 0 <= i < |fired| ==> fired[i] < |dueMap|
  {
    if fired == [] then [] else Gathered(dueMap, fired[..|fired| - 1]) + dueMap[fired[|fired| - 1]]
  }

  class PollWheel {
    const plan: ChannelPlan
    const periods: seq<nat>
    const dueMap: seq<seq<Unit>>

    ghost predicate Valid() {
      && PlanShaped(plan) && StrictlyAscending(periods)
      && (forall p :: p in periods <==> p in plan.periods)
      && |dueMap| == |periods|
      && (forall s :: 0 <= s < |periods| ==> dueMap[s] == PeriodWork(plan, periods[s], |plan.groups|))
    }

    constructor (plan: ChannelPlan)
      requires PlanShaped(plan)
      ensures Valid() && this.plan == plan
    {
      var periods := SortAndDedup(plan.periods);
      var dueMap := FillSlots(plan, periods);
      this.plan, this.periods, this.dueMap := plan, periods, dueMap;
    }

    /** Pushes every group's work into the slot of its own period. */
    static method FillSlots(plan: ChannelPlan, periods: seq<nat>) returns (dueMap: seq<seq<Unit>>)
      requires PlanShaped(plan) && StrictlyAscending(periods) && forall p :: p in plan.periods ==> p in periods
      ensures |dueMap| == |periods|
      ensures forall s :: 0 <= s < |periods| ==> dueMap[s] == PeriodWork(plan, periods[s], |plan.groups|)
    {
      dueMap := seq(|periods|, _ => []);
      for g := 0 to |plan.groups|
        invariant |dueMap| == |periods|
        invariant forall s :: 0 <= s < |periods| ==> dueMap[s] == PeriodWork(plan, periods[s], g)
      {
        var slot := Position(periods, plan.periods[g]);
        var work := CollectGroup(plan, g);
        dueMap := dueMap[slot := dueMap[slot] + work];
      }
    }

    static method Position(periods: seq<nat>, p: nat) returns (s: nat)
      requires p in periods && StrictlyAscending(periods)
      ensures s < |periods| && periods[s] == p && forall k :: 0 <= k < |periods| && k != s ==> periods[k] != p
    {
      s := 0;
      while periods[s] != p
        invariant s < |periods| && p in periods[s..]
        decreases |periods| - s
      {
        s := s + 1;
      }
    }

    static method CollectGroup(plan: ChannelPlan, g: nat) returns (work: seq<Unit>)
      requires PlanShaped(plan) && g < |plan.groups|
      ensures work == GroupWork(plan, g, |plan.devices|)
    {
      work := [];
      for d := 0 to |plan.devices|
        invariant work == GroupWork(plan, g, d)
      {
        if plan.devices[d].byGroup[g] != [] {
          work := work + [Unit(plan.priorities[g], d, g)];
        }
      }
    }

    /** `next_due`, given the timers that have fired. */
    method NextDue(fired: seq<nat>) returns (batch: seq<(nat, nat)>)
      requires Valid() && StrictlyAscending(fired) && forall i :: 0 <= i < |fired| ==> fired[i] < |periods|
      ensures batch == Pairs(SortUnits(Gathered(dueMap, fired)))
      ensures DueInRange(plan.devices, batch)
    {
      var all: seq<Unit> := [];
      for i := 0 to |fired|
        invariant all == Gathered(dueMap, fired[..i])
      {
        assert fired[..i + 1][..i] == fired[..i];
        all := all + dueMap[fired[i]];
      }
      assert fired[..|fired|] == fired;
      batch := Pairs(SortUnits(all));
      forall i | 0 <= i < |batch|
        ensures batch[i].0 < |plan.devices| && batch[i].1 < |plan.devices[batch[i].0].byGroup|
      {
        SortUnitsIsStable(all, 0);
        assert SortUnits(all)[i] in multiset(all);
        UnitsAreReal(fired, SortUnits(all)[i]);
      }
    }

    lemma UnitsAreReal(fired: seq<nat>, u: Unit)
      requires Valid() && StrictlyAscending(fired) && forall i :: 0 <= i < |fired| ==> fired[i] < |periods|
      requires multiset(Gathered(dueMap, fired))[u] > 0
      ensures u.device < |plan.devices| && u.group < |plan.groups|
    {
      GatheredCounts(plan, periods, dueMap, fired, u);
      TimesIsMultiplicity(Gathered(dueMap, fired), u);
    }

    /** Each batch lists every fired (device, group) with work exactly once, and
        nothing else, in descending priority, stable within each priority. */
    lemma BatchIsExact(fired: seq<nat>, u: Unit)
      requires Valid() && StrictlyAscending(fired) && forall i :: 0 <= i < |fired| ==> fired[i] < |periods|
      ensures var batch := SortUnits(Gathered(dueMap, fired));
              && multiset(batch)[u]
                     == (if HasWork(plan, u) && Fires(periods, fired, plan.periods[u.group]) then 1 else 0)
              && (forall i, j :: 0 <= i < j < |batch| ==> batch[i].priority >= batch[j].priority)
              && AtPriority(batch, u.priority) == AtPriority(Gathered(dueMap, fired), u.priority)
    {
      GatheredCounts(plan, periods, dueMap, fired, u);
      TimesIsMultiplicity(Gathered(dueMap, fired), u);
      SortUnitsIsStable(Gathered(dueMap, fired), u.priority);
    }
  }

  // ----- Counting -----

  /** A planned unit of work. */
  predicate HasWork(plan: ChannelPlan, u: Unit)
    requires PlanShaped(plan)
  {
    && u.group < |plan.groups| && u.device < |plan.devices|
    && u.priority == plan.priorities[u.group] && plan.devices[u.device].byGroup[u.group] != []
  }

  ghost predicate Fires(periods: seq<nat>, fired: seq<nat>, period: nat) {
    exists i :: 0 <= i < |fired| && fired[i] < |periods| && periods[fired[i]] == period
  }

  /** How often a unit occurs. */
  function Times(us: seq<Unit>, u: Unit): nat {
    if us == [] then 0 else Times(us[..|us| - 1], u) + if us[|us| - 1] == u then 1 else 0
  }

  lemma {:induction false} TimesConcat(a: seq<Unit>, b: seq<Unit>, u: Unit)
    ensures Times(a + b, u) == Times(a, u) + Times(b, u)
  {
    if b == [] {
      assert a + b == a;
    } else {
      TimesConcat(a, b[..|b| - 1], u);
      assert (a + b)[..|a + b| - 1] == a + b[..|b| - 1];
    }
  }

  lemma {:induction false} TimesIsMultiplicity(us: seq<Unit>, u: Unit)
    ensures multiset(us)[u] == Times(us, u)
  {
    if us != [] {
      TimesIsMultiplicity(us[..|us| - 1], u);
      assert us == us[..|us| - 1] + [us[|us| - 1]];
    }
  }

  lemma GroupOneMore(plan: ChannelPlan, g: nat, n: nat, u: Unit)
    requires PlanShaped(plan) && g < |plan.groups| && n < |plan.devices|
    ensures Times(GroupWork(plan, g, n + 1), u)
         == Times(GroupWork(plan, g, n), u) + if HasWork(plan, u) && u.group == g && u.device == n then 1 else 0
  {
    var one := Unit(plan.priorities[g], n, g);
    if plan.devices[n].byGroup[g] != [] {
      TimesConcat(GroupWork(plan, g, n), [one], u);
      assert [one][..0] == [];
    } else {
      assert GroupWork(plan, g, n) + [] == GroupWork(plan, g, n);
    }
  }

  lemma {:induction false} GroupCounts(plan: ChannelPlan, g: nat, n: nat, u: Unit)
    requires PlanShaped(plan) && g < |plan.groups| && n <= |plan.devices|
    ensures Times(GroupWork(plan, g, n), u) == if HasWork(plan, u) && u.group == g && u.device < n then 1 else 0
  {
    if n > 0 {
      GroupCounts(plan, g, n - 1, u);
      GroupOneMore(plan, g, n - 1, u);
    }
  }

  predicate Due(plan: ChannelPlan, period: nat, n: nat, u: Unit)
    requires PlanShaped(plan)
  {
    HasWork(plan, u) && u.group < n && plan.periods[u.group] == period
  }

  lemma {:induction false} PeriodCounts(plan: ChannelPlan, period: nat, n: nat, u: Unit)
    requires PlanShaped(plan) && n <= |plan.groups|
    ensures Times(PeriodWork(plan, period, n), u) == if Due(plan, period, n, u) then 1 else 0
  {
    if n > 0 {
      PeriodCounts(plan, period, n - 1, u);
      GroupCounts(plan, n - 1, |plan.devices|, u);
      TimesConcat(PeriodWork(plan, period, n - 1), GroupWork(plan, n - 1, |plan.devices|), u);
      TimesConcat(PeriodWork(plan, period, n - 1), [], u);
    }
  }

  lemma {:induction false} GatheredCounts(plan: ChannelPlan, periods: seq<nat>, dueMap: seq<seq<Unit>>, fired: seq<nat>,
                                          u: Unit)
    requires PlanShaped(plan) && StrictlyAscending(periods) && |dueMap| == |periods|
    requires forall s :: 0 <= s < |periods| ==> dueMap[s] == PeriodWork(plan, periods[s], |plan.groups|)
    requires StrictlyAscending(fired) && forall i :: 0 <= i < |fired| ==> fired[i] < |periods|
    ensures Times(Gathered(dueMap, fired), u)
         == if HasWork(plan, u) && Fires(periods, fired, plan.periods[u.group]) then 1 else 0
  {
    if fired != [] {
      var n := |fired| - 1;
      GatheredCounts(plan, periods, dueMap, fired[..n], u);
      PeriodCounts(plan, periods[fired[n]], |plan.groups|, u);
      TimesConcat(Gathered(dueMap, fired[..n]), dueMap[fired[n]], u);
      if HasWork(plan, u) {
        FiresOneMore(periods, fired, n, plan.periods[u.group]);
      }
    }
  }

  lemma FiresOneMore(periods: seq<nat>, fired: seq<nat>, n: nat, period: nat)
    requires StrictlyAscending(periods) && StrictlyAscending(fired) && n + 1 == |fired|
    requires forall i :: 0 <= i < |fired| ==> fired[i] < |periods|
    ensures Fires(periods, fired, period) <==> Fires(periods, fired[..n], period) || periods[fired[n]] == period
    ensures periods[fired[n]] == period ==> !Fires(periods, fired[..n], period)
  {
    if Fires(periods, fired[..n], period) {
      var i :| 0 <= i < n && periods[fired[..n][i]] == period;
      assert periods[fired[i]] == period;
    }
    if Fires(periods, fired, period) {
      var i :| 0 <= i < |fired| && periods[fired[i]] == period;
      assert i < n ==> fired[..n][i] == fired[i];
    }
  }
}
