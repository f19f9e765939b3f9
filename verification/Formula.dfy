/** What one tag makes of its inputs: `Transform` of `tags-core/src/formula.rs` and
    the body of the evaluation loop of `tags-core/src/engine.rs`. */
module Formula {
  import opened MbTypes
  import opened Graph
  import opened Typed

  /** The linear transform. */
  function Scaled(raw: real, scale: real, offset: real): real {
    raw * scale + offset
  }

  /** A formula is a function of the decoded value and of what `tag()` reads of
      each tag it names; it may fail. */
  datatype Transform =
    | Linear(scale: real, offset: real)
    | Expr(readsRaw: bool, eval: (real, seq<Option<real>>) -> Option<real>)
  {
    predicate UsesRaw() {
      Linear? || readsRaw
    }

    predicate IsIdentity() {
      Linear? && scale == 1.0 && offset == 0.0
    }

    /** `apply`: text and bytes pass through untouched. */
    function Apply(v: TypedValue, deps: seq<Option<real>>): Option<TypedValue> {
      if IsIdentity() || v.Text? || v.Bytes? || v.Empty? then Some(v)
      else if v.NotFinite? then (if Linear? then Some(NotFinite) else None)
      else
        match this
        case Linear(scale, offset) => Some(Float(Scaled(v.Number().value, scale, offset)))
        case Expr(_, eval) =>
          match eval(v.Number().value, deps)
          case Some(x) => Some(Float(x))
          case None => None
    }
  }

  /** A tag's recipe, compiled once. `deadband` is positive. */
  datatype TagMeta = TagMeta(decode: RawValue -> Option<TypedValue>, transform: Transform, deadband: Option<real>)

  /** What a tag currently stands for: a usable value, or a quality below Good. */
  datatype Outcome = Usable(value: TypedValue) | Degraded(quality: Quality) {
    function Quality(): Quality {
      if Usable? then Good else quality
    }

    function Number(): Option<real> {
      if Usable? then value.Number() else None
    }
  }

  function OutcomeOf(s: TypedSnapshot): Outcome {
    if s.quality == Good then Usable(s.value) else Degraded(s.quality)
  }

  function Outcomes(slots: seq<TypedSnapshot>): (out: seq<Outcome>)
    ensures |out| == |slots| && forall t :: 0 <= t < |slots| ==> out[t] == OutcomeOf(slots[t])
  {
    seq(|slots|, t requires 0 <= t < |slots| => OutcomeOf(slots[t]))
  }

  /** The worse of two qualities. */
  function Worse(a: Quality, b: Quality): Quality {
    if a.Bad? || b.Bad? then Bad else if a.Uncertain? || b.Uncertain? then Uncertain else Good
  }

  function Worst(q: Quality, inputs: seq<Outcome>): Quality {
    if inputs == [] then q else Worse(Worst(q, inputs[..|inputs| - 1]), inputs[|inputs| - 1].Quality())
  }

  function Numbers(inputs: seq<Outcome>): (ns: seq<Option<real>>)
    ensures |ns| == |inputs| && forall k :: 0 <= k < |inputs| ==> ns[k] == inputs[k].Number()
  {
    seq(|inputs|, k requires 0 <= k < |inputs| => inputs[k].Number())
  }

  /** The value of a tag whose inputs are all Good. */
  function Value(meta: TagMeta, raw: RawValue, numbers: seq<Option<real>>): Outcome {
    match if meta.transform.UsesRaw() then meta.decode(raw) else Some(Float(0.0))
    case None => Degraded(Bad)
    case Some(v) =>
      match meta.transform.Apply(v, numbers)
      case None => Degraded(Bad)
      case Some(out) => if out.NotFinite? then Degraded(Bad) else Usable(out)
  }

  function InputQuality(meta: TagMeta, raw: Snapshot, inputs: seq<Outcome>): Quality {
    Worst(if meta.transform.UsesRaw() then raw.quality else Good, inputs)
  }

  /** A tag from its raw snapshot and the outcomes of the tags it reads. */
  function Evaluate(meta: TagMeta, raw: Snapshot, inputs: seq<Outcome>): Outcome {
    var q := InputQuality(meta, raw, inputs);
    if q != Good then Degraded(q) else Value(meta, raw.value, Numbers(inputs))
  }

  /** The worst input decides: Bad if any is Bad, else Uncertain if any is. */
  lemma {:induction false} WorstIsWorst(q: Quality, inputs: seq<Outcome>)
    ensures Worst(q, inputs).Bad? <==> q.Bad? || exists k :: 0 <= k < |inputs| && inputs[k].Quality().Bad?
    ensures Worst(q, inputs).Good? <==> q.Good? && forall k :: 0 <= k < |inputs| ==> inputs[k].Quality().Good?
  {
    if inputs != [] {
      WorstIsWorst(q, inputs[..|inputs| - 1]);
    }
  }

  // ----- All tags at once -----

  function Pick(out: seq<Outcome>, tags: seq<TagId>): (inputs: seq<Outcome>)
    requires forall d :: d in tags ==> d < |out|
    ensures |inputs| == |tags| && forall k :: 0 <= k < |tags| ==> tags[k] in tags && inputs[k] == out[tags[k]]
  {
    seq(|tags|, k requires 0 <= k < |tags| => assert tags[k] in tags; out[tags[k]])
  }

  ghost predicate Holds(deps: Edges, metas: seq<TagMeta>, raws: seq<Snapshot>, out: seq<Outcome>, t: TagId)
    requires WellFormed(deps) && |metas| == |raws| == |out| == |deps| && t < |deps|
  {
    out[t] == Evaluate(metas[t], raws[t], Pick(out, deps[t]))
  }

  /** `out` is an evaluation of every tag from scratch: each tag's outcome is what
      its recipe makes of its raw snapshot and of the outcomes it reads. */
  ghost predicate Solves(deps: Edges, metas: seq<TagMeta>, raws: seq<Snapshot>, out: seq<Outcome>) {
    && WellFormed(deps) && |metas| == |raws| == |out| == |deps|
    && forall t :: 0 <= t < |deps| ==> Holds(deps, metas, raws, out, t)
  }

  /** On an acyclic graph there is no second solution, whatever the order. */
  lemma {:induction false} SolutionIsUnique(deps: Edges, metas: seq<TagMeta>, raws: seq<Snapshot>, a: seq<Outcome>,
                                            b: seq<Outcome>, order: seq<TagId>)
    requires EvaluationOrder(deps, order) && Solves(deps, metas, raws, a) && Solves(deps, metas, raws, b)
    ensures a == b
  {
    SolutionsAgree(deps, metas, raws, a, b, order, |order|);
    assert order[..|order|] == order;
  }

  lemma {:induction false} SolutionsAgree(deps: Edges, metas: seq<TagMeta>, raws: seq<Snapshot>, a: seq<Outcome>,
                                          b: seq<Outcome>, order: seq<TagId>, k: nat)
    requires Ordered(deps, order) && Solves(deps, metas, raws, a) && Solves(deps, metas, raws, b) && k <= |order|
    ensures forall t :: t in order[..k] ==> t < |deps| && a[t] == b[t]
  {
    if k > 0 {
      SolutionsAgree(deps, metas, raws, a, b, order, k - 1);
      var t := order[k - 1];
      assert order[..k] == order[..k - 1] + [t];
      assert Holds(deps, metas, raws, a, t) && Holds(deps, metas, raws, b, t);
      assert Pick(a, deps[t]) == Pick(b, deps[t]);
    }
  }

  /** Quality reaches through any chain of formulas: below a Bad tag all is Bad,
      below an Uncertain one nothing is Good. */
  lemma {:induction false} QualityPropagates(deps: Edges, metas: seq<TagMeta>, raws: seq<Snapshot>, out: seq<Outcome>,
                                             p: seq<TagId>)
    requires Solves(deps, metas, raws, out) && Path(deps, p)
    ensures p[0] < |out| && p[|p| - 1] < |out|
    ensures out[p[|p| - 1]].Quality().Bad? ==> out[p[0]] == Degraded(Bad)
    ensures !out[p[|p| - 1]].Quality().Good? ==> !out[p[0]].Quality().Good?
    decreases |p|
  {
    PathInRange(deps, p, |p| - 1);
    var t := p[0];
    assert Holds(deps, metas, raws, out, t);
    if |p| == 1 {
      OutcomeIsHonest(metas[t], raws[t], Pick(out, deps[t]));
    } else {
      var rest := p[1..];
      assert Link(deps, p[0], p[1]);
      forall i | 0 <= i < |rest| - 1
        ensures Link(deps, rest[i], rest[i + 1])
      {
        assert Link(deps, p[i + 1], p[i + 2]);
      }
      QualityPropagates(deps, metas, raws, out, rest);
      assert rest[0] == p[1] && rest[|rest| - 1] == p[|p| - 1];
      var k :| 0 <= k < |deps[t]| && deps[t][k] == p[1];
      WorstIsWorst(if metas[t].transform.UsesRaw() then raws[t].quality else Good, Pick(out, deps[t]));
      assert Pick(out, deps[t])[k] == out[p[1]];
      OutcomeIsHonest(metas[t], raws[t], Pick(out, deps[t]));
    }
  }

  /** No outcome is degraded to Good. */
  lemma OutcomeIsHonest(meta: TagMeta, raw: Snapshot, inputs: seq<Outcome>)
    ensures var o := Evaluate(meta, raw, inputs); o.Degraded? ==> o.quality != Good
    ensures InputQuality(meta, raw, inputs) != Good ==>
              Evaluate(meta, raw, inputs) == Degraded(InputQuality(meta, raw, inputs))
  {
  }

  /** A Bad raw input makes every tag that depends on it Bad, if its own recipe
      reads it. */
  lemma {:induction false} BadInputsPropagate(deps: Edges, metas: seq<TagMeta>, raws: seq<Snapshot>, out: seq<Outcome>,
                                              t: TagId, d: TagId)
    requires Solves(deps, metas, raws, out) && DependsOn(deps, t, d) && d < |deps|
    requires metas[d].transform.UsesRaw()
    ensures t < |out|
    ensures raws[d].quality.Bad? ==> out[t] == Degraded(Bad)
    ensures raws[d].quality.Uncertain? ==> !out[t].Quality().Good?
  {
    var p :| Path(deps, p) && p[0] == t && p[|p| - 1] == d;
    assert Holds(deps, metas, raws, out, d);
    WorstIsWorst(raws[d].quality, Pick(out, deps[d]));
    QualityPropagates(deps, metas, raws, out, p);
  }

  // ----- What a tag means -----

  /** The numbers that a formula reads: of tags that are not numbers, none. */
  function NumbersRead(out: seq<Outcome>, tags: seq<TagId>): (ns: seq<Option<real>>)
    requires forall d :: d in tags ==> d < |out| && out[d].Usable?
  {
    seq(|tags|, k requires 0 <= k < |tags| => assert tags[k] in tags; out[tags[k]].value.Number())
  }

  /** All that tag `t` rests on is Good: the tags it reads, and its own snapshot if
      it reads that. */
  ghost predicate AllGood(deps: Edges, metas: seq<TagMeta>, raws: seq<Snapshot>, out: seq<Outcome>, t: TagId)
    requires |metas| == |raws| == |out| == |deps| && t < |deps|
  {
    && (forall d :: d in deps[t] ==> d < |out| && out[d].Usable?)
    && (metas[t].transform.Linear? || metas[t].transform.readsRaw ==> raws[t].quality == Good)
  }

  /** A formula tag is what its formula makes of the decoded number (zero if it does
      not read it) and of the numbers of the tags it names; Bad if that fails. */
  lemma FormulaIsEvaluated(deps: Edges, metas: seq<TagMeta>, raws: seq<Snapshot>, out: seq<Outcome>, t: TagId, x: real)
    requires Solves(deps, metas, raws, out) && t < |deps| && metas[t].transform.Expr?
    requires AllGood(deps, metas, raws, out, t)
    requires if metas[t].transform.readsRaw
             then metas[t].decode(raws[t].value).Some? && metas[t].decode(raws[t].value).value.Number() == Some(x)
             else x == 0.0
    ensures out[t] == (match metas[t].transform.eval(x, NumbersRead(out, deps[t]))
                       case Some(y) => Usable(Float(y))
                       case None => Degraded(Bad))
  {
    var inputs := Pick(out, deps[t]);
    assert Holds(deps, metas, raws, out, t);
    WorstIsWorst(if metas[t].transform.UsesRaw() then raws[t].quality else Good, inputs);
    assert Numbers(inputs) == NumbersRead(out, deps[t]);
  }

  /** A linear tag is `x * scale + offset` of the decoded number `x`; without scale
      and offset it keeps the decoded value as it is. */
  lemma LinearIsScaled(deps: Edges, metas: seq<TagMeta>, raws: seq<Snapshot>, out: seq<Outcome>, t: TagId,
                       v: TypedValue)
    requires Solves(deps, metas, raws, out) && t < |deps| && metas[t].transform.Linear?
    requires AllGood(deps, metas, raws, out, t) && metas[t].decode(raws[t].value) == Some(v)
    ensures v.Number().Some? ==>
              out[t] == Usable(if metas[t].transform.scale == 1.0 && metas[t].transform.offset == 0.0 then v
                               else Float(v.Number().value * metas[t].transform.scale + metas[t].transform.offset))
    ensures v.NotFinite? ==> out[t] == Degraded(Bad)
  {
    assert Holds(deps, metas, raws, out, t);
    WorstIsWorst(raws[t].quality, Pick(out, deps[t]));
  }

  lemma LinearNumber(deps: Edges, metas: seq<TagMeta>, raws: seq<Snapshot>, out: seq<Outcome>, t: TagId, v: TypedValue)
    requires Solves(deps, metas, raws, out) && t < |deps| && metas[t].transform.Linear?
    requires AllGood(deps, metas, raws, out, t) && metas[t].decode(raws[t].value) == Some(v) && v.Number().Some?
    ensures out[t].Usable?
    ensures out[t].value.Number() == Some(v.Number().value * metas[t].transform.scale + metas[t].transform.offset)
  {
    LinearIsScaled(deps, metas, raws, out, t, v);
    if metas[t].transform.scale == 1.0 && metas[t].transform.offset == 0.0 {
      assert v.Number().value * metas[t].transform.scale == v.Number().value;
    }
  }

  /** Text and bytes pass through every transform that reads them; what does not
      decode is Bad. */
  lemma TextPassesThrough(deps: Edges, metas: seq<TagMeta>, raws: seq<Snapshot>, out: seq<Outcome>, t: TagId)
    requires Solves(deps, metas, raws, out) && t < |deps| && AllGood(deps, metas, raws, out, t)
    requires metas[t].transform.Linear? || metas[t].transform.readsRaw
    ensures match metas[t].decode(raws[t].value)
            case None => out[t] == Degraded(Bad)
            case Some(v) => v.Text? || v.Bytes? ==> out[t] == Usable(v)
  {
    assert Holds(deps, metas, raws, out, t);
    WorstIsWorst(raws[t].quality, Pick(out, deps[t]));
  }
}
