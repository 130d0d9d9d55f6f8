/** Bounds on the times that the integration leaves in the members of a cycle and in whole profiles. */
module Bounds {
  import opened Graphs
  import opened Sums
  import opened Inclusive
  import opened Ratios
  import opened Totals
  import opened CycleFlow
  import opened Settlement
  import Passes

  // ----- normalised counts -----

  /** Positive counts are normalised to positive ratios. */
  lemma {:induction false} NormalisedPositive(k: Counts, time: map<FunctionId, real>)
    requires k.Valid() && k.Nonnegative() && k.Positive() && time.Keys == k.calls.Keys
    requires forall u :: u in time ==> time[u] >= 0.0
    ensures Normalised(k, time).Valid() && Normalised(k, time).Nonnegative() && Normalised(k, time).Positive()
  {
    hide SumOf, Reach, CrossTotal, FunctionTotal, Ratio;
    forall u, v | u in k.calls && v in k.calls[u] && v != u
      ensures CallRatioOf(k, u, v) > 0.0
    {
      FunctionTotalBound(k, u, v);
      if Crosses(k.calls, u, v) {
        InOwnComponent(k.calls, v);
        CrossCountBound(k, Component(k.calls, v), u, v);
        CrossRatioTotal(k, u, v);
        CrossCountIs(k, u, v);
      } else {
        InnerRatioTotal(k, u, v);
      }
      RatioExact(CallCount(k, u, v), RatioTotal(k, u, v));
    }
  }

  lemma {:induction false} CrossCountIs(k: Counts, u: FunctionId, v: FunctionId)
    requires Crosses(k.calls, u, v) && v != u
    ensures CrossCount(k, u, v) == CallCount(k, u, v)
  {
  }

  lemma {:induction false} InnerRatioTotal(k: Counts, u: FunctionId, v: FunctionId)
    requires u in k.calls && v in k.calls[u] && !Crosses(k.calls, u, v)
    ensures RatioTotal(k, u, v) == FunctionTotal(k, v)
  {
  }

  lemma {:induction false} FunctionTotalBound(k: Counts, u: FunctionId, v: FunctionId)
    requires k.Nonnegative() && u in k.calls
    ensures 0.0 <= CallCount(k, u, v) <= FunctionTotal(k, v)
  {
    var counts := map w | w in k.calls :: CallCount(k, w, v);
    SumNonnegative(counts);
    assert counts[u] == CallCount(k, u, v);
  }

  /** The ratio of a call between different members of a component. */
  ghost function InnerCallRatio(k: Counts, u: FunctionId, v: FunctionId): real {
    if u in k.calls && v in k.calls[u] && v != u then CallRatioOf(k, u, v) else 0.0
  }

  /** What the members of `v`'s own component take over of its time is at most all of it. */
  lemma {:induction false} InnerInflowAtMostOne(k: Counts, v: FunctionId)
    requires k.Valid() && k.Nonnegative() && k.Positive() && v in k.calls
    ensures SumOf(map u | u in Component(k.calls, v) :: InnerCallRatio(k, u, v)) <= 1.0
  {
    hide SumOf, Reach, Ratio, FunctionTotal, Times;
    var c := Component(k.calls, v);
    var counts := map u | u in c :: CallCount(k, u, v);
    var ratios := map u | u in c :: InnerCallRatio(k, u, v);
    var total := FunctionTotal(k, v);
    InnerCounts(k, v, c);
    if u :| u in c && u != v && v in k.calls[u] {
      FunctionTotalBound(k, u, v);
      forall w | w in c
        ensures ratios[w] == Times(1.0 / total, counts[w])
      {
        FunctionTotalBound(k, w, v);
        RatioExact(CallCount(k, w, v), total);
        InnerCallRatioIs(k, w, v);
      }
      SumScale(1.0 / total, counts, ratios);
      TimesQuotient(total, SumOf(counts));
    } else {
      SumZero(ratios);
    }
  }

  lemma {:induction false} TimesQuotient(total: real, part: real)
    requires 0.0 <= part <= total && 0.0 < total
    ensures Times(1.0 / total, part) <= 1.0
    ensures Times(1.0 / total, 0.0) == 0.0
  {
    assert Times(1.0 / total, part) == part / total;
  }

  lemma {:induction false} InnerCallRatioIs(k: Counts, u: FunctionId, v: FunctionId)
    requires u in Component(k.calls, v) && FunctionTotal(k, v) > 0.0
    ensures InnerCallRatio(k, u, v) == Ratio(CallCount(k, u, v), FunctionTotal(k, v))
  {
    hide Reach, SumOf, FunctionTotal;
    if u in k.calls && v in k.calls[u] && v != u {
      InComponentEither(k.calls, u, v);
    }
  }

  lemma {:induction false} InComponentEither(g: Graph, u: FunctionId, v: FunctionId)
    requires u in Component(g, v)
    ensures v in Component(g, u)
  {
    ReachEnds(g, u, v);
  }

  lemma {:induction false} InnerCounts(k: Counts, v: FunctionId, c: set<FunctionId>)
    requires k.Nonnegative() && c <= k.calls.Keys
    ensures 0.0 <= SumOf(map u | u in c :: CallCount(k, u, v)) <= FunctionTotal(k, v)
  {
    var all, part := map u | u in k.calls :: CallCount(k, u, v), map u | u in c :: CallCount(k, u, v);
    SumNonnegative(part);
    SumSubset(part, all);
  }

  /** Two quotients with the same denominator are in proportion to their numerators. */
  lemma {:induction false} RatiosInProportion(a: real, b: real, d: real)
    requires 0.0 <= a <= d && 0.0 <= b <= d
    ensures Times(Ratio(a, d), b) == Times(Ratio(b, d), a)
  {
    if d > 0.0 {
      RatioExact(a, d);
      RatioExact(b, d);
      assert a / d * b == b / d * a;
    }
  }

  /** The ratios of the calls of a function from within its component are in proportion to their counts. */
  lemma {:induction false} InnerProportion(k: Counts, u: FunctionId, w: FunctionId, v: FunctionId)
    requires k.Valid() && k.Nonnegative() && u in Component(k.calls, v) && w in Component(k.calls, v)
    requires u in k.calls && w in k.calls && v in k.calls[u] && v in k.calls[w] && u != v && w != v
    ensures Times(CallRatioOf(k, u, v), k.count[(w, v)]) == Times(CallRatioOf(k, w, v), k.count[(u, v)])
  {
    hide SumOf, Reach, Ratio, FunctionTotal, Times;
    InComponentEither(k.calls, u, v);
    InComponentEither(k.calls, w, v);
    FunctionTotalBound(k, u, v);
    FunctionTotalBound(k, w, v);
    RatiosInProportion(CallCount(k, u, v), CallCount(k, w, v), FunctionTotal(k, v));
  }

  /** So are the ratios of all calls that enter a component, whichever of its members they call. */
  lemma {:induction false} CrossProportion(k: Counts, u: FunctionId, v: FunctionId, u': FunctionId, v': FunctionId)
    requires k.Valid() && k.Nonnegative() && Crosses(k.calls, u, v) && Crosses(k.calls, u', v')
    requires v in k.calls && v' in Component(k.calls, v)
    ensures u != v && u' != v'
    ensures Times(CallRatioOf(k, u, v), k.count[(u', v')]) == Times(CallRatioOf(k, u', v'), k.count[(u, v)])
  {
    hide SumOf, Reach, Ratio, Times, CrossTotal, FunctionTotal, Component;
    var c := Component(k.calls, v);
    InOwnComponent(k.calls, v);
    ComponentShared(k.calls, v, v');
    CrossRatioTotal(k, u, v);
    CrossRatioTotal(k, u', v');
    CrossCountBound(k, c, u, v);
    CrossCountBound(k, c, u', v');
    InOwnComponent(k.calls, u);
    InOwnComponent(k.calls, u');
    RatiosInProportion(CrossCount(k, u, v), CrossCount(k, u', v'), CrossTotal(k, c));
  }

  /** What the callers in `v`'s own component do not take over is in proportion to the calls from outside. */
  lemma {:induction false} InnerInflowExact(k: Counts, v: FunctionId)
    requires k.Valid() && k.Nonnegative() && v in k.calls && FunctionTotal(k, v) > 0.0
    ensures FunctionTotal(k, v) == SumOf(map u | u in Component(k.calls, v) :: CallCount(k, u, v)) + CrossInto(k, v)
    ensures Times(1.0 - SumOf(map u | u in Component(k.calls, v) :: InnerCallRatio(k, u, v)), FunctionTotal(k, v)) ==
      CrossInto(k, v)
  {
    hide SumOf, Reach, Ratio, FunctionTotal, Times, Component, CrossInto;
    var c, total := Component(k.calls, v), FunctionTotal(k, v);
    var counts := map u | u in c :: CallCount(k, u, v);
    var ratios := map u | u in c :: InnerCallRatio(k, u, v);
    TotalSplit(k, v);
    forall w | w in c
      ensures w in k.calls && ratios[w] == Times(1.0 / total, counts[w])
    {
      MemberCalls(k.calls, v, w);
      FunctionTotalBound(k, w, v);
      RatioExact(CallCount(k, w, v), total);
      InnerCallRatioIs(k, w, v);
    }
    SumScale(1.0 / total, counts, ratios);
    RestOf(total, SumOf(counts));
  }

  lemma {:induction false} MemberCalls(g: Graph, v: FunctionId, w: FunctionId)
    requires w in Component(g, v)
    ensures w in g
  {
  }

  lemma {:induction false} RestOf(total: real, part: real)
    requires total > 0.0
    ensures Times(1.0 - Times(1.0 / total, part), total) == total - part
  {
    assert Times(1.0 / total, part) == part / total;
  }

  /** A function is called from within its component or from outside of it. */
  lemma {:induction false} TotalSplit(k: Counts, v: FunctionId)
    requires k.Valid() && v in k.calls
    ensures FunctionTotal(k, v) == SumOf(map u | u in Component(k.calls, v) :: CallCount(k, u, v)) + CrossInto(k, v)
  {
    hide SumOf, Reach, Component;
    var c := Component(k.calls, v);
    var all, crossing := map u | u in k.calls :: CallCount(k, u, v), map u | u in k.calls :: CrossCount(k, u, v);
    var inner := map u | u in c :: CallCount(k, u, v);
    var padded := map u | u in k.calls :: if u in c then CallCount(k, u, v) else 0.0;
    forall u | u in c
      ensures u in k.calls
    {
      MemberCalls(k.calls, v, u);
    }
    SumExtend(inner, padded);
    forall u | u in k.calls
      ensures all[u] == padded[u] + crossing[u]
    {
      InOrOut(k, u, v);
    }
    SumPlus(padded, crossing, all);
  }

  lemma {:induction false} InOrOut(k: Counts, u: FunctionId, v: FunctionId)
    requires u in k.calls && v in k.calls
    ensures u in Component(k.calls, v) ==> CrossCount(k, u, v) == 0.0
    ensures u !in Component(k.calls, v) ==> CrossCount(k, u, v) == CallCount(k, u, v)
  {
    InOwnComponent(k.calls, v);
  }

  // ----- the members of a cycle -----

  /** The callers of an entry take over, through the pass for it, at most their share of the cycle's time. */
  lemma {:induction false} MemberPart(f: Flow, e: FunctionId, u: FunctionId)
    requires f.Valid() && f.Nonnegative() && f.Positive() && e in Component(f.calls, u)
    ensures PassOf(f, e).Valid() && u in PassOf(f, e).Members()
    ensures 0.0 <= Partial(PassOf(f, e), u) <= Times(InclusiveTime(f, u), Inflow(f, f.calls.Keys, e))
    ensures u == e ==> Partial(PassOf(f, e), u) == Times(InclusiveTime(f, u), Inflow(f, f.calls.Keys, e))
  {
    hide Reach, Partial, InclusiveTime, RanksOf, Inflow, Component, SumOf;
    var p := PassOf(f, e);
    EntryOf(f, e, u);
    InflowNonnegative(f, e);
    Passes.PositivePass(f, e);
    EntryIsMaximal(p, u);
    EntryTakesShare(p);
    InclusiveShared(f, u, e);
    TimesCommutes(InclusiveTime(f, u), p.share);
  }

  lemma {:induction false} InflowNonnegative(f: Flow, v: FunctionId)
    requires f.Nonnegative()
    ensures Inflow(f, f.calls.Keys, v) >= 0.0
  {
    SumNonnegative(map u | u in f.calls.Keys :: Weight(f, u, v));
  }

  /** Nothing from outside flows into a function that is not an entry. */
  lemma {:induction false} NoInflow(f: Flow, v: FunctionId)
    requires f.Valid() && v in f.calls && v !in Entries(f.calls, Component(f.calls, v))
    ensures Inflow(f, f.calls.Keys, v) == 0.0
  {
    hide Reach, SumOf;
    InOwnComponent(f.calls, v);
    forall w | w in f.calls
      ensures Weight(f, w, v) == 0.0
    {
      if w in Component(f.calls, v) {
        ComponentShared(f.calls, v, w);
      }
    }
    SumZero(map w | w in f.calls.Keys :: Weight(f, w, v));
  }

  /** Only the entries of a component contribute to its inflow. */
  lemma {:induction false} EntriesInflow(f: Flow, u: FunctionId)
    requires f.Valid() && u in f.calls
    ensures ComponentInflow(f, f.calls.Keys, Component(f.calls, u)) ==
      SumOf(map e | e in Entries(f.calls, Component(f.calls, u)) :: Inflow(f, f.calls.Keys, e))
  {
    hide Reach, SumOf, Inflow;
    var c := Component(f.calls, u);
    forall v | v in c && v !in Entries(f.calls, c)
      ensures Inflow(f, f.calls.Keys, v) == 0.0
    {
      ComponentShared(f.calls, u, v);
      NoInflow(f, v);
    }
    SumExtend(map e | e in Entries(f.calls, c) :: Inflow(f, f.calls.Keys, e),
        map v | v in c :: Inflow(f, f.calls.Keys, v));
  }

  /** A component is entered exactly when it has entries. */
  lemma {:induction false} EntriesEntered(g: Graph, u: FunctionId)
    requires u in g
    ensures Entered(g, Component(g, u)) <==> Entries(g, Component(g, u)) != {}
  {
    hide Reach;
    var c := Component(g, u);
    if Entered(g, c) {
      var w, v :| v in c && Crosses(g, w, v);
      ComponentShared(g, u, v);
      if w in c {
        ComponentShared(g, u, w);
      }
      assert v in Entries(g, c);
    }
    if v :| v in Entries(g, c) {
      var w :| w in g && w !in c && v in g[w];
      if v in Component(g, w) {
        ComponentShared(g, w, v);
        ComponentShared(g, u, v);
        InOwnComponent(g, w);
      }
      assert Crosses(g, w, v);
    }
  }

  /** No member of a cycle gets more than the time of the cycle; a cycle that nobody calls passes
      nothing on to its members; a single entry gets all of it. */
  lemma {:induction false} MemberBound(f: Flow, u: FunctionId)
    requires f.Valid() && f.Nonnegative() && f.Positive() && Balanced(f) && u in f.calls
    ensures 0.0 <= FunctionOut(f, u) <= InclusiveTime(f, u)
    ensures Recursive(f.calls, u) && Entries(f.calls, Component(f.calls, u)) == {} ==> FunctionOut(f, u) == 0.0
    ensures Entries(f.calls, Component(f.calls, u)) == {u} ==> FunctionOut(f, u) == InclusiveTime(f, u)
  {
    hide Reach, SumOf, InclusiveTime, PassOf, Inflow, ComponentInflow, Times, Partial, Component, Entered, Entries;
    InclusiveNonnegative(f, u);
    if Recursive(f.calls, u) {
      var c := Component(f.calls, u);
      var es := Entries(f.calls, c);
      Passes.EntriesInside(f.calls, c);
      var parts, all :=
        MemberTimes(f, es, u), map e | e in es :: Times(InclusiveTime(f, u), Inflow(f, f.calls.Keys, e));
      forall e | e in es
        ensures 0.0 <= parts[e] <= all[e] && (u == e ==> parts[e] == all[e])
      {
        MemberPart(f, e, u);
      }
      SumNonnegative(parts);
      SumLeq(parts, all);
      SumScale(InclusiveTime(f, u), map e | e in es :: Inflow(f, f.calls.Keys, e), all);
      EntriesInflow(f, u);
      EntriesEntered(f.calls, u);
      assert IsComponent(f.calls, c);
      TimesSurplus(InclusiveTime(f, u), 0.0);
      if es == {u} {
        assert parts == all;
      }
      if es == {} {
        SumZero(parts);
      }
    }
  }
}
