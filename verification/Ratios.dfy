/** Call ratios: how the time of a callee is divided among its callers. */
module Ratios {
  import opened Graphs
  import opened Sums
  import opened Inclusive

  /** A quotient forced into the unit interval; anything over zero counts as one. */
  function Ratio(numerator: real, denominator: real): real {
    if denominator == 0.0 then 1.0
    else
      var ratio := numerator / denominator;
      if ratio < 0.0 then 0.0 else if ratio > 1.0 then 1.0 else ratio
  }

  function Gap(a: real, b: real): real {
    if a < b then b - a else a - b
  }

  /** The ratio is the number of the unit interval that is closest to the quotient, and one if there is
      nothing to divide by. */
  lemma {:induction false} RatioClosest(n: real, d: real, x: real)
    ensures 0.0 <= Ratio(n, d) <= 1.0
    ensures d == 0.0 ==> Ratio(n, d) == 1.0
    ensures d != 0.0 && 0.0 <= x <= 1.0 ==> Gap(Ratio(n, d), n / d) <= Gap(x, n / d)
    ensures d != 0.0 && 0.0 <= n / d <= 1.0 ==> Ratio(n, d) == n / d
  {
  }

  /** Between zero and a positive bound the quotient is exact. */
  lemma {:induction false} RatioExact(n: real, d: real)
    requires 0.0 <= n <= d && 0.0 < d
    ensures Ratio(n, d) == n / d && 0.0 <= Ratio(n, d) <= 1.0
    ensures Ratio(n, d) == Times(1.0 / d, n)
    ensures 0.0 < n ==> 0.0 < Ratio(n, d)
  {
  }

  /** A call graph with the number of times every call was made. */
  datatype Counts = Counts(calls: Graph, count: map<(FunctionId, FunctionId), real>) {
    ghost predicate Valid() {
      && Closed(calls)
      && forall u, v :: u in calls && v in calls[u] && v != u ==> (u, v) in count
    }

    ghost predicate Nonnegative() {
      forall e :: e in count ==> count[e] >= 0.0
    }

    ghost predicate Positive() {
      forall u, v :: u in calls && v in calls[u] && v != u && (u, v) in count ==> count[(u, v)] > 0.0
    }
  }

  ghost predicate Crosses(g: Graph, u: FunctionId, v: FunctionId) {
    u in g && v in g[u] && v !in Component(g, u)
  }

  ghost function CrossCount(k: Counts, u: FunctionId, v: FunctionId): real {
    if Crosses(k.calls, u, v) && (u, v) in k.count then k.count[(u, v)] else 0.0
  }

  ghost function CallCount(k: Counts, u: FunctionId, v: FunctionId): real {
    if u in k.calls && v in k.calls[u] && v != u && (u, v) in k.count then k.count[(u, v)] else 0.0
  }

  /** All calls of `v` by other functions. */
  ghost function FunctionTotal(k: Counts, v: FunctionId): real {
    SumOf(map u | u in k.calls :: CallCount(k, u, v))
  }

  ghost function CrossInto(k: Counts, v: FunctionId): real {
    SumOf(map u | u in k.calls :: CrossCount(k, u, v))
  }

  /** All calls into the component `c` from outside of it. */
  ghost function CrossTotal(k: Counts, c: set<FunctionId>): real {
    SumOf(map v | v in c :: CrossInto(k, v))
  }

  /** The denominator used for the call from `u` to `v`. */
  ghost function RatioTotal(k: Counts, u: FunctionId, v: FunctionId): real {
    if Recursive(k.calls, v) && v !in Component(k.calls, u)
    then CrossTotal(k, Component(k.calls, v))
    else FunctionTotal(k, v)
  }

  ghost function CallRatioOf(k: Counts, u: FunctionId, v: FunctionId): real {
    Ratio(CallCount(k, u, v), RatioTotal(k, u, v))
  }

  /** The call flow that results from normalising the counts. */
  ghost function Normalised(k: Counts, time: map<FunctionId, real>): Flow
  {
    Flow(k.calls, time, map u, v | u in k.calls && v in k.calls[u] && v != u :: (u, v) := CallRatioOf(k, u, v))
  }

  /** A function that is alone in its component is only called from outside of it. */
  lemma {:induction false} LoneTotal(k: Counts, v: FunctionId)
    requires k.Valid() && v in k.calls && !Recursive(k.calls, v)
    ensures CrossTotal(k, Component(k.calls, v)) == FunctionTotal(k, v)
  {
    hide Reach;
    forall u | u in k.calls
      ensures CrossCount(k, u, v) == CallCount(k, u, v)
    {
      if u in k.calls && v in k.calls[u] && v in Component(k.calls, u) {
        ComponentShared(k.calls, u, v);
        InOwnComponent(k.calls, u);
      }
      InOwnComponent(k.calls, v);
    }
    assert (map u | u in k.calls :: CrossCount(k, u, v)) == (map u | u in k.calls :: CallCount(k, u, v));
    SumRemove(map w | w in Component(k.calls, v) :: CrossInto(k, w), v);
  }

  /** Across components the denominator is always the total into the callee's component. */
  lemma {:induction false} CrossRatioTotal(k: Counts, u: FunctionId, v: FunctionId)
    requires k.Valid() && Crosses(k.calls, u, v)
    ensures RatioTotal(k, u, v) == CrossTotal(k, Component(k.calls, v))
  {
    if !Recursive(k.calls, v) {
      LoneTotal(k, v);
    }
  }

  ghost function CrossCall(g: Graph, u: FunctionId, v: FunctionId): real {
    if Crosses(g, u, v) then 1.0 else 0.0
  }

  ghost function CrossCallsInto(g: Graph, v: FunctionId): real {
    SumOf(map u | u in g :: CrossCall(g, u, v))
  }

  /** The number of calls that enter the component `c`. */
  ghost function CrossCalls(g: Graph, c: set<FunctionId>): real {
    SumOf(map v | v in c :: CrossCallsInto(g, v))
  }

  lemma {:induction false} CrossCountBound(k: Counts, c: set<FunctionId>, u: FunctionId, v: FunctionId)
    requires k.Nonnegative() && u in k.calls && v in c
    ensures 0.0 <= CrossCount(k, u, v) <= CrossTotal(k, c)
  {
    forall w | w in c
      ensures CrossInto(k, w) >= 0.0
      ensures u in k.calls ==> CrossCount(k, u, w) <= CrossInto(k, w)
    {
      SumNonnegative(map x | x in k.calls :: CrossCount(k, x, w));
      assert CrossCount(k, u, w) == (map x | x in k.calls :: CrossCount(k, x, w))[u];
    }
    SumNonnegative(map w | w in c :: CrossInto(k, w));
    assert CrossInto(k, v) == (map w | w in c :: CrossInto(k, w))[v];
  }

  ghost predicate IsComponent(g: Graph, c: set<FunctionId>) {
    c in Components(g, g.Keys)
  }

  lemma {:induction false} ComponentOfMember(g: Graph, c: set<FunctionId>, v: FunctionId)
    requires IsComponent(g, c) && v in c
    ensures v in g && Component(g, v) == c
  {
    var u :| u in g && c == Component(g, u);
    ComponentShared(g, u, v);
  }

  lemma {:induction false} CrossWeight(k: Counts, time: map<FunctionId, real>, c: set<FunctionId>, u: FunctionId,
      v: FunctionId)
    requires k.Valid() && k.Nonnegative() && IsComponent(k.calls, c) && u in k.calls && v in c
    ensures CrossTotal(k, c) > 0.0 ==>
      Weight(Normalised(k, time), u, v) == Times(1.0 / CrossTotal(k, c), CrossCount(k, u, v))
    ensures CrossTotal(k, c) == 0.0 ==> Weight(Normalised(k, time), u, v) == CrossCall(k.calls, u, v)
  {
    hide Reach, SumOf, CrossTotal;
    ComponentOfMember(k.calls, c, v);
    CrossCountBound(k, c, u, v);
    if Crosses(k.calls, u, v) {
      InOwnComponent(k.calls, u);
      CrossRatioTotal(k, u, v);
      if CrossTotal(k, c) > 0.0 {
        RatioExact(CallCount(k, u, v), CrossTotal(k, c));
      }
    }
  }

  /** The ratios of the calls into a component add up to one; if all these calls have a count of
      zero, each of them gets the ratio one instead. */
  lemma {:induction false} InflowExact(k: Counts, time: map<FunctionId, real>, c: set<FunctionId>)
    requires k.Valid() && k.Nonnegative() && IsComponent(k.calls, c)
    ensures ComponentInflow(Normalised(k, time), k.calls.Keys, c) ==
      if CrossTotal(k, c) > 0.0 then 1.0 else CrossCalls(k.calls, c)
  {
    hide Reach, SumOf, Times, Weight, CrossCount, CrossCall, Component;
    var f := Normalised(k, time);
    forall v | v in c
      ensures CrossTotal(k, c) > 0.0 ==> Inflow(f, k.calls.Keys, v) == Times(1.0 / CrossTotal(k, c), CrossInto(k, v))
      ensures CrossTotal(k, c) == 0.0 ==> Inflow(f, k.calls.Keys, v) == CrossCallsInto(k.calls, v)
    {
      InflowAt(k, time, c, v);
    }
    CrossTotalNonnegative(k, c);
    if CrossTotal(k, c) > 0.0 {
      SumScale(1.0 / CrossTotal(k, c), map v | v in c :: CrossInto(k, v), map v | v in c :: Inflow(f, k.calls.Keys, v));
      TimesInverse(CrossTotal(k, c));
    } else {
      assert (map v | v in c :: Inflow(f, k.calls.Keys, v)) == (map v | v in c :: CrossCallsInto(k.calls, v));
    }
  }

  lemma {:induction false} TimesInverse(a: real)
    requires a > 0.0
    ensures Times(1.0 / a, a) == 1.0
  {
  }

  lemma {:induction false} CrossTotalNonnegative(k: Counts, c: set<FunctionId>)
    requires k.Nonnegative()
    ensures CrossTotal(k, c) >= 0.0
  {
    forall v | v in c
      ensures CrossInto(k, v) >= 0.0
    {
      SumNonnegative(map u | u in k.calls :: CrossCount(k, u, v));
    }
    SumNonnegative(map v | v in c :: CrossInto(k, v));
  }

  lemma {:induction false} InflowAt(k: Counts, time: map<FunctionId, real>, c: set<FunctionId>, v: FunctionId)
    requires k.Valid() && k.Nonnegative() && IsComponent(k.calls, c) && v in c
    ensures CrossTotal(k, c) > 0.0 ==>
      Inflow(Normalised(k, time), k.calls.Keys, v) == Times(1.0 / CrossTotal(k, c), CrossInto(k, v))
    ensures CrossTotal(k, c) == 0.0 ==> Inflow(Normalised(k, time), k.calls.Keys, v) == CrossCallsInto(k.calls, v)
  {
    hide Reach, SumOf, Times, Weight, CrossCount, CrossCall, Component, CrossTotal;
    var weights := map u | u in k.calls :: Weight(Normalised(k, time), u, v);
    forall u | u in k.calls
      ensures CrossTotal(k, c) > 0.0 ==> weights[u] == Times(1.0 / CrossTotal(k, c), CrossCount(k, u, v))
      ensures CrossTotal(k, c) == 0.0 ==> weights[u] == CrossCall(k.calls, u, v)
    {
      CrossWeight(k, time, c, u, v);
    }
    if CrossTotal(k, c) > 0.0 {
      SumScale(1.0 / CrossTotal(k, c), map u | u in k.calls :: CrossCount(k, u, v), weights);
    } else if CrossTotal(k, c) == 0.0 {
      assert weights == (map u | u in k.calls :: CrossCall(k.calls, u, v));
    }
  }
}
