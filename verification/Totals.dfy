/** What the conservation law says about a whole profile. */
module Totals {
  import opened Graphs
  import opened Sums
  import opened Inclusive
  import opened Ratios
  import opened Charging

  /** Some call enters the component `c` from outside. */
  ghost predicate Entered(g: Graph, c: set<FunctionId>) {
    exists u, v :: v in c && Crosses(g, u, v)
  }

  /** The components that nobody calls from outside. */
  ghost function Roots(g: Graph): (cs: set<set<FunctionId>>)
    ensures forall c :: c in cs ==> c <= g.Keys
  {
    set c | c in Components(g, g.Keys) && !Entered(g, c)
  }

  /** Every component passes its time on exactly once, unless it is a root. */
  ghost predicate Balanced(f: Flow) {
    forall c :: IsComponent(f.calls, c) ==>
      ComponentInflow(f, f.calls.Keys, c) == if Entered(f.calls, c) then 1.0 else 0.0
  }

  lemma {:induction false} NotEnteredInflow(f: Flow, s: set<FunctionId>, c: set<FunctionId>)
    requires forall u, v :: u in s && v in c ==> !Crosses(f.calls, u, v)
    ensures ComponentInflow(f, s, c) == 0.0
  {
    hide Reach, Component;
    forall v | v in c
      ensures Inflow(f, s, v) == 0.0
    {
      SumZero(map u | u in s :: Weight(f, u, v));
    }
    SumZero(map v | v in c :: Inflow(f, s, v));
  }

  lemma {:induction false} NotEnteredCalls(g: Graph, c: set<FunctionId>)
    ensures !Entered(g, c) ==> CrossCalls(g, c) == 0.0
    ensures Entered(g, c) ==> CrossCalls(g, c) >= 1.0
  {
    hide Reach, Crosses;
    forall v | v in c
      ensures CrossCallsInto(g, v) >= 0.0
      ensures !Entered(g, c) ==> CrossCallsInto(g, v) == 0.0
      ensures forall u :: u in g && Crosses(g, u, v) ==> CrossCallsInto(g, v) >= 1.0
    {
      var row := map u | u in g :: CrossCall(g, u, v);
      SumNonnegative(row);
      if !Entered(g, c) {
        SumZero(row);
      }
      assert forall u :: u in g && Crosses(g, u, v) ==> row[u] == 1.0;
    }
    var columns := map v | v in c :: CrossCallsInto(g, v);
    SumNonnegative(columns);
    if Entered(g, c) {
      var u, v :| v in c && Crosses(g, u, v);
      CrossesFrom(g, u, v);
      assert columns[v] >= 1.0;
    } else {
      SumZero(columns);
    }
  }

  lemma {:induction false} CrossesFrom(g: Graph, u: FunctionId, v: FunctionId)
    requires Crosses(g, u, v)
    ensures u in g && v != u && v in g[u]
  {
    InOwnComponent(g, u);
  }

  lemma {:induction false} EnteredTotal(k: Counts, c: set<FunctionId>)
    requires k.Valid() && k.Nonnegative() && k.Positive()
    ensures Entered(k.calls, c) ==> CrossTotal(k, c) > 0.0
  {
    if Entered(k.calls, c) {
      var u, v :| v in c && Crosses(k.calls, u, v);
      CrossesFrom(k.calls, u, v);
      CrossCountBound(k, c, u, v);
    }
  }

  /** Positive call counts are normalised to ratios that pass on every component's time once. */
  lemma {:induction false} PositiveBalanced(k: Counts, time: map<FunctionId, real>)
    requires k.Valid() && k.Nonnegative() && k.Positive()
    ensures Balanced(Normalised(k, time))
  {
    hide Reach, SumOf, Component, ComponentInflow, CrossTotal, CrossCalls;
    forall c | IsComponent(k.calls, c)
      ensures ComponentInflow(Normalised(k, time), k.calls.Keys, c) == if Entered(k.calls, c) then 1.0 else 0.0
    {
      InflowExact(k, time, c);
      EnteredTotal(k, c);
      NotEnteredCalls(k.calls, c);
      if !Entered(k.calls, c) {
        forall u, v | u in k.calls.Keys && v in c
          ensures !Crosses(Normalised(k, time).calls, u, v)
        {
        }
        NotEnteredInflow(Normalised(k, time), k.calls.Keys, c);
      }
    }
  }

  lemma {:induction false} WholeRestricted(f: Flow)
    requires f.Valid()
    ensures Restrict(f.time, f.calls.Keys) == f.time && ClosedUnder(f.calls, f.calls.Keys)
  {
  }

  /** The inclusive times of the root components add up to the self time of the whole profile. */
  lemma {:induction false} RootConservation(f: Flow)
    requires f.Valid() && Balanced(f)
    ensures SumOf(ComponentTimes(f, Roots(f.calls))) == SumOf(f.time)
  {
    hide SumOf, Reach, Component, ComponentTime, ComponentInflow, Entered;
    WholeRestricted(f);
    Conservation(f, f.calls.Keys);
    var roots, retained := ComponentTimes(f, Roots(f.calls)), AllRetained(f, f.calls.Keys);
    forall c | c in retained
      ensures retained[c] == if c in roots then roots[c] else 0.0
    {
      assert IsComponent(f.calls, c);
    }
    SumExtend(roots, retained);
  }

  /** What a component passes on beyond its own time. */
  ghost function Surplus(k: Counts, time: map<FunctionId, real>, c: set<FunctionId>): real
    requires Normalised(k, time).Valid() && c <= k.calls.Keys
  {
    (if Entered(k.calls, c) then 0.0 else ComponentTime(Normalised(k, time), c)) -
      Retained(Normalised(k, time), k.calls.Keys, c)
  }

  /** Several calls enter the component, and all of them have a count of zero. */
  ghost predicate Duplicated(k: Counts, c: set<FunctionId>) {
    CrossTotal(k, c) == 0.0 && CrossCalls(k.calls, c) > 1.0
  }

  lemma {:induction false} SurplusOf(k: Counts, time: map<FunctionId, real>, c: set<FunctionId>)
    requires k.Valid() && k.Nonnegative() && Normalised(k, time).Valid() && Normalised(k, time).Nonnegative()
    requires IsComponent(k.calls, c) && c <= k.calls.Keys
    ensures Surplus(k, time, c) >= 0.0
    ensures Surplus(k, time, c) == 0.0 <==> (Duplicated(k, c) ==> ComponentTime(Normalised(k, time), c) == 0.0)
  {
    hide SumOf, Reach, Component, ComponentTime, ComponentInflow, CrossTotal, CrossCalls, Entered;
    InflowExact(k, time, c);
    NotEnteredCalls(k.calls, c);
    CrossTotalNonnegative(k, c);
    ComponentTimeNonnegative(Normalised(k, time), c);
    NotEnteredTotal(k, c);
    TimesSurplus(ComponentTime(Normalised(k, time), c), CrossCalls(k.calls, c));
  }

  lemma {:induction false} NotEnteredTotal(k: Counts, c: set<FunctionId>)
    ensures !Entered(k.calls, c) ==> CrossTotal(k, c) == 0.0
  {
    hide Reach, Component;
    if !Entered(k.calls, c) {
      forall v | v in c
        ensures CrossInto(k, v) == 0.0
      {
        SumZero(map u | u in k.calls :: CrossCount(k, u, v));
      }
      SumZero(map v | v in c :: CrossInto(k, v));
    }
  }

  lemma {:induction false} TimesSurplus(x: real, n: real)
    requires x >= 0.0
    ensures Times(x, 0.0) == 0.0 && Times(x, 1.0) == x
    ensures n >= 1.0 ==> Times(x, n) >= x
    ensures n > 1.0 ==> (Times(x, n) == x <==> x == 0.0)
  {
    if n > 1.0 {
      assert Times(x, n) - x == x * (n - 1.0);
    }
    if n >= 1.0 {
      ProductNonnegative(x, n - 1.0);
    }
  }

  lemma {:induction false} ComponentTimeNonnegative(f: Flow, c: set<FunctionId>)
    requires f.Valid() && f.Nonnegative() && IsComponent(f.calls, c) && c <= f.calls.Keys
    ensures ComponentTime(f, c) >= 0.0
  {
    var u :| u in f.calls && c == Component(f.calls, u);
    InclusiveNonnegative(f, u);
    InclusiveIsSumOfShares(f, u);
  }

  lemma {:induction false} SurplusTotal(k: Counts, time: map<FunctionId, real>)
    requires k.Valid() && k.Nonnegative()
    requires Normalised(k, time).Valid() && Normalised(k, time).Nonnegative()
    ensures SumOf(ComponentTimes(Normalised(k, time), Roots(k.calls))) == SumOf(time) <==>
      forall c :: c in Components(k.calls, k.calls.Keys) && Duplicated(k, c) ==>
        ComponentTime(Normalised(k, time), c) == 0.0
  {
    hide SumOf, Reach, Component, ComponentTime, ComponentInflow, CrossTotal, CrossCalls, Entered, Retained, Duplicated;
    var f := Normalised(k, time);
    WholeRestricted(f);
    Conservation(f, f.calls.Keys);
    var cs := Components(k.calls, k.calls.Keys);
    var roots := ComponentTimes(f, Roots(f.calls));
    var padded := map c | c in cs :: if Entered(k.calls, c) then 0.0 else ComponentTime(f, c);
    var surplus := map c | c in cs :: Surplus(k, time, c);
    SumExtend(roots, padded);
    SumPlus(surplus, AllRetained(f, f.calls.Keys), padded);
    forall c | c in cs
      ensures surplus[c] >= 0.0
      ensures surplus[c] == 0.0 <==> (Duplicated(k, c) ==> ComponentTime(f, c) == 0.0)
    {
      SurplusOf(k, time, c);
    }
    SumZeroIff(surplus);
  }

  lemma {:induction false} ComponentCharged(f: Flow, u: FunctionId)
    requires f.Valid() && f.Nonnegative() && u in f.calls
    ensures Component(f.calls, u) <= f.calls.Keys
    ensures ComponentTime(f, Component(f.calls, u)) == 0.0 <==> !Charged(f, u)
  {
    InclusiveIsSumOfShares(f, u);
    ChargedIff(f, u);
  }

  /** Whole-profile conservation fails exactly when a component that is charged with some time is
      entered by several calls that all have a count of zero: it passes its time on repeatedly. */
  lemma {:induction false} RootConservationIff(k: Counts, time: map<FunctionId, real>)
    requires k.Valid() && k.Nonnegative()
    requires Normalised(k, time).Valid() && Normalised(k, time).Nonnegative()
    ensures SumOf(ComponentTimes(Normalised(k, time), Roots(k.calls))) == SumOf(time) <==>
      forall u :: u in k.calls && Duplicated(k, Component(k.calls, u)) ==> !Charged(Normalised(k, time), u)
  {
    hide SumOf, Reach, Component, ComponentTime, Duplicated, Charged, Roots, ComponentTimes;
    SurplusTotal(k, time);
    forall u | u in k.calls
      ensures Component(k.calls, u) <= k.calls.Keys
      ensures ComponentTime(Normalised(k, time), Component(k.calls, u)) == 0.0 <==> !Charged(Normalised(k, time), u)
    {
      ComponentCharged(Normalised(k, time), u);
    }
  }

  /** All times are passed on exactly once exactly if no component is duplicated at all. */
  lemma {:induction false} BalancedIff(k: Counts, time: map<FunctionId, real>)
    requires k.Valid() && k.Nonnegative()
    ensures Balanced(Normalised(k, time)) <==> forall u :: u in k.calls ==> !Duplicated(k, Component(k.calls, u))
  {
    hide SumOf, Reach, Component, ComponentInflow, CrossTotal, CrossCalls, Entered;
    forall c | IsComponent(k.calls, c)
      ensures ComponentInflow(Normalised(k, time), k.calls.Keys, c) == (if Entered(k.calls, c) then 1.0 else 0.0) <==>
        !Duplicated(k, c)
    {
      InflowExact(k, time, c);
      NotEnteredCalls(k.calls, c);
      CrossTotalNonnegative(k, c);
      NotEnteredTotal(k, c);
    }
    forall u | u in k.calls
      ensures IsComponent(k.calls, Component(k.calls, u))
    {
    }
  }

  // Two functions call a third one, both with a count of zero, and only the third takes time.
  const FIRST := FunctionId("a")
  const SECOND := FunctionId("b")
  const SHARED := FunctionId("c")
  const UNCOUNTED := Counts(map[FIRST := {SHARED}, SECOND := {SHARED}, SHARED := {}],
      map[(FIRST, SHARED) := 0.0, (SECOND, SHARED) := 0.0])
  const SELF_TIMES: map<FunctionId, real> := map[FIRST := 0.0, SECOND := 0.0, SHARED := 1.0]

  lemma {:induction false} SharedAlone()
    ensures Component(UNCOUNTED.calls, SHARED) == {SHARED} && SHARED !in Component(UNCOUNTED.calls, FIRST)
    ensures SHARED !in Component(UNCOUNTED.calls, SECOND)
  {
    var g := UNCOUNTED.calls;
    InOwnComponent(g, SHARED);
    assert ClosedUnder(g, {SHARED});
    forall v | v in Component(g, SHARED)
      ensures v == SHARED
    {
      ReachStaysIn(g, {SHARED}, SHARED, v);
    }
    forall v | v in {FIRST, SECOND} && SHARED in Component(g, v)
      ensures v == SHARED
    {
      ReachStaysIn(g, {SHARED}, SHARED, v);
    }
  }

  lemma {:induction false} UncountedValid()
    ensures UNCOUNTED.Valid() && UNCOUNTED.Nonnegative() && Normalised(UNCOUNTED, SELF_TIMES).Valid()
    ensures Normalised(UNCOUNTED, SELF_TIMES).Nonnegative()
    ensures SHARED in UNCOUNTED.calls
  {
    hide CallRatioOf;
    RatiosNonnegative(UNCOUNTED, SELF_TIMES);
  }

  /** With zero counts the time of a function can be passed on twice. */
  lemma {:induction false} ConservationFails()
    ensures UNCOUNTED.Valid() && UNCOUNTED.Nonnegative() && Normalised(UNCOUNTED, SELF_TIMES).Valid()
    ensures Normalised(UNCOUNTED, SELF_TIMES).Nonnegative()
    ensures SumOf(ComponentTimes(Normalised(UNCOUNTED, SELF_TIMES), Roots(UNCOUNTED.calls))) != SumOf(SELF_TIMES)
  {
    hide Reach, SumOf, Component, Components, Roots, Normalised, Counts.Valid, Counts.Nonnegative, Flow.Valid,
      Flow.Nonnegative, ComponentTime, Duplicated, Charged;
    UncountedValid();
    SharedAlone();
    SharedCharged();
    CallsOfShared();
    RootConservationIff(UNCOUNTED, SELF_TIMES);
  }

  lemma {:induction false} NormalisedValid(k: Counts, time: map<FunctionId, real>)
    requires k.Valid() && time.Keys == k.calls.Keys
    ensures Normalised(k, time).Valid()
  {
    hide CallRatioOf;
  }

  lemma {:induction false} RatiosNonnegative(k: Counts, time: map<FunctionId, real>)
    requires forall u :: u in time ==> time[u] >= 0.0
    ensures Normalised(k, time).Nonnegative()
  {
    hide SumOf, Reach, FunctionTotal, CrossTotal;
  }

  lemma {:induction false} SharedCharged()
    requires Normalised(UNCOUNTED, SELF_TIMES).Valid() && SHARED in UNCOUNTED.calls
    ensures Charged(Normalised(UNCOUNTED, SELF_TIMES), SHARED)
  {
    hide Reach;
    InOwnComponent(UNCOUNTED.calls, SHARED);
    assert Contributes(Normalised(UNCOUNTED, SELF_TIMES), SHARED);
  }

  lemma {:induction false} CallsOfShared()
    ensures Duplicated(UNCOUNTED, {SHARED})
  {
    CallsIntoShared();
    DuplicatedAlone(UNCOUNTED, {SHARED}, SHARED);
  }

  lemma {:induction false} DuplicatedAlone(k: Counts, c: set<FunctionId>, v: FunctionId)
    requires c == {v} && CrossInto(k, v) == 0.0 && CrossCallsInto(k.calls, v) > 1.0
    ensures Duplicated(k, c)
  {
    hide Reach, CrossInto, CrossCallsInto;
    var counts, calls := map w | w in c :: CrossInto(k, w), map w | w in c :: CrossCallsInto(k.calls, w);
    SumZero(counts);
    SumRemove(calls, v);
    SumZero(calls - {v});
  }

  lemma {:induction false} CallsIntoShared()
    ensures CrossInto(UNCOUNTED, SHARED) == 0.0 && CrossCallsInto(UNCOUNTED.calls, SHARED) >= 2.0
  {
    hide Reach, Component;
    SharedAlone();
    var g := UNCOUNTED.calls;
    SumZero(map u | u in g :: CrossCount(UNCOUNTED, u, SHARED));
    var calls := map u | u in g :: CrossCall(g, u, SHARED);
    assert calls[FIRST] == 1.0 && calls[SECOND] == 1.0;
    SumRemove(calls, FIRST);
    SumRemove(calls - {FIRST}, SECOND);
    SumNonnegative(calls - {FIRST} - {SECOND});
  }

  // ----- the bound on inclusive times -----

  lemma {:induction false} WeightNonnegative(f: Flow, u: FunctionId, v: FunctionId)
    requires f.Nonnegative()
    ensures Weight(f, u, v) >= 0.0
  {
  }

  /** Fewer callers, less inflow. */
  lemma {:induction false} InflowMonotone(f: Flow, s: set<FunctionId>, c: set<FunctionId>)
    requires f.Nonnegative() && s <= f.calls.Keys
    ensures ComponentInflow(f, s, c) <= ComponentInflow(f, f.calls.Keys, c)
  {
    hide Weight;
    forall v | v in c
      ensures Inflow(f, s, v) <= Inflow(f, f.calls.Keys, v)
    {
      var all := map u | u in f.calls.Keys :: Weight(f, u, v);
      forall u | u in all
        ensures all[u] >= 0.0
      {
        WeightNonnegative(f, u, v);
      }
      SumSubset(map u | u in s :: Weight(f, u, v), all);
    }
    SumLeq(map v | v in c :: Inflow(f, s, v), map v | v in c :: Inflow(f, f.calls.Keys, v));
  }

  /** Below `u`, nobody calls into `u`'s component from outside of it. */
  lemma {:induction false} NotEnteredFromBelow(g: Graph, u: FunctionId, w: FunctionId, v: FunctionId)
    requires Closed(g) && u in g && w in Below(g, u) && v in Component(g, u)
    ensures !Crosses(g, w, v)
  {
    if w in g && v in g[w] {
      ReachCall(g, w, v);
      ReachTransitive(g, w, v, u);
      ComponentShared(g, u, w);
    }
  }

  lemma {:induction false} RetainedNonnegative(f: Flow, s: set<FunctionId>, c: set<FunctionId>)
    requires f.Valid() && f.Nonnegative() && Balanced(f) && s <= f.calls.Keys
    requires IsComponent(f.calls, c) && c <= f.calls.Keys
    ensures Retained(f, s, c) >= 0.0
  {
    hide SumOf, Reach, Component, ComponentTime, ComponentInflow, Entered;
    InflowMonotone(f, s, c);
    ComponentTimeNonnegative(f, c);
    TimesAtMost(ComponentTime(f, c), ComponentInflow(f, s, c));
  }

  lemma {:induction false} TimesAtMost(x: real, n: real)
    requires x >= 0.0 && n <= 1.0
    ensures Times(x, n) <= x
    ensures n == 0.0 ==> Times(x, n) == 0.0
  {
    ProductNonnegative(x, 1.0 - n);
  }

  /** A function's inclusive time is at most the self time of everything it can reach. */
  lemma {:induction false} InclusiveBound(f: Flow, u: FunctionId)
    requires f.Valid() && f.Nonnegative() && Balanced(f) && u in f.calls
    ensures 0.0 <= InclusiveTime(f, u) <= SumOf(Restrict(f.time, Below(f.calls, u))) <= SumOf(f.time)
  {
    hide SumOf, Reach, Retained, InclusiveTime, Balanced, Weight;
    var s, c := Below(f.calls, u), Component(f.calls, u);
    InclusiveNonnegative(f, u);
    BelowClosed(f.calls, u);
    Conservation(f, s);
    ReachSelf(f.calls, u);
    forall d | d in AllRetained(f, s)
      ensures AllRetained(f, s)[d] >= 0.0
    {
      assert IsComponent(f.calls, d);
      RetainedNonnegative(f, s, d);
    }
    SumNonnegative(AllRetained(f, s));
    TopRetained(f, u);
    assert c in AllRetained(f, s);
    SumSubset(Restrict(f.time, s), f.time);
  }

  lemma {:induction false} TopRetained(f: Flow, u: FunctionId)
    requires f.Valid() && u in f.calls
    ensures Retained(f, Below(f.calls, u), Component(f.calls, u)) == InclusiveTime(f, u)
  {
    hide SumOf, Reach, InclusiveTime, ComponentInflow, Crosses;
    forall w, v | w in Below(f.calls, u) && v in Component(f.calls, u)
      ensures !Crosses(f.calls, w, v)
    {
      NotEnteredFromBelow(f.calls, u, w, v);
    }
    NotEnteredInflow(f, Below(f.calls, u), Component(f.calls, u));
    InclusiveIsSumOfShares(f, u);
  }
}
