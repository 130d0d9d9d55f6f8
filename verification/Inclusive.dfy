/** The plain recursive equation for inclusive time on a call graph with call ratios, and the
    conservation law that its solution obeys. */
module Inclusive {
  import opened Graphs
  import opened Sums

  /** A call graph with the self time of every function and the ratio of every non-self call. */
  datatype Flow = Flow(calls: Graph, time: map<FunctionId, real>, ratio: map<(FunctionId, FunctionId), real>) {
    ghost predicate Valid() {
      && Closed(calls)
      && time.Keys == calls.Keys
      && forall u, v :: u in calls && v in calls[u] && v != u ==> (u, v) in ratio
    }

    ghost predicate Nonnegative() {
      && (forall u :: u in time ==> time[u] >= 0.0)
      && (forall e :: e in ratio ==> ratio[e] >= 0.0)
    }

    /** No call between different functions has a ratio of zero. */
    ghost predicate Positive() {
      forall u, v :: u in calls && v in calls[u] && v != u && (u, v) in ratio ==> ratio[(u, v)] > 0.0
    }
  }

  lemma {:induction false} OutsideOwnComponent(f: Flow, u: FunctionId, v: FunctionId)
    requires f.Valid() && u in f.calls && v in f.calls[u] - Component(f.calls, u)
    ensures v in f.calls && (u, v) in f.ratio
    ensures Below(f.calls, v) < Below(f.calls, u)
  {
    InOwnComponent(f.calls, u);
    BelowShrinks(f.calls, u, u, v);
  }

  lemma {:induction false} BelowShared(g: Graph, u: FunctionId, v: FunctionId)
    requires v in Component(g, u)
    ensures Below(g, v) == Below(g, u)
  {
    forall w | w in g
      ensures w in Below(g, v) <==> w in Below(g, u)
    {
      if w in Below(g, v) {
        ReachTransitive(g, u, v, w);
      }
      if w in Below(g, u) {
        ReachTransitive(g, v, u, w);
      }
    }
  }

  /** Time taken over along the calls of `u` that leave its component: the call's ratio of the
      inclusive time of the callee. */
  ghost function Outflow(f: Flow, u: FunctionId): map<FunctionId, real>
    requires f.Valid() && u in f.calls
    decreases Below(f.calls, u), 0
  {
    map v | v in f.calls[u] - Component(f.calls, u) ::
      OutsideOwnComponent(f, u, v); f.ratio[(u, v)] * InclusiveTime(f, v)
  }

  /** What `u` adds to the time of its component. */
  ghost function Share(f: Flow, u: FunctionId): real
    requires f.Valid() && u in f.calls
    decreases Below(f.calls, u), 1
  {
    f.time[u] + SumOf(Outflow(f, u))
  }

  /** The time of `u`'s whole component; a component of one is just the function. */
  ghost function InclusiveTime(f: Flow, u: FunctionId): real
    requires f.Valid() && u in f.calls
    decreases Below(f.calls, u), 2
  {
    SumOf(map m | m in Component(f.calls, u) :: BelowShared(f.calls, u, m); Share(f, m))
  }

  ghost function Shares(f: Flow, s: set<FunctionId>): map<FunctionId, real>
    requires f.Valid() && s <= f.calls.Keys
  {
    map m | m in s :: Share(f, m)
  }

  lemma {:induction false} InclusiveIsSumOfShares(f: Flow, u: FunctionId)
    requires f.Valid() && u in f.calls
    ensures InclusiveTime(f, u) == SumOf(Shares(f, Component(f.calls, u)))
  {
    assert (map m | m in Component(f.calls, u) :: BelowShared(f.calls, u, m); Share(f, m)) ==
      Shares(f, Component(f.calls, u));
  }

  lemma {:induction false} InclusiveShared(f: Flow, u: FunctionId, v: FunctionId)
    requires f.Valid() && u in f.calls && v in Component(f.calls, u)
    ensures InclusiveTime(f, v) == InclusiveTime(f, u)
  {
    ComponentShared(f.calls, u, v);
    InclusiveIsSumOfShares(f, u);
    InclusiveIsSumOfShares(f, v);
  }

  /** `Outflow` if the inclusive times are those in `t`. */
  ghost function OutflowUnder(f: Flow, t: map<FunctionId, real>, m: FunctionId): map<FunctionId, real>
    requires f.Valid() && t.Keys == f.calls.Keys && m in f.calls
  {
    map v | v in f.calls[m] - Component(f.calls, m) :: OutsideOwnComponent(f, m, v); f.ratio[(m, v)] * t[v]
  }

  ghost function ShareUnder(f: Flow, t: map<FunctionId, real>, m: FunctionId): real
    requires f.Valid() && t.Keys == f.calls.Keys && m in f.calls
  {
    f.time[m] + SumOf(OutflowUnder(f, t, m))
  }

  ghost function SharesUnder(f: Flow, t: map<FunctionId, real>, s: set<FunctionId>): map<FunctionId, real>
    requires f.Valid() && t.Keys == f.calls.Keys && s <= f.calls.Keys
  {
    map m | m in s :: ShareUnder(f, t, m)
  }

  /** `t` satisfies the equation: every component's time is the sum of what its members add. */
  ghost predicate Solves(f: Flow, t: map<FunctionId, real>)
    requires f.Valid()
  {
    && t.Keys == f.calls.Keys
    && forall u :: u in f.calls ==> t[u] == SumOf(SharesUnder(f, t, Component(f.calls, u)))
  }

  lemma {:induction false} SameOutflow(f: Flow, t: map<FunctionId, real>, m: FunctionId)
    requires f.Valid() && t.Keys == f.calls.Keys && m in f.calls
    requires forall v :: v in f.calls[m] - Component(f.calls, m) && v in t ==> t[v] == InclusiveTime(f, v)
    ensures OutflowUnder(f, t, m) == Outflow(f, m)
  {
    hide Reach, InclusiveTime, Component;
    forall v | v in f.calls[m] - Component(f.calls, m)
      ensures OutflowUnder(f, t, m)[v] == Outflow(f, m)[v]
    {
      OutsideOwnComponent(f, m, v);
      assert t[v] == InclusiveTime(f, v);
    }
    assert OutflowUnder(f, t, m).Keys == Outflow(f, m).Keys;
  }

  lemma {:induction false} SameShares(f: Flow, t: map<FunctionId, real>, u: FunctionId)
    requires f.Valid() && t.Keys == f.calls.Keys && u in f.calls
    requires forall m, v :: m in Component(f.calls, u) && v in f.calls[m] - Component(f.calls, m) && v in t ==>
      t[v] == InclusiveTime(f, v)
    ensures SumOf(SharesUnder(f, t, Component(f.calls, u))) == InclusiveTime(f, u)
  {
    hide Reach, InclusiveTime, OutflowUnder, Outflow, SumOf;
    forall m | m in Component(f.calls, u)
      ensures ShareUnder(f, t, m) == Share(f, m)
    {
      SameOutflow(f, t, m);
    }
    assert SharesUnder(f, t, Component(f.calls, u)) == Shares(f, Component(f.calls, u));
    InclusiveIsSumOfShares(f, u);
  }

  lemma {:induction false} SolutionAt(f: Flow, t: map<FunctionId, real>, u: FunctionId)
    requires f.Valid() && Solves(f, t) && u in f.calls
    ensures t[u] == InclusiveTime(f, u)
    decreases Below(f.calls, u)
  {
    hide Reach, InclusiveTime, SumOf;
    forall m, v | m in Component(f.calls, u) && v in f.calls[m] - Component(f.calls, m)
      ensures v in t && t[v] == InclusiveTime(f, v)
    {
      OutsideOwnComponent(f, m, v);
      BelowShared(f.calls, u, m);
      SolutionAt(f, t, v);
    }
    SameShares(f, t, u);
  }

  /** The equation has exactly one solution, whatever the order in which it is evaluated. */
  lemma {:induction false} UniqueSolution(f: Flow, t: map<FunctionId, real>)
    requires f.Valid() && t.Keys == f.calls.Keys
    ensures Solves(f, t) <==> forall u :: u in t ==> t[u] == InclusiveTime(f, u)
  {
    hide Reach, InclusiveTime, SumOf;
    if Solves(f, t) {
      forall u | u in t
        ensures t[u] == InclusiveTime(f, u)
      {
        SolutionAt(f, t, u);
      }
    }
    if forall u :: u in t ==> t[u] == InclusiveTime(f, u) {
      forall u | u in f.calls
        ensures t[u] == SumOf(SharesUnder(f, t, Component(f.calls, u)))
      {
        SameShares(f, t, u);
      }
    }
  }

  lemma {:induction false} InclusiveNonnegative(f: Flow, u: FunctionId)
    requires f.Valid() && f.Nonnegative() && u in f.calls
    ensures InclusiveTime(f, u) >= 0.0
    decreases Below(f.calls, u)
  {
    hide Reach;
    var shares := Shares(f, Component(f.calls, u));
    InclusiveIsSumOfShares(f, u);
    forall m | m in shares
      ensures shares[m] >= 0.0
    {
      BelowShared(f.calls, u, m);
      forall v | v in Outflow(f, m)
        ensures Outflow(f, m)[v] >= 0.0
      {
        OutsideOwnComponent(f, m, v);
        InclusiveNonnegative(f, v);
        ProductNonnegative(f.ratio[(m, v)], InclusiveTime(f, v));
      }
      SumNonnegative(Outflow(f, m));
    }
    SumNonnegative(shares);
  }

  lemma {:induction false} ProductNonnegative(a: real, b: real)
    requires a >= 0.0 && b >= 0.0
    ensures a * b >= 0.0
  {
  }

  // ----- conservation -----

  ghost function Components(g: Graph, s: set<FunctionId>): (cs: set<set<FunctionId>>)
    ensures forall c :: c in cs ==> c <= g.Keys
  {
    set u | u in s :: Component(g, u)
  }

  /** A set that no call leaves is the disjoint union of its components. */
  lemma {:induction false} ComponentsPartition(g: Graph, s: set<FunctionId>)
    requires s <= g.Keys && ClosedUnder(g, s)
    ensures Union(Components(g, s)) == s && PairwiseDisjoint(Components(g, s))
    ensures forall c :: c in Components(g, s) ==> c <= s
  {
    forall a, b | a in Components(g, s) && b in Components(g, s) && a != b
      ensures a !! b
    {
      var u :| u in s && a == Component(g, u);
      var v :| v in s && b == Component(g, v);
      ComponentsDisjoint(g, u, v);
    }
    forall u | u in s
      ensures u in Union(Components(g, s))
    {
      InOwnComponent(g, u);
      assert Component(g, u) in Components(g, s);
    }
    forall c, v | c in Components(g, s) && v in c
      ensures v in s
    {
      var u :| u in s && c == Component(g, u);
      ReachStaysIn(g, s, u, v);
    }
  }

  /** The ratio with which `u` takes over the time of `v` across components; 0 without a call. */
  ghost function Weight(f: Flow, u: FunctionId, v: FunctionId): real {
    if u in f.calls && v in f.calls[u] && v !in Component(f.calls, u) && (u, v) in f.ratio then f.ratio[(u, v)] else 0.0
  }

  /** The sum of the ratios of the calls into `v` from other components, callers taken from `s`. */
  ghost function Inflow(f: Flow, s: set<FunctionId>, v: FunctionId): real {
    SumOf(map u | u in s :: Weight(f, u, v))
  }

  ghost function ComponentInflow(f: Flow, s: set<FunctionId>, c: set<FunctionId>): real {
    SumOf(map v | v in c :: Inflow(f, s, v))
  }

  ghost function Time(f: Flow, v: FunctionId): real
    requires f.Valid()
  {
    if v in f.calls then InclusiveTime(f, v) else 0.0
  }

  ghost function ComponentTime(f: Flow, c: set<FunctionId>): real
    requires f.Valid() && c <= f.calls.Keys
  {
    SumOf(Shares(f, c))
  }

  ghost function Transfer(f: Flow): (FunctionId, FunctionId) -> real
    requires f.Valid()
  {
    (u, v) => Times(Time(f, v), Weight(f, u, v))
  }

  lemma {:induction false} TransferAt(f: Flow, u: FunctionId, v: FunctionId)
    requires f.Valid() && u in f.calls
    ensures Transfer(f)(u, v) == if v in Outflow(f, u) then Outflow(f, u)[v] else 0.0
  {
    hide Reach;
    if v in Outflow(f, u) {
      OutsideOwnComponent(f, u, v);
    }
  }

  lemma {:induction false} TransferRow(f: Flow, s: set<FunctionId>, u: FunctionId)
    requires f.Valid() && s <= f.calls.Keys && ClosedUnder(f.calls, s) && u in s
    ensures SumOf(Row(Transfer(f), u, s)) == SumOf(Outflow(f, u))
  {
    hide SumOf, Reach, Times, Weight, Time, InclusiveTime, Transfer;
    forall v | v in s
      ensures Row(Transfer(f), u, s)[v] == if v in Outflow(f, u) then Outflow(f, u)[v] else 0.0
    {
      TransferAt(f, u, v);
    }
    SumExtend(Outflow(f, u), Row(Transfer(f), u, s));
  }

  lemma {:induction false} TransferColumn(f: Flow, s: set<FunctionId>, v: FunctionId)
    requires f.Valid()
    ensures SumOf(Column(Transfer(f), s, v)) == Times(Time(f, v), Inflow(f, s, v))
  {
    SumScale(Time(f, v), map u | u in s :: Weight(f, u, v), Column(Transfer(f), s, v));
  }

  ghost function InflowTimes(f: Flow, s: set<FunctionId>): map<FunctionId, real>
    requires f.Valid()
  {
    map v | v in s :: Times(Time(f, v), Inflow(f, s, v))
  }

  lemma {:induction false} TransferColumns(f: Flow, s: set<FunctionId>)
    requires f.Valid()
    ensures ColumnSums(Transfer(f), s, s) == InflowTimes(f, s)
  {
    hide SumOf, Column, Times, Inflow, Transfer, Time;
    forall v | v in s
      ensures ColumnSums(Transfer(f), s, s)[v] == Times(Time(f, v), Inflow(f, s, v))
    {
      TransferColumn(f, s, v);
    }
  }

  /** What the functions of `s` share is their self time plus what flows along their calls. */
  lemma {:induction false} SharesBalance(f: Flow, s: set<FunctionId>)
    requires f.Valid() && s <= f.calls.Keys && ClosedUnder(f.calls, s)
    ensures SumOf(Shares(f, s)) == SumOf(Restrict(f.time, s)) + SumOf(InflowTimes(f, s))
  {
    hide SumOf, InflowTimes, Reach, InclusiveTime, Outflow, Transfer;
    var rows := RowSums(Transfer(f), s, s);
    forall u | u in s
      ensures Shares(f, s)[u] == Restrict(f.time, s)[u] + rows[u]
    {
      TransferRow(f, s, u);
    }
    SumPlus(Restrict(f.time, s), rows, Shares(f, s));
    SumExchange(Transfer(f), s, s);
    TransferColumns(f, s);
  }

  lemma {:induction false} TimeOfMember(f: Flow, s: set<FunctionId>, c: set<FunctionId>, v: FunctionId)
    requires f.Valid() && s <= f.calls.Keys && ClosedUnder(f.calls, s)
    requires c in Components(f.calls, s) && v in c
    ensures v in s && c == Component(f.calls, v) && c <= s && Time(f, v) == ComponentTime(f, c)
  {
    var u :| u in s && c == Component(f.calls, u);
    ComponentShared(f.calls, u, v);
    ComponentsPartition(f.calls, s);
    InclusiveIsSumOfShares(f, v);
  }

  lemma {:induction false} InflowTimesOfComponent(f: Flow, s: set<FunctionId>, c: set<FunctionId>)
    requires f.Valid() && s <= f.calls.Keys && ClosedUnder(f.calls, s)
    requires c in Components(f.calls, s)
    ensures c <= s
    ensures SumOf(Restrict(InflowTimes(f, s), c)) == Times(ComponentTime(f, c), ComponentInflow(f, s, c))
  {
    hide SumOf, Reach, Times, Inflow, Time, ComponentTime;
    forall v | v in c
      ensures v in s && Time(f, v) == ComponentTime(f, c)
    {
      TimeOfMember(f, s, c, v);
    }
    SumScale(ComponentTime(f, c), map v | v in c :: Inflow(f, s, v), Restrict(InflowTimes(f, s), c));
  }

  ghost function ComponentTimes(f: Flow, cs: set<set<FunctionId>>): map<set<FunctionId>, real>
    requires f.Valid() && forall c :: c in cs ==> c <= f.calls.Keys
  {
    map c | c in cs :: ComponentTime(f, c)
  }

  /** The time of a component that is not passed on to callers in `s`. */
  ghost function Retained(f: Flow, s: set<FunctionId>, c: set<FunctionId>): real
    requires f.Valid() && c <= f.calls.Keys
  {
    ComponentTime(f, c) - Times(ComponentTime(f, c), ComponentInflow(f, s, c))
  }

  ghost function AllRetained(f: Flow, s: set<FunctionId>): map<set<FunctionId>, real>
    requires f.Valid()
  {
    map c | c in Components(f.calls, s) :: Retained(f, s, c)
  }

  ghost function PassedOn(f: Flow, s: set<FunctionId>): map<set<FunctionId>, real>
    requires f.Valid()
  {
    map c | c in Components(f.calls, s) :: Times(ComponentTime(f, c), ComponentInflow(f, s, c))
  }

  lemma {:induction false} PassedOnTotal(f: Flow, s: set<FunctionId>)
    requires f.Valid() && s <= f.calls.Keys && ClosedUnder(f.calls, s)
    ensures SumOf(InflowTimes(f, s)) == SumOf(PassedOn(f, s))
  {
    hide SumOf, Union, PairwiseDisjoint, Reach, Times, Inflow, Time, ComponentTime, ComponentInflow, Component,
      Restrict;
    ComponentsPartition(f.calls, s);
    forall c | c in Components(f.calls, s)
      ensures c <= s && PassedOn(f, s)[c] == SumOf(Restrict(InflowTimes(f, s), c))
    {
      InflowTimesOfComponent(f, s, c);
    }
    SumBlocks(Components(f.calls, s), InflowTimes(f, s), PassedOn(f, s));
  }

  lemma {:induction false} SharesRestricted(f: Flow, s: set<FunctionId>, c: set<FunctionId>)
    requires f.Valid() && c <= s <= f.calls.Keys
    ensures SumOf(Restrict(Shares(f, s), c)) == ComponentTime(f, c)
  {
    assert Restrict(Shares(f, s), c) == Shares(f, c);
  }

  lemma {:induction false} SharesTotal(f: Flow, s: set<FunctionId>)
    requires f.Valid() && s <= f.calls.Keys && ClosedUnder(f.calls, s)
    ensures SumOf(Shares(f, s)) == SumOf(ComponentTimes(f, Components(f.calls, s)))
  {
    hide SumOf, Union, PairwiseDisjoint, Reach, Share, ComponentTime, Component, Restrict;
    ComponentsPartition(f.calls, s);
    forall c | c in Components(f.calls, s)
      ensures c <= s && ComponentTimes(f, Components(f.calls, s))[c] == SumOf(Restrict(Shares(f, s), c))
    {
      SharesRestricted(f, s, c);
    }
    SumBlocks(Components(f.calls, s), Shares(f, s), ComponentTimes(f, Components(f.calls, s)));
  }

  /** Conservation, for any set of functions that no call leaves: what its components retain adds
      up to its self time.  No assumption on the ratios is made. */
  lemma {:induction false} Conservation(f: Flow, s: set<FunctionId>)
    requires f.Valid() && s <= f.calls.Keys && ClosedUnder(f.calls, s)
    ensures SumOf(AllRetained(f, s)) == SumOf(Restrict(f.time, s))
  {
    hide SumOf, Reach, Times, ComponentTime, ComponentInflow, Component, InflowTimes, Shares;
    PassedOnTotal(f, s);
    SharesTotal(f, s);
    SharesBalance(f, s);
    SumPlus(AllRetained(f, s), PassedOn(f, s), ComponentTimes(f, Components(f.calls, s)));
  }
}
