/** How the time of one cycle is passed to the callers of one of its members, the entry: the
    members are ranked by their distance from the entry, and time flows only from a member to the
    members one call closer to the entry. */
module CycleFlow {
  import opened Graphs
  import opened Sums
  import opened Inclusive
  import opened Ratios

  /** The calls between distinct members. */
  ghost function Inner(g: Graph, members: set<FunctionId>): Graph {
    map m | m in members && m in g :: (g[m] * members) - {m}
  }

  /** Every member is ranked by the length of a shortest walk from the entry. */
  ghost predicate ShortestRanks(h: Graph, entry: FunctionId, ranks: map<FunctionId, nat>) {
    && ranks.Keys == h.Keys
    && (forall m :: m in ranks ==> Walk(h, ranks[m], entry, m))
    && (forall m, n: nat :: m in ranks && Walk(h, n, entry, m) ==> ranks[m] <= n)
  }

  /** A component is connected by its own calls. */
  lemma {:induction false} InnerWalk(g: Graph, n: nat, u: FunctionId, v: FunctionId)
    requires Closed(g) && Walk(g, n, u, v) && v in Component(g, u)
    ensures Reach(Inner(g, Component(g, u)), u, v)
  {
    var h := Inner(g, Component(g, u));
    WalkEnds(g, n, u, v);
    InOwnComponent(g, u);
    if n == 0 {
      ReachSelf(h, u);
    } else {
      var w :| Walk(g, n - 1, u, w) && w in g && v in g[w];
      ReachCall(g, w, v);
      ReachTransitive(g, w, v, u);
      InnerWalk(g, n - 1, u, w);
      if w != v {
        ReachCall(h, w, v);
        ReachTransitive(h, u, w, v);
      }
    }
  }

  /** One pass over a cycle: the call flow, the entry, the share of the cycle's time that the
      callers of the entry take over, and the ranks. */
  datatype Pass = Pass(f: Flow, entry: FunctionId, share: real, ranks: map<FunctionId, nat>) {
    ghost function Members(): set<FunctionId> {
      Component(f.calls, entry)
    }

    ghost predicate Valid() {
      && f.Valid() && entry in Members() && Members() <= f.calls.Keys
      && ShortestRanks(Inner(f.calls, Members()), entry, ranks)
    }

    /** Members one call further away from the entry. */
    ghost function Uphill(m: FunctionId): set<FunctionId> {
      set v | v in ranks && m in ranks && m in f.calls && v in f.calls[m] && ranks[v] > ranks[m]
    }

    ghost function UphillRatio(m: FunctionId, v: FunctionId): real {
      if v in Uphill(m) && (m, v) in f.ratio then f.ratio[(m, v)] else 0.0
    }

    /** The sum of the ratios of the calls that lead to `v` from closer to the entry. */
    ghost function RatioSum(v: FunctionId): real {
      SumOf(map m | m in ranks :: UphillRatio(m, v))
    }

    ghost function InnerRatio(m: FunctionId, v: FunctionId): real {
      if v in Uphill(m) then Ratio(UphillRatio(m, v), RatioSum(v)) else 0.0
    }

    /** The members ranked above `m`. */
    ghost function Above(m: FunctionId): set<FunctionId> {
      set v | v in ranks && m in ranks && ranks[v] > ranks[m]
    }
  }

  lemma {:induction false} UphillSmaller(p: Pass, m: FunctionId, v: FunctionId)
    requires p.Valid() && v in p.Uphill(m)
    ensures v != m && v in p.Members() && m in p.Members() && (m, v) in p.f.ratio
    ensures p.ranks[v] == p.ranks[m] + 1
  {
    var h := Inner(p.f.calls, p.Members());
    assert Walk(h, p.ranks[m], p.entry, m);
    assert v in h[m];
    assert Walk(h, p.ranks[m] + 1, p.entry, v);
  }

  lemma {:induction false} AboveShrinks(p: Pass, m: FunctionId, v: FunctionId)
    requires p.Valid() && v in p.Uphill(m)
    ensures p.Above(v) < p.Above(m)
  {
    assert v in p.Above(m) && v !in p.Above(v);
  }

  /** What a call from `m` to `v` adds to the partial time of `m`: a call that leaves the cycle
      its own time, a call uphill its portion of the partial time of the callee. */
  ghost function Passing(p: Pass, m: FunctionId): map<FunctionId, real>
    requires p.Valid() && m in p.Members()
    decreases p.Above(m), 0
  {
    map v | v in p.f.calls[m] && v != m ::
      if v in p.Uphill(m) then
        (UphillSmaller(p, m, v); AboveShrinks(p, m, v); Times(p.InnerRatio(m, v), Partial(p, v)))
      else if v in Outflow(p.f, m) then Times(p.share, Outflow(p.f, m)[v])
      else 0.0
  }

  /** The part of the cycle's time that flows through `m` on its way to the entry. */
  ghost function Partial(p: Pass, m: FunctionId): real
    requires p.Valid() && m in p.Members()
    decreases p.Above(m), 1
  {
    Times(p.share, p.f.time[m]) + SumOf(Passing(p, m))
  }

  ghost function PartialOf(p: Pass, m: FunctionId): real
    requires p.Valid()
  {
    if m in p.Members() then Partial(p, m) else 0.0
  }

  ghost function InnerPassing(p: Pass): (FunctionId, FunctionId) -> real
    requires p.Valid()
  {
    (m, v) => Times(PartialOf(p, v), p.InnerRatio(m, v))
  }

  /** A set of members that is not left uphill. */
  ghost predicate UphillClosed(p: Pass, s: set<FunctionId>) {
    s <= p.Members() && forall m :: m in s ==> p.Uphill(m) <= s
  }

  /** The calls of `m` that leave the cycle. */
  ghost function Outside(p: Pass, m: FunctionId): map<FunctionId, real>
    requires p.Valid() && m in p.Members()
  {
    map v | v in p.f.calls[m] && v != m :: if v in Outflow(p.f, m) then Times(p.share, Outflow(p.f, m)[v]) else 0.0
  }

  /** The calls of `m` that stay in the cycle. */
  ghost function Inside(p: Pass, m: FunctionId): map<FunctionId, real>
    requires p.Valid() && m in p.Members()
  {
    map v | v in p.f.calls[m] && v != m :: InnerPassing(p)(m, v)
  }

  lemma {:induction false} TimesPlus(a: real, b: real, c: real)
    ensures Times(a, b + c) == Times(a, b) + Times(a, c)
    ensures Times(a, 0.0) == 0.0
  {
  }

  /** The partial time of `m` is its part of its own time plus what it takes from uphill. */
  lemma {:induction false} PartialSplit(p: Pass, s: set<FunctionId>, m: FunctionId)
    requires p.Valid() && m in p.Members() && p.Uphill(m) <= s <= p.Members()
    ensures Partial(p, m) == Times(p.share, Share(p.f, m)) + SumOf(Row(InnerPassing(p), m, s))
  {
    hide SumOf, Times, Reach, Passing, Outside, Inside, Outflow, InnerPassing;
    PassingSplit(p, m);
    OutsideTotal(p, m);
    InsideTotal(p, s, m);
    TimesPlus(p.share, p.f.time[m], SumOf(Outflow(p.f, m)));
  }

  lemma {:induction false} PassingAt(p: Pass, m: FunctionId, v: FunctionId)
    requires p.Valid() && m in p.Members() && v in Passing(p, m)
    ensures Passing(p, m)[v] == Outside(p, m)[v] + Inside(p, m)[v]
  {
    hide SumOf, Times, Reach;
    TimesPlus(PartialOf(p, v), 0.0, 0.0);
    if v in p.Uphill(m) {
      UphillSmaller(p, m, v);
      AboveShrinks(p, m, v);
      ComponentShared(p.f.calls, p.entry, m);
      assert v !in Outflow(p.f, m);
      TimesCommutes(PartialOf(p, v), p.InnerRatio(m, v));
    }
  }

  lemma {:induction false} TimesOne(a: real)
    ensures Times(a, 1.0) == a
  {
  }

  lemma {:induction false} TimesCommutes(a: real, b: real)
    ensures Times(a, b) == Times(b, a)
  {
  }

  lemma {:induction false} PassingSplit(p: Pass, m: FunctionId)
    requires p.Valid() && m in p.Members()
    ensures SumOf(Passing(p, m)) == SumOf(Outside(p, m)) + SumOf(Inside(p, m))
  {
    hide SumOf, Times, Reach, PartialOf, Outflow;
    forall v | v in Passing(p, m)
      ensures Passing(p, m)[v] == Outside(p, m)[v] + Inside(p, m)[v]
    {
      PassingAt(p, m, v);
    }
    SumPlus(Outside(p, m), Inside(p, m), Passing(p, m));
  }

  lemma {:induction false} OutsideTotal(p: Pass, m: FunctionId)
    requires p.Valid() && m in p.Members()
    ensures SumOf(Outside(p, m)) == Times(p.share, SumOf(Outflow(p.f, m)))
  {
    hide SumOf, Times, Reach;
    InOwnComponent(p.f.calls, m);
    var scaled := map v | v in Outflow(p.f, m) :: Times(p.share, Outflow(p.f, m)[v]);
    SumScale(p.share, Outflow(p.f, m), scaled);
    SumExtend(scaled, Outside(p, m));
  }

  lemma {:induction false} InsideTotal(p: Pass, s: set<FunctionId>, m: FunctionId)
    requires p.Valid() && m in p.Members() && p.Uphill(m) <= s <= p.Members()
    ensures SumOf(Inside(p, m)) == SumOf(Row(InnerPassing(p), m, s))
  {
    hide SumOf, Reach, PartialOf, Component, Times;
    var up := map v | v in p.Uphill(m) :: InnerPassing(p)(m, v);
    forall v | v !in p.Uphill(m)
      ensures InnerPassing(p)(m, v) == 0.0
    {
      TimesPlus(PartialOf(p, v), 0.0, 0.0);
    }
    forall v | v in p.Uphill(m)
      ensures v in Inside(p, m)
    {
      UphillSmaller(p, m, v);
    }
    SumExtend(up, Inside(p, m));
    SumExtend(up, Row(InnerPassing(p), m, s));
  }

  /** The part of the partial time of `v` that is taken over by callers in `s`. */
  ghost function UphillInflow(p: Pass, s: set<FunctionId>, v: FunctionId): real {
    SumOf(map m | m in s :: p.InnerRatio(m, v))
  }

  ghost function PassedDown(p: Pass, s: set<FunctionId>): map<FunctionId, real>
    requires p.Valid()
  {
    map v | v in s :: Times(PartialOf(p, v), UphillInflow(p, s, v))
  }

  ghost function Partials(p: Pass, s: set<FunctionId>): map<FunctionId, real>
    requires p.Valid() && s <= p.Members()
  {
    map m | m in s :: Partial(p, m)
  }

  ghost function Own(p: Pass, s: set<FunctionId>): map<FunctionId, real>
    requires p.Valid() && s <= p.f.calls.Keys
  {
    map m | m in s :: Times(p.share, Share(p.f, m))
  }

  lemma {:induction false} PassedColumns(p: Pass, s: set<FunctionId>)
    requires p.Valid()
    ensures ColumnSums(InnerPassing(p), s, s) == PassedDown(p, s)
  {
    hide SumOf, Reach, PartialOf, Component, Times;
    forall v | v in s
      ensures SumOf(Column(InnerPassing(p), s, v)) == Times(PartialOf(p, v), UphillInflow(p, s, v))
    {
      SumScale(PartialOf(p, v), map m | m in s :: p.InnerRatio(m, v), Column(InnerPassing(p), s, v));
    }
  }

  /** In a part of the cycle that is not left uphill, the partial times add up to the part's own
      time plus what its members take over from each other. */
  lemma {:induction false} PartialsBalance(p: Pass, s: set<FunctionId>)
    requires p.Valid() && UphillClosed(p, s)
    ensures SumOf(Partials(p, s)) == Times(p.share, SumOf(Shares(p.f, s))) + SumOf(PassedDown(p, s))
  {
    hide SumOf, Reach, Partial, Share, InnerPassing, PassedDown;
    var rows := RowSums(InnerPassing(p), s, s);
    forall m | m in s
      ensures Partials(p, s)[m] == Own(p, s)[m] + rows[m]
    {
      PartialSplit(p, s, m);
    }
    SumPlus(Own(p, s), rows, Partials(p, s));
    SumScale(p.share, Shares(p.f, s), Own(p, s));
    SumExchange(InnerPassing(p), s, s);
    PassedColumns(p, s);
  }

  // ----- what reaches the entry -----

  ghost predicate UphillPositive(p: Pass) {
    forall m, v :: v in p.Uphill(m) ==> p.UphillRatio(m, v) > 0.0
  }

  lemma {:induction false} MembersRanked(p: Pass)
    requires p.Valid()
    ensures p.ranks.Keys == p.Members() && p.entry in p.Members() && p.ranks[p.entry] == 0
  {
    var h := Inner(p.f.calls, p.Members());
    InOwnComponent(p.f.calls, p.entry);
    assert Walk(h, 0, p.entry, p.entry);
  }

  /** Every member but the entry is called from one step closer to the entry. */
  lemma {:induction false} CalledFromBelow(p: Pass, v: FunctionId) returns (m: FunctionId)
    requires p.Valid() && v in p.Members() && v != p.entry
    ensures m in p.ranks && v in p.Uphill(m)
  {
    hide Reach, Component, Walk;
    MembersRanked(p);
    var h := Inner(p.f.calls, p.Members());
    assert Walk(h, p.ranks[v], p.entry, v);
    m := LastCall(h, p.ranks[v], p.entry, v);
    assert m in p.ranks && v in p.f.calls[m];
  }

  lemma {:induction false} LastCall(h: Graph, n: nat, u: FunctionId, v: FunctionId) returns (m: FunctionId)
    requires Walk(h, n, u, v) && v != u
    ensures n > 0 && Walk(h, n - 1, u, m) && m in h && v in h[m]
  {
    m :| Walk(h, n - 1, u, m) && m in h && v in h[m];
  }

  ghost predicate UphillNonnegative(p: Pass) {
    forall m, v :: v in p.Uphill(m) ==> p.UphillRatio(m, v) >= 0.0
  }

  lemma {:induction false} RatioSumBounds(p: Pass, m: FunctionId, v: FunctionId)
    requires p.Valid() && UphillNonnegative(p) && m in p.ranks
    ensures 0.0 <= p.UphillRatio(m, v) <= p.RatioSum(v)
  {
    hide SumOf, Reach;
    var row := map k | k in p.ranks :: p.UphillRatio(k, v);
    forall k | k in row
      ensures row[k] >= 0.0
    {
      if v in p.Uphill(k) {
        assert p.UphillRatio(k, v) >= 0.0;
      }
    }
    SumNonnegative(row);
    assert row[m] == p.UphillRatio(m, v);
  }

  /** The members that call `v` from one step closer to the entry. */
  ghost function UphillCallers(p: Pass, v: FunctionId): set<FunctionId> {
    set m | m in p.ranks && v in p.Uphill(m)
  }

  /** A member passes on all of its partial time, the entry none of it; but if the ratios of all
      calls that lead uphill to a member are zero, each of them takes over all of its time. */
  lemma {:induction false} UphillInflowOf(p: Pass, v: FunctionId)
    requires p.Valid() && UphillNonnegative(p) && v in p.Members()
    ensures v != p.entry ==> UphillCallers(p, v) != {}
    ensures UphillInflow(p, p.Members(), v) ==
      if v == p.entry then 0.0 else if p.RatioSum(v) > 0.0 then 1.0 else |UphillCallers(p, v)| as real
  {
    hide SumOf, Reach, Component, Pass.RatioSum;
    MembersRanked(p);
    if v == p.entry {
      SumZero(map m | m in p.Members() :: p.InnerRatio(m, v));
    } else {
      var k := CalledFromBelow(p, v);
      assert k in UphillCallers(p, v);
      if p.RatioSum(v) > 0.0 {
        SharedInflow(p, v);
      } else {
        RatioSumBounds(p, k, v);
        UnsharedInflow(p, v);
      }
    }
  }

  lemma {:induction false} UnsharedInflow(p: Pass, v: FunctionId)
    requires p.Valid() && v in p.Members() && p.RatioSum(v) == 0.0
    ensures UphillInflow(p, p.Members(), v) == |UphillCallers(p, v)| as real
  {
    hide SumOf, Reach, Component, Pass.RatioSum, Pass.Uphill;
    MembersRanked(p);
    var ones := map m | m in UphillCallers(p, v) :: 1.0;
    assert ones.Keys == UphillCallers(p, v) && |ones| == |ones.Keys|;
    SumExtend(ones, map m | m in p.Members() :: p.InnerRatio(m, v));
    SumOnes(ones);
  }

  lemma {:induction false} SharedInflow(p: Pass, v: FunctionId)
    requires p.Valid() && UphillNonnegative(p) && v in p.Members() && p.RatioSum(v) > 0.0
    ensures UphillInflow(p, p.Members(), v) == 1.0
  {
    hide SumOf, Reach, Component, Pass.Uphill, ShortestRanks, Ratio, Times;
    MembersRanked(p);
    var inflow := map m | m in p.Members() :: p.InnerRatio(m, v);
    forall m | m in inflow
      ensures inflow[m] == Times(1.0 / p.RatioSum(v), p.UphillRatio(m, v))
    {
      RatioSumBounds(p, m, v);
      RatioExact(p.UphillRatio(m, v), p.RatioSum(v));
    }
    SumScale(1.0 / p.RatioSum(v), map m | m in p.ranks :: p.UphillRatio(m, v), inflow);
    TimesInverse(p.RatioSum(v));
  }

  /** The calls that lead uphill to a member take over its partial time in proportion to their ratios. */
  lemma {:induction false} UphillProportion(p: Pass, m: FunctionId, k: FunctionId, v: FunctionId)
    requires p.Valid() && UphillNonnegative(p) && v in p.Uphill(m) && v in p.Uphill(k)
    ensures m in p.Members() && k in p.Members() && (m, v) in p.f.ratio && (k, v) in p.f.ratio && v in p.Members()
    ensures Times(InnerPassing(p)(m, v), p.f.ratio[(k, v)]) == Times(InnerPassing(p)(k, v), p.f.ratio[(m, v)])
  {
    hide SumOf, Reach, Component, Partial, Ratio, Pass.RatioSum, ShortestRanks;
    UphillSmaller(p, m, v);
    UphillSmaller(p, k, v);
    MembersRanked(p);
    RatioSumBounds(p, m, v);
    RatioSumBounds(p, k, v);
    SharesInProportion(Partial(p, v), p.f.ratio[(m, v)], p.f.ratio[(k, v)], p.RatioSum(v));
  }

  lemma {:induction false} SharesInProportion(x: real, a: real, b: real, d: real)
    requires 0.0 <= a <= d && 0.0 <= b <= d
    ensures Times(Times(x, Ratio(a, d)), b) == Times(Times(x, Ratio(b, d)), a)
  {
    if d > 0.0 {
      RatioExact(a, d);
      RatioExact(b, d);
      assert a / d * b == b / d * a;
      Associative(x, a / d, b);
      Associative(x, b / d, a);
    }
  }

  lemma {:induction false} Associative(x: real, y: real, z: real)
    ensures Times(Times(x, y), z) == x * (y * z)
  {
  }

  /** With positive ratios, a member passes on all of its partial time exactly once. */
  lemma {:induction false} UphillInflowExact(p: Pass, v: FunctionId)
    requires p.Valid() && UphillPositive(p) && v in p.Members()
    ensures UphillInflow(p, p.Members(), v) == if v == p.entry then 0.0 else 1.0
  {
    hide SumOf, Reach, Component, UphillInflow;
    UphillInflowOf(p, v);
    if v != p.entry {
      var k := CalledFromBelow(p, v);
      RatioSumBounds(p, k, v);
    }
  }

  lemma {:induction false} PassedDownExact(p: Pass)
    requires p.Valid() && UphillPositive(p)
    ensures PassedDown(p, p.Members()) == Partials(p, p.Members())[p.entry := 0.0]
  {
    hide SumOf, Reach, Component, Partial, UphillInflow;
    forall v | v in p.Members()
      ensures PassedDown(p, p.Members())[v] == if v == p.entry then 0.0 else Partial(p, v)
    {
      UphillInflowExact(p, v);
    }
  }

  /** The partial time of the entry is exactly its callers' share of the time of the cycle. */
  lemma {:induction false} EntryTakesShare(p: Pass)
    requires p.Valid() && UphillPositive(p)
    ensures Partial(p, p.entry) == p.share * InclusiveTime(p.f, p.entry)
  {
    hide SumOf, Reach, Component, InclusiveTime, Partial, Shares, PassedDown, ShortestRanks;
    MembersRanked(p);
    assert UphillClosed(p, p.Members());
    PartialsBalance(p, p.Members());
    PassedDownExact(p);
    SumUpdate(Partials(p, p.Members()), p.entry, 0.0);
    InclusiveIsSumOfShares(p.f, p.entry);
  }

  lemma {:induction false} InnerRatioNonnegative(p: Pass, m: FunctionId, v: FunctionId)
    ensures p.InnerRatio(m, v) >= 0.0
  {
  }

  lemma {:induction false} PartialNonnegative(p: Pass, m: FunctionId)
    requires p.Valid() && p.f.Nonnegative() && p.share >= 0.0 && m in p.Members()
    ensures Partial(p, m) >= 0.0
    decreases p.Above(m)
  {
    hide SumOf, Reach, Component, InclusiveTime, ShortestRanks;
    forall v | v in Passing(p, m)
      ensures Passing(p, m)[v] >= 0.0
    {
      if v in p.Uphill(m) {
        UphillSmaller(p, m, v);
        AboveShrinks(p, m, v);
        PartialNonnegative(p, v);
        InnerRatioNonnegative(p, m, v);
        ProductNonnegative(p.InnerRatio(m, v), Partial(p, v));
      } else if v in Outflow(p.f, m) {
        OutflowNonnegative(p.f, m, v);
        ProductNonnegative(p.share, Outflow(p.f, m)[v]);
      }
    }
    SumNonnegative(Passing(p, m));
    ProductNonnegative(p.share, p.f.time[m]);
  }

  lemma {:induction false} OutflowNonnegative(f: Flow, u: FunctionId, v: FunctionId)
    requires f.Valid() && f.Nonnegative() && u in f.calls && v in Outflow(f, u)
    ensures Outflow(f, u)[v] >= 0.0
  {
    hide SumOf, Reach, InclusiveTime;
    OutsideOwnComponent(f, u, v);
    InclusiveNonnegative(f, v);
    ProductNonnegative(f.ratio[(u, v)], InclusiveTime(f, v));
  }

  lemma {:induction false} ShareNonnegative(f: Flow, u: FunctionId)
    requires f.Valid() && f.Nonnegative() && u in f.calls
    ensures Share(f, u) >= 0.0
  {
    hide SumOf, Reach, InclusiveTime;
    forall v | v in Outflow(f, u)
      ensures Outflow(f, u)[v] >= 0.0
    {
      OutflowNonnegative(f, u, v);
    }
    SumNonnegative(Outflow(f, u));
  }

  // ----- rank by rank -----

  /** The members at distance `r` from the entry. */
  ghost function Layer(p: Pass, r: nat): set<FunctionId> {
    set m | m in p.ranks && p.ranks[m] == r
  }

  ghost function LayerTime(p: Pass, r: nat): real
    requires p.Valid()
  {
    MembersRanked(p);
    SumOf(Partials(p, Layer(p, r)))
  }

  /** What is passed on to rank `r` by the members one step further away. */
  ghost function FromAbove(p: Pass, r: nat): map<FunctionId, real>
    requires p.Valid()
  {
    map v | v in Layer(p, r + 1) :: Times(PartialOf(p, v), UphillInflow(p, p.Members(), v))
  }

  lemma {:induction false} LayerInflow(p: Pass, r: nat, v: FunctionId)
    requires p.Valid() && v in Layer(p, r + 1)
    ensures UphillInflow(p, Layer(p, r), v) == UphillInflow(p, p.Members(), v)
  {
    hide SumOf, Reach, Component;
    MembersRanked(p);
    forall m | m in p.Members() && m !in Layer(p, r)
      ensures p.InnerRatio(m, v) == 0.0
    {
      if v in p.Uphill(m) {
        UphillSmaller(p, m, v);
      }
    }
    SumExtend(map m | m in Layer(p, r) :: p.InnerRatio(m, v), map m | m in p.Members() :: p.InnerRatio(m, v));
  }

  lemma {:induction false} LayerColumns(p: Pass, r: nat)
    requires p.Valid()
    ensures ColumnSums(InnerPassing(p), Layer(p, r), Layer(p, r + 1)) == FromAbove(p, r)
  {
    hide SumOf, Reach, PartialOf, Component, Times, Layer;
    forall v | v in Layer(p, r + 1)
      ensures SumOf(Column(InnerPassing(p), Layer(p, r), v)) == Times(PartialOf(p, v), UphillInflow(p, p.Members(), v))
    {
      LayerInflow(p, r, v);
      SumScale(PartialOf(p, v), map m | m in Layer(p, r) :: p.InnerRatio(m, v),
          Column(InnerPassing(p), Layer(p, r), v));
    }
  }

  lemma {:induction false} UphillInLayer(p: Pass, r: nat, m: FunctionId)
    requires p.Valid() && m in Layer(p, r)
    ensures m in p.Members() && p.Uphill(m) <= Layer(p, r + 1) <= p.Members() && Layer(p, r) <= p.Members()
  {
    MembersRanked(p);
    forall v | v in p.Uphill(m)
      ensures v in Layer(p, r + 1)
    {
      UphillSmaller(p, m, v);
    }
  }

  /** The partial times at one rank are the own times at that rank and what the next rank passes on. */
  lemma {:induction false} LayerBalance(p: Pass, r: nat)
    requires p.Valid()
    ensures Layer(p, r) <= p.Members()
    ensures LayerTime(p, r) == Times(p.share, SumOf(Shares(p.f, Layer(p, r)))) + SumOf(FromAbove(p, r))
  {
    hide SumOf, Reach, Partial, Share, InnerPassing, FromAbove, Layer, Component;
    LayerInside(p, r);
    var s, t := Layer(p, r), Layer(p, r + 1);
    var rows := RowSums(InnerPassing(p), s, t);
    forall m | m in s
      ensures Partials(p, s)[m] == Own(p, s)[m] + rows[m]
    {
      UphillInLayer(p, r, m);
      PartialSplit(p, t, m);
    }
    SumPlus(Own(p, s), rows, Partials(p, s));
    SumScale(p.share, Shares(p.f, s), Own(p, s));
    SumExchange(InnerPassing(p), s, t);
    LayerColumns(p, r);
  }

  lemma {:induction false} LayerInside(p: Pass, r: nat)
    requires p.Valid()
    ensures Layer(p, r) <= p.Members()
    ensures p.entry !in Layer(p, r + 1) && Layer(p, 0) == {p.entry}
  {
    hide Reach, Component;
    MembersRanked(p);
    forall m | m in Layer(p, 0)
      ensures m == p.entry
    {
      assert Walk(Inner(p.f.calls, p.Members()), 0, p.entry, m);
    }
  }

  lemma {:induction false} TimesAtLeast(a: real, b: real)
    requires a >= 0.0 && b >= 1.0
    ensures Times(a, b) >= a
    ensures b > 1.0 ==> (Times(a, b) == a <==> a == 0.0)
  {
    assert Times(a, b) - a == a * (b - 1.0);
    if a > 0.0 && b > 1.0 {
      ProductIsPositive(a, b - 1.0);
    }
  }

  lemma {:induction false} ProductIsPositive(a: real, b: real)
    requires a > 0.0 && b > 0.0
    ensures a * b > 0.0
  {
  }

  /** No rank passes on less than it has got, whatever the ratios are. */
  lemma {:induction false} PassedOnAtLeastOnce(p: Pass, v: FunctionId)
    requires p.Valid() && p.f.Nonnegative() && p.share >= 0.0 && v in p.Members() && v != p.entry
    ensures UphillInflow(p, p.Members(), v) >= 1.0
    ensures Times(PartialOf(p, v), UphillInflow(p, p.Members(), v)) >= PartialOf(p, v) >= 0.0
  {
    hide SumOf, Reach, Component, Partial, UphillInflow, Times;
    NonnegativePass(p);
    UphillInflowOf(p, v);
    PartialNonnegative(p, v);
    TimesAtLeast(PartialOf(p, v), UphillInflow(p, p.Members(), v));
  }

  lemma {:induction false} NonnegativePass(p: Pass)
    requires p.f.Nonnegative()
    ensures UphillNonnegative(p)
  {
  }

  lemma {:induction false} LayerGrows(p: Pass, r: nat)
    requires p.Valid() && p.f.Nonnegative() && p.share >= 0.0
    ensures LayerTime(p, r + 1) <= LayerTime(p, r)
  {
    hide SumOf, Reach, Component, Partial, Share, Layer, UphillInflow, Times;
    LayerInside(p, r);
    LayerInside(p, r + 1);
    LayerBalance(p, r);
    forall m | m in Layer(p, r)
      ensures Shares(p.f, Layer(p, r))[m] >= 0.0
    {
      ShareNonnegative(p.f, m);
    }
    SumNonnegative(Shares(p.f, Layer(p, r)));
    TimesNonnegative(p.share, SumOf(Shares(p.f, Layer(p, r))));
    forall v | v in Layer(p, r + 1)
      ensures FromAbove(p, r)[v] >= Partials(p, Layer(p, r + 1))[v]
    {
      LayerInside(p, r);
      PassedOnAtLeastOnce(p, v);
    }
    SumLeq(Partials(p, Layer(p, r + 1)), FromAbove(p, r));
  }

  lemma {:induction false} TimesNonnegative(a: real, b: real)
    requires a >= 0.0 && b >= 0.0
    ensures Times(a, b) >= 0.0
  {
  }

  lemma {:induction false} LayerBelowEntry(p: Pass, r: nat)
    requires p.Valid() && p.f.Nonnegative() && p.share >= 0.0
    ensures LayerTime(p, r) <= Partial(p, p.entry)
  {
    hide SumOf, Reach, Component, Partial, Layer;
    LayerInside(p, 0);
    if r == 0 {
      SumRemove(Partials(p, {p.entry}), p.entry);
      SumZero(Partials(p, {p.entry}) - {p.entry});
    } else {
      LayerGrows(p, r - 1);
      LayerBelowEntry(p, r - 1);
    }
  }

  /** No member's partial time exceeds that of the entry. */
  lemma {:induction false} EntryIsMaximal(p: Pass, m: FunctionId)
    requires p.Valid() && p.f.Nonnegative() && p.share >= 0.0 && m in p.Members()
    ensures 0.0 <= Partial(p, m) <= Partial(p, p.entry)
  {
    hide SumOf, Reach, Component, Partial, ShortestRanks;
    MembersRanked(p);
    LayerInside(p, p.ranks[m]);
    var s := Layer(p, p.ranks[m]);
    assert m in s && Partials(p, s)[m] == Partial(p, m);
    forall v | v in s
      ensures Partials(p, s)[v] >= 0.0
    {
      PartialNonnegative(p, v);
    }
    SumNonnegative(Partials(p, s));
    LayerBelowEntry(p, p.ranks[m]);
  }

  // ----- the assertions about a pass -----

  /** The tolerated deviation of the partial time from what is expected of it; without any
      expectation there is nothing to divide by. */
  predicate Accepted(partial: real, expected: real) {
    expected != 0.0 && -0.001 <= 1.0 - partial / expected <= 0.001
  }

  /** What is asserted at the end of a pass: no member's partial time exceeds that of the entry, and
      if the cycle takes time, that of the entry is the callers' share of it. */
  ghost predicate Asserted(p: Pass)
    requires p.Valid()
  {
    && (forall m :: m in p.Members() ==> Partial(p, m) <= Partial(p, p.entry))
    && (InclusiveTime(p.f, p.entry) != 0.0 ==>
      Accepted(Partial(p, p.entry), Times(p.share, InclusiveTime(p.f, p.entry))))
  }
}
