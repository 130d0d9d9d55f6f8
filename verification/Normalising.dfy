/** What the normalisation of call counts accumulates and writes. */
module Normalising {
  import opened Graphs
  import opened Sums
  import opened Inclusive
  import opened Ratios
  import opened Ledger
  import opened Tallies
  import opened Settlement

  ghost function CountsOf(g: Graph, calls: map<Edge, Events>, event: Event): Counts {
    Counts(g, map e | e in calls && e.0 != e.1 && event in calls[e] :: calls[e][event])
  }

  /** The counts of the calls in a snapshot. */
  ghost function CountsIn(g: Graph, b: Books, event: Event): Counts {
    CountsOf(g, b.calls, event)
  }

  /** The calls of the functions `ms`. */
  ghost function CallsFrom(g: Graph, ms: set<FunctionId>): set<Edge> {
    set m, v | m in ms && m in g && v in g[m] :: (m, v)
  }

  ghost function CallCountOf(k: Counts): (FunctionId, FunctionId) -> real {
    (u, v) => CallCount(k, u, v)
  }

  ghost function CrossCountOf(k: Counts): (FunctionId, FunctionId) -> real {
    (u, v) => CrossCount(k, u, v)
  }

  ghost function EdgeSums(w: (FunctionId, FunctionId) -> real, ms: set<FunctionId>, edges: set<Edge>,
      vs: set<FunctionId>): map<FunctionId, real>
  {
    map v | v in vs :: EdgeSum(w, ms, edges, v)
  }

  /** Totals per function, after the calls in `edges`. */
  ghost predicate FunctionTotals(k: Counts, edges: set<Edge>, totals: map<FunctionId, real>) {
    totals == EdgeSums(CallCountOf(k), k.calls.Keys, edges, k.calls.Keys)
  }

  /** The total of the calls in `edges` that enter `c` from outside. */
  ghost function EntryTotal(k: Counts, edges: set<Edge>, c: set<FunctionId>): real {
    SumOf(EdgeSums(CrossCountOf(k), k.calls.Keys, edges, c))
  }

  lemma {:induction false} EdgeSumsMore(w: (FunctionId, FunctionId) -> real, ms: set<FunctionId>, edges: set<Edge>,
      vs: set<FunctionId>, m: FunctionId, v: FunctionId)
    requires m in ms && (m, v) !in edges
    ensures v in vs ==>
      EdgeSums(w, ms, edges + {(m, v)}, vs) == EdgeSums(w, ms, edges, vs)[v := EdgeSum(w, ms, edges, v) + w(m, v)]
    ensures v !in vs ==> EdgeSums(w, ms, edges + {(m, v)}, vs) == EdgeSums(w, ms, edges, vs)
  {
    hide EdgeSum;
    forall x | x in vs
      ensures EdgeSum(w, ms, edges + {(m, v)}, x) == EdgeSum(w, ms, edges, x) + if x == v then w(m, v) else 0.0
    {
      EdgeSumOne(w, ms, edges, m, v, x);
    }
  }

  lemma {:induction false} EntryTotalMore(k: Counts, edges: set<Edge>, c: set<FunctionId>, m: FunctionId, v: FunctionId)
    requires m in k.calls && (m, v) !in edges
    ensures EntryTotal(k, edges + {(m, v)}, c) == EntryTotal(k, edges, c) + if v in c then CrossCount(k, m, v) else 0.0
  {
    hide EdgeSum, SumOf, CrossCount;
    EdgeSumsMore(CrossCountOf(k), k.calls.Keys, edges, c, m, v);
    if v in c {
      SumUpdate(EdgeSums(CrossCountOf(k), k.calls.Keys, edges, c), v,
          EdgeSum(CrossCountOf(k), k.calls.Keys, edges, v) + CrossCount(k, m, v));
    }
  }

  lemma {:induction false} FunctionTotalsDefined(k: Counts, edges: set<Edge>, totals: map<FunctionId, real>,
      v: FunctionId)
    requires FunctionTotals(k, edges, totals)
    ensures v in totals <==> v in k.calls
  {
  }

  lemma {:induction false} FunctionTotalsMore(k: Counts, edges: set<Edge>, edges': set<Edge>,
      totals: map<FunctionId, real>, m: FunctionId, v: FunctionId, total: real)
    requires FunctionTotals(k, edges, totals) && m in k.calls && v in k.calls && (m, v) !in edges
    requires edges' == edges + {(m, v)} && v in totals && total == totals[v] + CallCount(k, m, v)
    ensures FunctionTotals(k, edges', totals[v := total])
  {
    hide EdgeSum, CallCount;
    EdgeSumsMore(CallCountOf(k), k.calls.Keys, edges, k.calls.Keys, m, v);
  }

  lemma {:induction false} NothingTotalled(k: Counts, totals: map<FunctionId, real>, c: set<FunctionId>)
    requires totals.Keys == k.calls.Keys && forall v :: v in totals ==> totals[v] == 0.0
    ensures FunctionTotals(k, {}, totals) && EntryTotal(k, {}, c) == 0.0
  {
    hide SumOf;
    forall w: (FunctionId, FunctionId) -> real, v
      ensures EdgeSum(w, k.calls.Keys, {}, v) == 0.0
    {
      EmptySum(w, k.calls.Keys, {}, v);
    }
    SumZero(EdgeSums(CrossCountOf(k), k.calls.Keys, {}, c));
  }

  /** All calls together give the totals of the specification. */
  lemma {:induction false} AllTotalled(k: Counts, totals: map<FunctionId, real>, v: FunctionId)
    requires FunctionTotals(k, CallsFrom(k.calls, k.calls.Keys), totals) && v in k.calls
    ensures v in totals && totals[v] == FunctionTotal(k, v)
  {
    WholeSum(CallCountOf(k), k.calls, v);
    assert (map m | m in k.calls :: CallCountOf(k)(m, v)) == (map m | m in k.calls :: CallCount(k, m, v));
  }

  lemma {:induction false} WholeSum(w: (FunctionId, FunctionId) -> real, g: Graph, v: FunctionId)
    requires forall m :: m in g && v !in g[m] ==> w(m, v) == 0.0
    ensures EdgeSum(w, g.Keys, CallsFrom(g, g.Keys), v) == SumOf(map m | m in g :: w(m, v))
  {
    hide SumOf;
    var a, b := map m | m in Callers(g.Keys, CallsFrom(g, g.Keys), v) :: w(m, v), map m | m in g :: w(m, v);
    SumExtend(a, b);
  }

  lemma {:induction false} AllEntryTotals(k: Counts, c: set<FunctionId>)
    ensures EntryTotal(k, CallsFrom(k.calls, k.calls.Keys), c) == CrossTotal(k, c)
  {
    hide SumOf, EdgeSum;
    forall v | v in c
      ensures EdgeSum(CrossCountOf(k), k.calls.Keys, CallsFrom(k.calls, k.calls.Keys), v) == CrossInto(k, v)
    {
      WholeSum(CrossCountOf(k), k.calls, v);
      assert (map m | m in k.calls :: CrossCountOf(k)(m, v)) == (map m | m in k.calls :: CrossCount(k, m, v));
    }
    assert EdgeSums(CrossCountOf(k), k.calls.Keys, CallsFrom(k.calls, k.calls.Keys), c) == map v | v in c ::
      CrossInto(k, v);
  }

  // ----- the ratios written -----

  ghost function RatedAt(events: Events, k: Counts, edges: set<Edge>, e: Edge): Events {
    if e in edges && e.0 != e.1 then events[CallRatio := CallRatioOf(k, e.0, e.1)] else events
  }

  ghost function RatedCalls(m: map<Edge, Events>, k: Counts, edges: set<Edge>): map<Edge, Events> {
    map e | e in m :: RatedAt(m[e], k, edges, e)
  }

  /** The books after the calls in `edges` have got their ratios. */
  ghost function RatedBooks(b: Books, k: Counts, edges: set<Edge>): Books {
    b.(calls := RatedCalls(b.calls, k, edges))
  }

  /** Every call carries its count and no ratio yet. */
  ghost predicate CountsReady(g: Graph, b: Books, event: Event) {
    && (forall u, v :: u in g && v in g[u] ==> (u, v) in b.calls)
    && (forall e :: e in b.calls ==>
      e.0 in g && e.1 in g[e.0] && CallRatio !in b.calls[e] && (e.0 != e.1 ==> event in b.calls[e]))
  }

  lemma {:induction false} RatedMore(b: Books, k: Counts, edges: set<Edge>, edges': set<Edge>, u: FunctionId,
      v: FunctionId, ratio: real, s: Books, t: Books)
    requires s == RatedBooks(b, k, edges) && (u, v) in s.calls && u != v && (u, v) !in edges
    requires edges' == edges + {(u, v)}
    requires ratio == CallRatioOf(k, u, v)
    requires t == s.(calls := s.calls[(u, v) := s.calls[(u, v)][CallRatio := ratio]])
    ensures t == RatedBooks(b, k, edges')
  {
    hide CallRatioOf;
    assert t.calls == RatedCalls(b.calls, k, edges');
  }

  lemma {:induction false} RatedSelf(b: Books, k: Counts, edges: set<Edge>, edges': set<Edge>, u: FunctionId)
    requires edges' == edges + {(u, u)}
    ensures RatedBooks(b, k, edges') == RatedBooks(b, k, edges)
  {
    hide CallRatioOf;
    assert RatedCalls(b.calls, k, edges') == RatedCalls(b.calls, k, edges);
  }

  lemma {:induction false} RatedNone(b: Books, k: Counts)
    ensures RatedBooks(b, k, {}) == b
  {
    hide CallRatioOf;
    assert RatedCalls(b.calls, k, {}) == b.calls;
  }

  lemma {:induction false} RatedReads(b: Books, k: Counts, edges: set<Edge>, event: Event, u: FunctionId, v: FunctionId)
    requires k == CountsIn(k.calls, b, event) && CountsReady(k.calls, b, event) && u in k.calls && v in k.calls[u]
    requires event != CallRatio
    requires (u, v) !in edges
    ensures (u, v) in RatedBooks(b, k, edges).calls && CallRatio !in RatedBooks(b, k, edges).calls[(u, v)]
    ensures u != v ==>
      event in RatedBooks(b, k, edges).calls[(u, v)] &&
        RatedBooks(b, k, edges).calls[(u, v)][event] == CallCount(k, u, v)
  {
  }

  lemma {:induction false} CallsFromMore(g: Graph, ms: set<FunctionId>, m: FunctionId)
    requires m in g && m !in ms
    ensures CallsFrom(g, ms + {m}) == CallsFrom(g, ms) + CallsTo(m, g[m])
    ensures forall v :: (m, v) !in CallsFrom(g, ms)
    ensures CallsFrom(g, {}) == {}
  {
  }

  lemma {:induction false} SameNormalisedRatios(g: Graph, m: map<Edge, Events>, k: Counts)
    requires Closed(g) && (forall u, v :: u in g && v in g[u] ==> (u, v) in m)
    requires forall e :: e in m ==> CallRatio !in m[e] && e.0 in g && e.1 in g[e.0]
    ensures var r := RatedCalls(m, k, CallsFrom(g, g.Keys));
      (map e | e in r && e.0 != e.1 && CallRatio in r[e] :: r[e][CallRatio]) ==
      (map u, v | u in g && v in g[u] && v != u :: (u, v) := CallRatioOf(k, u, v))
  {
    hide CallRatioOf;
    var r := RatedCalls(m, k, CallsFrom(g, g.Keys));
    forall e | e in m
      ensures r[e] == if e.0 != e.1 then m[e][CallRatio := CallRatioOf(k, e.0, e.1)] else m[e]
    {
      assert e == (e.0, e.1) && e in CallsFrom(g, g.Keys);
    }
  }

  /** Normalising the counts of a snapshot gives the flow that the ratios written describe. */
  lemma {:induction false} RatedFlow(g: Graph, b: Books, event: Event, inn: Event)
    requires Covering(g, b) && inn != CallRatio && (forall u :: u in b.functions ==> inn in b.functions[u])
    requires CountsReady(g, b, event)
    ensures FlowIn(g, RatedBooks(b, CountsIn(g, b, event), CallsFrom(g, g.Keys)), inn) ==
      Normalised(CountsIn(g, b, event), map u | u in g :: b.functions[u][inn])
  {
    hide CallRatioOf, Reach, Recursive, RatedCalls, CallsFrom, CountsIn, CountsReady;
    CountsGraph(g, b, event);
    RatedRatios(g, b, CountsIn(g, b, event), event);
    CoveredTimes(g, b.functions, inn);
    hide Covering;
  }

  lemma {:induction false} CoveredTimes(g: Graph, m: map<FunctionId, Events>, inn: Event)
    requires m.Keys == g.Keys && forall u :: u in m ==> inn in m[u]
    ensures (map u | u in g && u in m && inn in m[u] :: m[u][inn]) == map u | u in g :: m[u][inn]
  {
  }

  lemma {:induction false} RatedRatios(g: Graph, b: Books, k: Counts, event: Event)
    requires Covering(g, b) && CountsReady(g, b, event)
    ensures var r := RatedCalls(b.calls, k, CallsFrom(g, g.Keys));
      (map e | e in r && e.0 != e.1 && CallRatio in r[e] :: r[e][CallRatio]) ==
      (map u, v | u in g && v in g[u] && v != u :: (u, v) := CallRatioOf(k, u, v))
  {
    hide CallRatioOf, Reach, Recursive, RatedCalls, CallsFrom;
    SameNormalisedRatios(g, b.calls, k);
  }

  lemma {:induction false} CountsGraph(g: Graph, b: Books, event: Event)
    ensures CountsIn(g, b, event).calls == g
  {
  }

  lemma {:induction false} CallsFromNone(g: Graph)
    ensures CallsFrom(g, {}) == {}
  {
  }

  lemma {:induction false} SameComponent(g: Graph, u: FunctionId, v: FunctionId)
    requires u in g
    ensures v in Component(g, u) <==> u in Component(g, v)
  {
  }

  lemma {:induction false} SelfCount(k: Counts, u: FunctionId)
    ensures CallCount(k, u, u) == 0.0
  {
  }
}
