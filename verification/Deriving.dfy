/** The derived events of a sampled profile: time ratios, call ratios, total time ratios. */
module Deriving {
  import opened Graphs
  import opened Sums
  import opened Inclusive
  import opened Ratios
  import opened Totals
  import opened Ledger
  import opened Tallies
  import opened Settlement
  import opened Normalising
  import opened Scaling
  import opened Bounds
  import opened Charging
  import opened CallTimes
  import opened Callstacks
  import opened Assertions

  /** The events that a parser must not have set. */
  const DERIVED: set<Event> := {TimeRatio, TotalTimeRatio, CallRatio}

  /** Nothing but derived events has been added or changed. */
  ghost predicate Agree<K>(a: map<K, Events>, b: map<K, Events>) {
    a.Keys == b.Keys && forall k, event :: k in a && event !in DERIVED ==> SameEvent(a[k], b[k], event)
  }

  lemma {:induction false} AgreeOn<K>(a: map<K, Events>, b: map<K, Events>, event: Event)
    requires Agree(a, b) && event !in DERIVED
    ensures a.Keys == b.Keys
    ensures forall k :: k in a ==> (event in a[k] <==> event in b[k]) && (event in a[k] ==> a[k][event] == b[k][event])
  {
    forall k | k in a
      ensures SameEvent(a[k], b[k], event)
    {
    }
  }

  lemma {:induction false} AgreeTransitive<K>(a: map<K, Events>, b: map<K, Events>, c: map<K, Events>)
    requires Agree(a, b) && Agree(b, c)
    ensures Agree(a, c)
  {
    forall k, event | k in a && event !in DERIVED
      ensures SameEvent(a[k], c[k], event)
    {
      assert SameEvent(a[k], b[k], event) && SameEvent(b[k], c[k], event);
    }
  }

  lemma {:induction false} ScaledAgree<K>(m: map<K, Events>, done: set<K>, total: real)
    ensures Agree(m, Scaled(m, done, TimeRatio, Samples, total))
  {
  }

  lemma {:induction false} RatedAgree(b: Books, k: Counts, edges: set<Edge>)
    ensures RatedBooks(b, k, edges).functions == b.functions
    ensures Agree(b.calls, RatedBooks(b, k, edges).calls)
  {
    hide CallRatioOf;
  }

  lemma {:induction false} RatiosAgree(fs: map<FunctionId, Events>, cs: map<Edge, Events>, ids: set<FunctionId>,
      edges: set<Edge>, total: real, b: Books, k: Counts)
    requires b.functions == Scaled(fs, ids, TimeRatio, Samples, total)
    requires b.calls == Scaled(cs, edges, TimeRatio, Samples, total)
    ensures Agree(fs, RatedBooks(b, k, edges).functions) && Agree(cs, RatedBooks(b, k, edges).calls)
  {
    hide Agree, Scaled, RatedBooks;
    ScaledAgree(fs, ids, total);
    ScaledAgree(cs, edges, total);
    RatedAgree(b, k, edges);
    AgreeTransitive(cs, b.calls, RatedBooks(b, k, edges).calls);
  }

  lemma {:induction false} SettledAgree(b: Books, f: Flow, done: set<FunctionId>)
    requires f.Valid() && done <= f.calls.Keys
    ensures Agree(b.functions, Settled(b, f, TotalTimeRatio, done).functions)
    ensures Agree(b.calls, Settled(b, f, TotalTimeRatio, done).calls)
  {
    hide FunctionOut, CallOut, HasCallOut, Flow.Valid;
  }

  ghost function SamplesIn(m: map<FunctionId, Events>): map<FunctionId, real> {
    map u | u in m && Samples in m[u] :: m[u][Samples]
  }

  ghost function SharesOf(m: map<FunctionId, Events>, total: real): map<FunctionId, real>
    requires total != 0.0
  {
    map u | u in m && Samples in m[u] :: m[u][Samples] / total
  }

  /** What a parser leaves behind: every function carries its samples, every call its count. */
  ghost predicate Sampled(functions: map<FunctionId, Events>, calls: map<Edge, Events>, count: Event, total: real) {
    && count !in DERIVED
    && (forall u :: u in functions ==> functions[u].Keys !! DERIVED && Samples in functions[u])
    && (forall e :: e in calls ==> calls[e].Keys !! DERIVED && (e.0 != e.1 ==> count in calls[e]))
    && total == SumOf(SamplesIn(functions))
  }

  ghost predicate NonnegativeSamples(functions: map<FunctionId, Events>) {
    forall u :: u in functions && Samples in functions[u] ==> functions[u][Samples] >= 0.0
  }

  ghost predicate PositiveCounts(calls: map<Edge, Events>, count: Event) {
    forall e :: e in calls && e.0 != e.1 && count in calls[e] ==> calls[e][count] > 0.0
  }

  /** The call flow that results from what a parser leaves behind. */
  ghost function DerivedFlow(g: Graph, functions: map<FunctionId, Events>, calls: map<Edge, Events>, count: Event,
      total: real): Flow
  {
    Normalised(CountsOf(g, calls, count), TimeRatios(Scaled(functions, functions.Keys, TimeRatio, Samples, total)))
  }

  /** The books of an analysed profile once the time ratios are known. */
  ghost predicate Timed(g: Graph, b: Books, count: Event) {
    && Covering(g, b) && count !in DERIVED
    && (forall u :: u in b.cycles ==> b.cycles[u] == map[])
    && (forall u :: u in b.functions ==>
      TotalTimeRatio !in b.functions[u] && TimeRatio in b.functions[u] && b.functions[u][TimeRatio] >= 0.0)
    && (forall e :: e in b.calls ==>
      && e.0 in g && e.1 in g[e.0] && TotalTimeRatio !in b.calls[e] && CallRatio !in b.calls[e]
      && (e.0 != e.1 ==> count in b.calls[e]))
  }

  ghost function TimeRatios(m: map<FunctionId, Events>): map<FunctionId, real> {
    map u | u in m && TimeRatio in m[u] :: m[u][TimeRatio]
  }

  lemma {:induction false} SampledFunctions(functions: map<FunctionId, Events>, calls: map<Edge, Events>, count: Event,
      total: real, timed: map<FunctionId, Events>)
    requires Sampled(functions, calls, count, total)
    requires timed == Scaled(functions, functions.Keys, TimeRatio, Samples, total)
    ensures timed.Keys == SamplesIn(functions).Keys == TimeRatios(timed).Keys == functions.Keys
    ensures forall u :: u in timed ==> TotalTimeRatio !in timed[u] && TimeRatio in timed[u]
    ensures forall u :: u in timed ==> timed[u][TimeRatio] == Ratio(SamplesIn(functions)[u], total) >= 0.0
  {
    hide SumOf, Ratio, Scaled;
    ScaledKeys(functions, functions.Keys, TimeRatio, Samples, total);
    forall u | u in functions
      ensures TotalTimeRatio !in timed[u] && TimeRatio in timed[u]
      ensures timed[u][TimeRatio] == Ratio(SamplesIn(functions)[u], total) >= 0.0
    {
      ScaledPick(functions, functions.Keys, u, TimeRatio, Samples, total);
      RatioBounds(functions[u][Samples], total);
    }
  }

  lemma {:induction false} SampledCalls(functions: map<FunctionId, Events>, calls: map<Edge, Events>, edges: set<Edge>,
      count: Event, total: real, timed: map<Edge, Events>)
    requires Sampled(functions, calls, count, total) && timed == Scaled(calls, edges, TimeRatio, Samples, total)
    ensures timed.Keys == calls.Keys
    ensures forall e :: e in timed ==>
      TotalTimeRatio !in timed[e] && CallRatio !in timed[e] && (e.0 != e.1 ==> count in timed[e])
  {
    hide SumOf, Scaled;
    ScaledKeys(calls, edges, TimeRatio, Samples, total);
    forall e | e in calls
      ensures TotalTimeRatio !in timed[e] && CallRatio !in timed[e]
      ensures e.0 != e.1 ==> count in timed[e]
    {
      ScaledPick(calls, edges, e, TimeRatio, Samples, total);
    }
  }

  /** Scaling the samples leaves the counts as they are. */
  lemma {:induction false} ScaledCounts(g: Graph, calls: map<Edge, Events>, edges: set<Edge>, count: Event, total: real)
    requires count !in DERIVED
    ensures CountsOf(g, Scaled(calls, edges, TimeRatio, Samples, total), count) == CountsOf(g, calls, count)
    ensures PositiveCounts(calls, count) ==> PositiveCounts(Scaled(calls, edges, TimeRatio, Samples, total), count)
  {
    hide Scaled;
    ScaledKeys(calls, edges, TimeRatio, Samples, total);
    forall e | e in calls
      ensures var timed := Scaled(calls, edges, TimeRatio, Samples, total);
        (count in timed[e] <==> count in calls[e]) && (count in calls[e] ==> timed[e][count] == calls[e][count])
    {
      ScaledPick(calls, edges, e, TimeRatio, Samples, total);
    }
  }

  lemma {:induction false} SampledTimed(g: Graph, functions: map<FunctionId, Events>, calls: map<Edge, Events>,
      edges: set<Edge>, count: Event, total: real, b: Books)
    requires Sampled(functions, calls, count, total) && Covering(g, b) && functions.Keys == g.Keys
    requires forall u :: u in b.cycles ==> b.cycles[u] == map[]
    requires forall e :: e in calls ==> e.0 in g && e.1 in g[e.0]
    requires b.functions == Scaled(functions, g.Keys, TimeRatio, Samples, total)
    requires b.calls == Scaled(calls, edges, TimeRatio, Samples, total)
    ensures Timed(g, b, count)
  {
    hide Reach, SumOf, Ratio, Covering, Scaled, SamplesIn, TimeRatios, Sampled;
    SampledFunctions(functions, calls, count, total, b.functions);
    SampledCalls(functions, calls, edges, count, total, b.calls);
    SampledCount(functions, calls, count, total);
  }

  /** The time ratios are the exact shares of the samples and add up to one, if there are samples. */
  lemma {:induction false} SampledTotal(functions: map<FunctionId, Events>, calls: map<Edge, Events>, count: Event,
      total: real, timed: map<FunctionId, Events>)
    requires Sampled(functions, calls, count, total)
    requires timed == Scaled(functions, functions.Keys, TimeRatio, Samples, total)
    requires NonnegativeSamples(functions) && total > 0.0
    ensures TimeRatios(timed).Keys == functions.Keys
    ensures forall u :: u in functions ==>
      Samples in functions[u] && TimeRatios(timed)[u] == functions[u][Samples] / total
    ensures SumOf(TimeRatios(timed)) == 1.0
  {
    hide SumOf, Ratio, Scaled, Sampled;
    SampledFunctions(functions, calls, count, total, timed);
    SampledCount(functions, calls, count, total);
    RatiosTotal(SamplesIn(functions), TimeRatios(timed), total);
    SumNonnegative(SamplesIn(functions));
    forall u | u in functions
      ensures u in SamplesIn(functions) && TimeRatios(timed)[u] == functions[u][Samples] / total
    {
      RatioExact(SamplesIn(functions)[u], total);
    }
  }

  /** Without any samples every function counts as the whole: the time ratios add up to the number of
      functions, hence to one only for a single function. */
  lemma {:induction false} SampledTotalIff(functions: map<FunctionId, Events>, calls: map<Edge, Events>, count: Event,
      total: real, timed: map<FunctionId, Events>)
    requires Sampled(functions, calls, count, total)
    requires timed == Scaled(functions, functions.Keys, TimeRatio, Samples, total)
    requires NonnegativeSamples(functions)
    ensures SumOf(TimeRatios(timed)) == 1.0 <==> total > 0.0 || |functions| == 1
  {
    hide SumOf, Ratio, Scaled, Sampled;
    SampledFunctions(functions, calls, count, total, timed);
    SampledCount(functions, calls, count, total);
    RatiosTotal(SamplesIn(functions), TimeRatios(timed), total);
    SumNonnegative(SamplesIn(functions));
    assert |TimeRatios(timed)| == |TimeRatios(timed).Keys| == |functions.Keys| == |functions|;
  }

  lemma {:induction false} SampledCount(functions: map<FunctionId, Events>, calls: map<Edge, Events>, count: Event,
      total: real)
    requires Sampled(functions, calls, count, total)
    ensures count !in DERIVED && total == SumOf(SamplesIn(functions))
    ensures NonnegativeSamples(functions) ==> forall u :: u in SamplesIn(functions) ==> SamplesIn(functions)[u] >= 0.0
  {
    hide SumOf;
  }

  lemma {:induction false} SampledReady(functions: map<FunctionId, Events>, calls: map<Edge, Events>, count: Event,
      total: real)
    requires Sampled(functions, calls, count, total)
    ensures forall u :: u in functions ==> TimeRatio !in functions[u] && Samples in functions[u]
    ensures forall e :: e in calls ==> TimeRatio !in calls[e]
  {
    hide SumOf;
  }

  lemma {:induction false} TimedReady(g: Graph, b: Books, count: Event)
    requires Timed(g, b, count)
    ensures count != CallRatio
    ensures forall e :: e in b.calls ==> CallRatio !in b.calls[e] && (e.0 != e.1 ==> count in b.calls[e])
  {
    hide Covering;
  }

  /** After the call ratios, everything that the integration relies on holds; with positive counts
      time is passed on exactly once. */
  lemma {:induction false} TimedFlow(g: Graph, b: Books, count: Event)
    requires Timed(g, b, count)
    ensures var rated := RatedBooks(b, CountsIn(g, b, count), CallsFrom(g, g.Keys));
      && FlowIn(g, rated, TimeRatio) == Normalised(CountsIn(g, b, count), TimeRatios(b.functions))
      && FlowIn(g, rated, TimeRatio).time == TimeRatios(b.functions)
      && FlowIn(g, rated, TimeRatio).Valid() && FlowIn(g, rated, TimeRatio).Nonnegative()
      && (PositiveCounts(b.calls, count) ==>
        FlowIn(g, rated, TimeRatio).Positive() && Balanced(FlowIn(g, rated, TimeRatio)))
      && Unintegrated(g, rated, TotalTimeRatio, TimeRatio)
  {
    hide Reach, Recursive, SumOf, CallRatioOf, FlowIn, Balanced, RatedBooks, Counts.Nonnegative, Counts.Positive,
      Counts.Valid, CallsFrom, CountsIn, CountsOf, PositiveCounts;
    var k := CountsIn(g, b, count);
    TimedCounts(g, b, count);
    RatedFlow(g, b, count, TimeRatio);
    assert TimeRatios(b.functions) == map u | u in g :: b.functions[u][TimeRatio];
    NormalisedValid(k, TimeRatios(b.functions));
    RatiosNonnegative(k, TimeRatios(b.functions));
    if PositiveCounts(b.calls, count) {
      NormalisedPositive(k, TimeRatios(b.functions));
      PositiveBalanced(k, TimeRatios(b.functions));
    }
    TimedUnintegrated(g, b, k, count);
  }

  lemma {:induction false} TimedCounts(g: Graph, b: Books, count: Event)
    requires Timed(g, b, count)
    ensures var k := CountsIn(g, b, count);
      k.calls == g && k.Valid() && (PositiveCounts(b.calls, count) ==> k.Nonnegative() && k.Positive())
    ensures CountsReady(g, b, count)
  {
    hide Reach, Recursive;
  }

  lemma {:induction false} TimedUnintegrated(g: Graph, b: Books, k: Counts, count: Event)
    requires Timed(g, b, count) && k == CountsIn(g, b, count)
    ensures Unintegrated(g, RatedBooks(b, k, CallsFrom(g, g.Keys)), TotalTimeRatio, TimeRatio)
  {
    hide Reach, Recursive, CallRatioOf, CountsIn;
    assert forall e :: e in b.calls ==> e == (e.0, e.1) && e in CallsFrom(g, g.Keys);
  }

  /** Everything integrated lies between zero and the total, that of a call at most at the time of
      its callee, and the roots add up to the total. */
  lemma {:induction false} FlowBounds(f: Flow, total: real)
    requires f.Valid() && f.Nonnegative() && f.Positive() && Balanced(f) && SumOf(f.time) == total
    ensures forall u :: u in f.calls ==> 0.0 <= FunctionOut(f, u) <= InclusiveTime(f, u) <= total
    ensures forall u, v :: u in f.calls && v in f.calls ==> 0.0 <= CallTime(f, u, v) <= FunctionOut(f, v)
    ensures SumOf(ComponentTimes(f, Roots(f.calls))) == total
  {
    hide SumOf, InclusiveTime, FunctionOut, CallTime, Balanced, Reach, Flow.Positive, Flow.Nonnegative;
    RootConservation(f);
    forall u | u in f.calls
      ensures 0.0 <= FunctionOut(f, u) <= InclusiveTime(f, u) <= total
    {
      MemberBound(f, u);
      InclusiveBound(f, u);
    }
    forall u, v | u in f.calls && v in f.calls
      ensures 0.0 <= CallTime(f, u, v) <= FunctionOut(f, v)
    {
      CallBound(f, u, v);
    }
  }

  // ----- call stacks -----

  ghost predicate Framed(ids: set<FunctionId>, ts: seq<Trace>) {
    forall i :: 0 <= i < |ts| ==> ts[i].frames != [] && forall v :: v in ts[i].frames ==> v in ids
  }

  ghost predicate NonnegativeTraces(ts: seq<Trace>) {
    forall i :: 0 <= i < |ts| ==> ts[i].samples >= 0.0
  }

  ghost predicate PositiveTraces(ts: seq<Trace>) {
    forall i :: 0 <= i < |ts| ==> ts[i].samples > 0.0
  }

  ghost function TraceGraph(ids: set<FunctionId>, ts: seq<Trace>): Graph {
    map u | u in ids :: set e | e in KeysOf(AllLinks(ts)) && e.0 == u :: e.1
  }

  /** The call flow that results from call stacks. */
  ghost function StackFlow(ids: set<FunctionId>, ts: seq<Trace>): Flow
    requires Framed(ids, ts)
  {
    DerivedFlow(TraceGraph(ids, ts), LeafEvents(ids, Leaves(ts)), TallyEvents(AllLinks(ts), Samples2), Samples2,
        TotalAmount(Leaves(ts)))
  }

  // ----- the same from the lines themselves -----

  lemma {:induction false} CountedStays(fs: map<FunctionId, Events>, cs: map<Edge, Events>,
      fs': map<FunctionId, Events>, cs': map<Edge, Events>, lines: seq<Line>, symbols: Symbols)
    requires Counted(fs, cs, lines, symbols) && Agree(fs, fs') && Agree(cs, cs')
    ensures Counted(fs', cs', lines, symbols)
  {
    hide SumOf, CallsOnStack, Agree;
    AgreeOn(fs, fs', Samples);
    AgreeOn(cs, cs', Samples2);
  }

  ghost function LineGraph(ids: set<FunctionId>, lines: seq<Line>, symbols: Symbols): Graph {
    map u | u in ids :: set v | v in ids && CallsOnStack(lines, symbols, u, v)
  }

  /** Every call that occurs on a stack, with the samples of its occurrences. */
  ghost function LineCounts(ids: set<FunctionId>, lines: seq<Line>, symbols: Symbols): Counts {
    Counts(LineGraph(ids, lines, symbols),
      map u, v | u in ids && v in ids && u != v && CallsOnStack(lines, symbols, u, v) ::
        (u, v) := SumOf(AllCalls(lines, symbols, u, v)))
  }

  /** The share of the samples of the lines on which a function is innermost. */
  ghost function LineShares(ids: set<FunctionId>, lines: seq<Line>, symbols: Symbols): map<FunctionId, real> {
    map u | u in ids :: Ratio(SumOf(Innermost(lines, symbols, u)), SumOf(AllSamples(lines)))
  }

  /** The call flow that follows from the lines. */
  ghost function LineFlow(ids: set<FunctionId>, lines: seq<Line>, symbols: Symbols): Flow {
    Normalised(LineCounts(ids, lines, symbols), LineShares(ids, lines, symbols))
  }

  lemma {:induction false} LineGraphIs(ids: set<FunctionId>, lines: seq<Line>, symbols: Symbols)
    requires AllResolvable(lines, symbols) && Framed(ids, ResolveAll(lines, symbols))
    ensures TraceGraph(ids, ResolveAll(lines, symbols)) == LineGraph(ids, lines, symbols)
  {
    hide AllResolvable, ResolveAll, AllLinks, CallsOnStack, KeysOf;
    var ts := ResolveAll(lines, symbols);
    LinksWithin(ids, ts);
    forall u, v | u in ids
      ensures v in TraceGraph(ids, ts)[u] <==> v in LineGraph(ids, lines, symbols)[u]
    {
      LinksAreCalls(lines, symbols, u, v);
      assert (u, v).0 == u && (u, v).1 == v;
    }
    assert forall u :: u in ids ==> TraceGraph(ids, ts)[u] == LineGraph(ids, lines, symbols)[u];
  }

  lemma {:induction false} LinksWithin(ids: set<FunctionId>, ts: seq<Trace>)
    requires Framed(ids, ts)
    ensures forall e :: e in KeysOf(AllLinks(ts)) ==> e.0 in ids && e.1 in ids && e == (e.0, e.1)
  {
    hide AllLinks;
    LinksInside(ts, ids);
  }

  lemma {:induction false} LineCountsAre(ids: set<FunctionId>, lines: seq<Line>, symbols: Symbols)
    requires AllResolvable(lines, symbols) && Framed(ids, ResolveAll(lines, symbols))
    ensures CountsOf(TraceGraph(ids, ResolveAll(lines, symbols)),
        TallyEvents(AllLinks(ResolveAll(lines, symbols)), Samples2), Samples2) == LineCounts(ids, lines, symbols)
  {
    hide AllResolvable, ResolveAll, AllLinks, CallsOnStack, KeysOf, Amount, SumOf, AllCalls, LineGraph, TraceGraph;
    var ts := ResolveAll(lines, symbols);
    LineGraphIs(ids, lines, symbols);
    LinksWithin(ids, ts);
    var a := CountsOf(TraceGraph(ids, ts), TallyEvents(AllLinks(ts), Samples2), Samples2).count;
    var b := LineCounts(ids, lines, symbols).count;
    forall u, v
      ensures (u, v) in a <==> (u, v) in b
      ensures (u, v) in a ==> a[(u, v)] == b[(u, v)]
    {
      LinksAreCalls(lines, symbols, u, v);
    }
    forall e | e in a || e in b
      ensures e in a && e in b && a[e] == b[e]
    {
      assert e == (e.0, e.1);
    }
    assert a == b;
  }

  lemma {:induction false} LineSharesAre(ids: set<FunctionId>, lines: seq<Line>, symbols: Symbols)
    requires AllResolvable(lines, symbols) && Framed(ids, ResolveAll(lines, symbols))
    ensures var leaves := Leaves(ResolveAll(lines, symbols));
      TimeRatios(Scaled(LeafEvents(ids, leaves), ids, TimeRatio, Samples, TotalAmount(leaves))) ==
      LineShares(ids, lines, symbols)
  {
    hide AllResolvable, ResolveAll, Leaves, Amount, TotalAmount, SumOf, Innermost, AllSamples, Ratio;
    var leaves := Leaves(ResolveAll(lines, symbols));
    forall u | u in ids
      ensures Amount(leaves, u) == SumOf(Innermost(lines, symbols, u))
      ensures TotalAmount(leaves) == SumOf(AllSamples(lines))
    {
      LeavesAreSamples(lines, symbols, u);
    }
  }

  /** The resolved stacks lead to the flow of the lines. */
  lemma {:induction false} LineFlowIs(ids: set<FunctionId>, lines: seq<Line>, symbols: Symbols)
    requires AllResolvable(lines, symbols) && Framed(ids, ResolveAll(lines, symbols))
    ensures StackFlow(ids, ResolveAll(lines, symbols)) == LineFlow(ids, lines, symbols)
    ensures StackCounts(ids, ResolveAll(lines, symbols)) == LineCounts(ids, lines, symbols)
  {
    hide AllResolvable, ResolveAll, Leaves, TotalAmount, AllLinks, LineCounts, LineShares, CountsOf, TimeRatios, Scaled,
      Normalised, TraceGraph, TallyEvents;
    LineCountsAre(ids, lines, symbols);
    LineSharesAre(ids, lines, symbols);
    assert LeafEvents(ids, Leaves(ResolveAll(lines, symbols))).Keys == ids;
  }

  lemma {:induction false} LeavesSampled(ids: set<FunctionId>, leaves: seq<(FunctionId, real)>)
    requires KeysOf(leaves) <= ids
    ensures forall u :: u in LeafEvents(ids, leaves) ==>
      LeafEvents(ids, leaves)[u].Keys !! DERIVED && Samples in LeafEvents(ids, leaves)[u]
    ensures (forall i :: 0 <= i < |leaves| ==> leaves[i].1 >= 0.0) ==> NonnegativeSamples(LeafEvents(ids, leaves))
    ensures TotalAmount(leaves) == SumOf(SamplesIn(LeafEvents(ids, leaves)))
  {
    hide SumOf, Amount, TotalAmount;
    AmountsTotal(leaves, ids);
    forall u | u in ids
      ensures LeafEvents(ids, leaves)[u].Keys == {Samples}
      ensures (forall i :: 0 <= i < |leaves| ==> leaves[i].1 >= 0.0) ==> Amount(leaves, u) >= 0.0
    {
      if forall i :: 0 <= i < |leaves| ==> leaves[i].1 >= 0.0 {
        AmountSign(leaves, u);
      }
    }
    assert SamplesIn(LeafEvents(ids, leaves)) == Amounts(leaves, ids);
  }

  lemma {:induction false} LinksSampled(links: seq<(Edge, real)>)
    ensures forall e :: e in TallyEvents(links, Samples2) ==>
      TallyEvents(links, Samples2)[e].Keys !! DERIVED && Samples2 in TallyEvents(links, Samples2)[e]
    ensures (forall i :: 0 <= i < |links| ==> links[i].1 >= 0.0) ==>
      forall e :: e in TallyEvents(links, Samples2) ==> TallyEvents(links, Samples2)[e][Samples2] >= 0.0
    ensures (forall i :: 0 <= i < |links| ==> links[i].1 > 0.0) ==>
      PositiveCounts(TallyEvents(links, Samples2), Samples2)
  {
    hide Amount;
    forall e | e in KeysOf(links)
      ensures TallyEvents(links, Samples2)[e].Keys == {Samples2}
      ensures (forall i :: 0 <= i < |links| ==> links[i].1 >= 0.0) ==> Amount(links, e) >= 0.0
      ensures (forall i :: 0 <= i < |links| ==> links[i].1 > 0.0) ==> Amount(links, e) > 0.0
    {
      if forall i :: 0 <= i < |links| ==> links[i].1 >= 0.0 {
        AmountSign(links, e);
      }
    }
  }

  /** What the call stacks leave behind is what the analysis expects: a total that is the sum of all
      samples, and with positive samples positive counts. */
  lemma {:induction false} ParsedSampled(ids: set<FunctionId>, ts: seq<Trace>)
    requires Framed(ids, ts)
    ensures Sampled(LeafEvents(ids, Leaves(ts)), TallyEvents(AllLinks(ts), Samples2), Samples2, TotalAmount(Leaves(ts)))
    ensures NonnegativeTraces(ts) ==> NonnegativeSamples(LeafEvents(ids, Leaves(ts))) && TotalAmount(Leaves(ts)) >= 0.0
    ensures PositiveTraces(ts) ==> PositiveCounts(TallyEvents(AllLinks(ts), Samples2), Samples2)
    ensures PositiveTraces(ts) && ts != [] ==> TotalAmount(Leaves(ts)) > 0.0
  {
    hide SumOf, Amount, TotalAmount, Links, AllLinks, LeafEvents, TallyEvents, NonnegativeSamples, PositiveCounts;
    LinksInside(ts, ids);
    LeavesInside(ts, ids);
    if NonnegativeTraces(ts) {
      TotalSign(Leaves(ts));
    }
    LeavesSampled(ids, Leaves(ts));
    LinksSampled(AllLinks(ts));
  }

  /** If all lines can be processed, the assertions of the integration hold for them. */
  ghost predicate Assertable(symbolLines: seq<Symbol>, lines: seq<Line>) {
    AllResolvable(lines, SymbolTable(symbolLines)) ==>
      && Framed(Owners(symbolLines), ResolveAll(lines, SymbolTable(symbolLines)))
      && PassesAsserted(StackFlow(Owners(symbolLines), ResolveAll(lines, SymbolTable(symbolLines))))
  }

  /** Positive samples meet the assertions of the integration. */
  lemma {:induction false} PositiveTracesAsserted(ids: set<FunctionId>, ts: seq<Trace>)
    requires Framed(ids, ts) && PositiveTraces(ts)
    ensures PassesAsserted(StackFlow(ids, ts))
  {
    hide SumOf, Amount, TotalAmount, Links, AllLinks, Scaled, LeafEvents, TallyEvents, Ratio, Reach, Sampled,
      TimeRatios, PassesAsserted, Leaves, CallRatioOf, Normalised;
    var functions, calls := LeafEvents(ids, Leaves(ts)), TallyEvents(AllLinks(ts), Samples2);
    var total := TotalAmount(Leaves(ts));
    ParsedSampled(ids, ts);
    var timed := Scaled(functions, functions.Keys, TimeRatio, Samples, total);
    SampledFunctions(functions, calls, Samples2, total, timed);
    TimesAt(timed);
    TraceCounts(ids, ts);
    NormalisedPositive(CountsOf(TraceGraph(ids, ts), calls, Samples2), TimeRatios(timed));
    PositiveAsserted(StackFlow(ids, ts));
  }

  lemma {:induction false} TimesAt(timed: map<FunctionId, Events>)
    requires forall u :: u in timed ==> TimeRatio in timed[u] && timed[u][TimeRatio] >= 0.0
    ensures forall u :: u in TimeRatios(timed) ==> TimeRatios(timed)[u] >= 0.0
  {
  }

  lemma {:induction false} TraceCounts(ids: set<FunctionId>, ts: seq<Trace>)
    requires Framed(ids, ts)
    ensures LeafEvents(ids, Leaves(ts)).Keys == TraceGraph(ids, ts).Keys
    ensures var k := CountsOf(TraceGraph(ids, ts), TallyEvents(AllLinks(ts), Samples2), Samples2);
      k.Valid() && k.calls == TraceGraph(ids, ts) && (NonnegativeTraces(ts) ==> k.Nonnegative()) &&
      (PositiveTraces(ts) ==> k.Nonnegative() && k.Positive())
  {
    hide Amount, TotalAmount, Links, AllLinks;
    LinksInside(ts, ids);
    LinksSampled(AllLinks(ts));
    forall e | e in KeysOf(AllLinks(ts))
      ensures e == (e.0, e.1) && e.1 in ids
    {
    }
  }

  /** The counts that call stacks leave behind. */
  ghost function StackCounts(ids: set<FunctionId>, ts: seq<Trace>): Counts {
    CountsOf(TraceGraph(ids, ts), TallyEvents(AllLinks(ts), Samples2), Samples2)
  }

  /** What holds for counts of zero, too, if only the assertions do: no time is negative; the roots add up
      to the total exactly if no time is passed on repeatedly; and if there is no component that it could
      be passed on by repeatedly, no time exceeds the total by more than the tolerance. */
  ghost predicate Tolerable(k: Counts, f: Flow, total: real)
    requires f.Valid() && k.calls == f.calls
  {
    && (forall u :: u in f.calls ==> FunctionOut(f, u) >= 0.0 && InclusiveTime(f, u) >= 0.0)
    && (forall u, v :: u in f.calls && v in f.calls ==> CallTime(f, u, v) >= 0.0)
    && (SumOf(ComponentTimes(f, Roots(f.calls))) == total <==>
      forall u :: u in f.calls && Duplicated(k, Component(f.calls, u)) ==> !Charged(f, u))
    && ((forall u :: u in f.calls ==> !Duplicated(k, Component(f.calls, u))) ==>
      forall u :: u in f.calls ==> InclusiveTime(f, u) <= total && FunctionOut(f, u) <= 1.001 * InclusiveTime(f, u))
  }

  lemma {:induction false} CountsTolerable(k: Counts, time: map<FunctionId, real>)
    requires k.Valid() && k.Nonnegative()
    requires Normalised(k, time).Valid() && Normalised(k, time).Nonnegative() && PassesAsserted(Normalised(k, time))
    ensures Tolerable(k, Normalised(k, time), SumOf(time))
  {
    hide SumOf, InclusiveTime, FunctionOut, CallTime, Balanced, Reach, Flow.Valid, Flow.Nonnegative, PassesAsserted,
      Charged, Duplicated, Component, ComponentTimes, Counts.Valid, Counts.Nonnegative, CallRatioOf, Roots;
    var f := Normalised(k, time);
    RootConservationIff(k, time);
    BalancedIff(k, time);
    forall u | u in f.calls
      ensures FunctionOut(f, u) >= 0.0 && InclusiveTime(f, u) >= 0.0
      ensures Balanced(f) ==> InclusiveTime(f, u) <= SumOf(time) && FunctionOut(f, u) <= 1.001 * InclusiveTime(f, u)
    {
      AssertedBound(f, u);
      InclusiveNonnegative(f, u);
      if Balanced(f) {
        InclusiveBound(f, u);
      }
    }
    forall u, v | u in f.calls && v in f.calls
      ensures CallTime(f, u, v) >= 0.0
    {
      CallTimeNonnegative(f, u, v);
    }
  }

  lemma {:induction false} StacksTolerable(ids: set<FunctionId>, ts: seq<Trace>)
    requires Framed(ids, ts) && NonnegativeTraces(ts) && PassesAsserted(StackFlow(ids, ts))
    ensures StackFlow(ids, ts).Valid() && StackCounts(ids, ts).calls == StackFlow(ids, ts).calls
    ensures Tolerable(StackCounts(ids, ts), StackFlow(ids, ts), SumOf(StackFlow(ids, ts).time))
  {
    hide SumOf, Amount, TotalAmount, AllLinks, Scaled, LeafEvents, TallyEvents, Ratio, Reach, Sampled, TimeRatios,
      PassesAsserted, Leaves, CallRatioOf, Tolerable, Counts.Valid, Counts.Nonnegative, Flow.Valid, Flow.Nonnegative;
    var functions, calls := LeafEvents(ids, Leaves(ts)), TallyEvents(AllLinks(ts), Samples2);
    var total := TotalAmount(Leaves(ts));
    var timed := Scaled(functions, functions.Keys, TimeRatio, Samples, total);
    ParsedSampled(ids, ts);
    SampledFunctions(functions, calls, Samples2, total, timed);
    TimesAt(timed);
    TraceCounts(ids, ts);
    NormalisedValid(StackCounts(ids, ts), TimeRatios(timed));
    RatiosNonnegative(StackCounts(ids, ts), TimeRatios(timed));
    CountsTolerable(StackCounts(ids, ts), TimeRatios(timed));
  }

  /** Lines with positive samples can always be parsed. */
  lemma {:induction false} PositiveLinesAssertable(symbolLines: seq<Symbol>, lines: seq<Line>)
    requires forall i :: 0 <= i < |lines| ==> lines[i].samples > 0
    ensures Assertable(symbolLines, lines)
  {
    hide SymbolTable, Owners, Resolve, StackFlow, PassesAsserted;
    if AllResolvable(lines, SymbolTable(symbolLines)) {
      SymbolsOwned(symbolLines);
      ResolvedInside(lines, SymbolTable(symbolLines), Owners(symbolLines));
      PositiveTracesAsserted(Owners(symbolLines), ResolveAll(lines, SymbolTable(symbolLines)));
    }
  }

  /** The counts that the ratios are computed from are those that the parser left behind. */
  lemma {:induction false} CountsKept(g: Graph, functions: map<FunctionId, Events>, calls: map<Edge, Events>,
      edges: set<Edge>, count: Event, total: real, b: Books)
    requires count !in DERIVED && functions.Keys == g.Keys
    requires b.functions == Scaled(functions, g.Keys, TimeRatio, Samples, total)
    requires b.calls == Scaled(calls, edges, TimeRatio, Samples, total)
    ensures Normalised(CountsIn(g, b, count), TimeRatios(b.functions)) == DerivedFlow(g, functions, calls, count, total)
    ensures PositiveCounts(calls, count) ==> PositiveCounts(b.calls, count)
  {
    hide Scaled, CountsOf, Normalised, TimeRatios, PositiveCounts;
    ScaledCounts(g, calls, edges, count, total);
  }

  lemma {:induction false} UnintegratedCalls(g: Graph, b: Books, out: Event, inn: Event)
    requires Unintegrated(g, b, out, inn)
    ensures forall e :: e in b.calls ==> out !in b.calls[e]
  {
  }

  lemma {:induction false} LeafShares(ids: set<FunctionId>, leaves: seq<(FunctionId, real)>)
    ensures TotalAmount(leaves) != 0.0 ==> forall u :: u in ids ==>
      u in SharesOf(LeafEvents(ids, leaves), TotalAmount(leaves)) &&
        SharesOf(LeafEvents(ids, leaves), TotalAmount(leaves))[u] == Amount(leaves, u) / TotalAmount(leaves)
  {
  }

  /** Without call stacks every function counts as the whole. */
  lemma {:induction false} NoSamples(ids: set<FunctionId>)
    ensures SumOf(StackFlow(ids, []).time) == |ids| as real
  {
    hide SumOf, Ratio, Scaled, Sampled, TallyEvents, CountsOf, Normalised;
    var functions, calls := LeafEvents(ids, []), TallyEvents<Edge>([], Samples2);
    var timed := Scaled(functions, functions.Keys, TimeRatio, Samples, 0.0);
    ParsedSampled(ids, []);
    NothingParsed(ids);
    SampledFunctions(functions, calls, Samples2, 0.0, timed);
    SampledCount(functions, calls, Samples2, 0.0);
    RatiosTotal(SamplesIn(functions), TimeRatios(timed), 0.0);
    assert TimeRatios(timed).Keys == ids && |TimeRatios(timed)| == |TimeRatios(timed).Keys|;
    FlowOfStacks(ids, []);
  }

  lemma {:induction false} NothingParsed(ids: set<FunctionId>)
    ensures Leaves([]) == [] && AllLinks([]) == [] && TotalAmount<FunctionId>([]) == 0.0
    ensures LeafEvents(ids, []).Keys == ids
  {
  }

  lemma {:induction false} FlowOfStacks(ids: set<FunctionId>, ts: seq<Trace>)
    requires Framed(ids, ts)
    ensures StackFlow(ids, ts).calls == TraceGraph(ids, ts)
    ensures var functions := LeafEvents(ids, Leaves(ts));
      StackFlow(ids, ts).time ==
        TimeRatios(Scaled(functions, functions.Keys, TimeRatio, Samples, TotalAmount(Leaves(ts))))
  {
  }

  const FIRST := FunctionId("first")
  const SECOND := FunctionId("second")

  /** Two functions that are never sampled: the shares do not add up to one. */
  lemma {:induction false} SharesFail()
    ensures SumOf(StackFlow({FIRST, SECOND}, []).time) == 2.0
  {
    hide SumOf, StackFlow;
    NoSamples({FIRST, SECOND});
    assert |{FIRST, SECOND}| == 2;
  }

  // The stacks of `LATE_COUNTS`, innermost function first.
  const LATE_IDS: set<FunctionId> := {OUTER, LEFT, RIGHT, LATE}
  const LATE_STACKS: seq<Trace> := [Trace(5.0, [LEFT, RIGHT, LEFT, OUTER]), Trace(0.0, [RIGHT, LATE])]
  const LATE_LINKS: seq<(Edge, real)> := [((RIGHT, LEFT), 5.0), ((LEFT, RIGHT), 5.0), ((OUTER, LEFT), 5.0),
      ((LATE, RIGHT), 0.0)]

  lemma {:induction false} LateLinks()
    ensures AllLinks(LATE_STACKS) == LATE_LINKS
  {
    hide Links, LinksUpTo;
    var s, t := LATE_STACKS[0], LATE_STACKS[1];
    LinksEnds(s);
    LinksStep(s, 1);
    LinksStep(s, 2);
    LinksStep(s, 3);
    LinksEnds(t);
    LinksStep(t, 1);
    assert LATE_STACKS[..1] == [s] && [s][..0] == [];
    assert AllLinks([s]) == Links(s);
  }

  lemma {:induction false} OnlyAmount<K>(ws: seq<(K, real)>, i: nat)
    requires i < |ws| && forall j :: 0 <= j < |ws| && j != i ==> ws[j].0 != ws[i].0
    ensures Amount(ws, ws[i].0) == ws[i].1
  {
    var rest := ws[..|ws| - 1];
    if i == |ws| - 1 {
      AbsentAmount(rest, ws[i].0);
    } else {
      OnlyAmount(rest, i);
    }
  }

  lemma {:induction false} LateAmounts()
    ensures CountsOf(TraceGraph(LATE_IDS, LATE_STACKS), TallyEvents(LATE_LINKS, Samples2), Samples2) == LATE_COUNTS
  {
    hide AllLinks, Amount, KeysOf, TraceGraph;
    LateWeights();
    LateKeys();
    LateGraph();
    var counts := CountsOf(LATE_CALLS, TallyEvents(LATE_LINKS, Samples2), Samples2).count;
    assert RIGHT != LEFT && OUTER != LEFT && LATE != RIGHT;
    assert counts.Keys == KeysOf(LATE_LINKS);
    assert counts == LATE_COUNTS.count;
  }

  lemma {:induction false} LateWeights()
    ensures Amount(LATE_LINKS, (RIGHT, LEFT)) == Amount(LATE_LINKS, (LEFT, RIGHT)) ==
      Amount(LATE_LINKS, (OUTER, LEFT)) == 5.0
    ensures Amount(LATE_LINKS, (LATE, RIGHT)) == 0.0
  {
    hide Amount;
    OnlyAmount(LATE_LINKS, 0);
    OnlyAmount(LATE_LINKS, 1);
    OnlyAmount(LATE_LINKS, 2);
    OnlyAmount(LATE_LINKS, 3);
  }

  lemma {:induction false} LateKeys()
    ensures KeysOf(LATE_LINKS) == {(RIGHT, LEFT), (LEFT, RIGHT), (OUTER, LEFT), (LATE, RIGHT)}
  {
    var ls := LATE_LINKS;
    assert ls[0].0 == (RIGHT, LEFT) && ls[1].0 == (LEFT, RIGHT) && ls[2].0 == (OUTER, LEFT) && ls[3].0 == (LATE, RIGHT);
  }

  lemma {:induction false} LateGraph()
    ensures TraceGraph(LATE_IDS, LATE_STACKS) == LATE_CALLS
  {
    hide AllLinks, KeysOf;
    LateLinks();
    LateKeys();
    var g := TraceGraph(LATE_IDS, LATE_STACKS);
    forall u, v | u in LATE_IDS
      ensures v in g[u] <==> v in LATE_CALLS[u]
    {
      assert (u, v).0 == u && (u, v).1 == v;
      assert v in g[u] <==> (u, v) in KeysOf(LATE_LINKS);
    }
    assert forall u :: u in LATE_IDS ==> g[u] == LATE_CALLS[u];
  }

  lemma {:induction false} LateTimes()
    ensures Framed(LATE_IDS, LATE_STACKS)
    ensures var functions := LeafEvents(LATE_IDS, Leaves(LATE_STACKS));
      TimeRatios(Scaled(functions, functions.Keys, TimeRatio, Samples, TotalAmount(Leaves(LATE_STACKS)))) == LATE_TIMES
  {
    hide Amount;
    var leaves: seq<(FunctionId, real)> := [(LEFT, 5.0), (RIGHT, 0.0)];
    assert Leaves(LATE_STACKS) == leaves && leaves[..1] == [(LEFT, 5.0)] && leaves[..1][..0] == [];
    assert TotalAmount(leaves[..1]) == 5.0;
    OnlyAmount(leaves, 0);
    OnlyAmount(leaves, 1);
    AbsentAmount(leaves, OUTER);
    AbsentAmount(leaves, LATE);
  }

  lemma {:induction false} LateFlow()
    ensures Framed(LATE_IDS, LATE_STACKS)
    ensures StackFlow(LATE_IDS, LATE_STACKS) == Normalised(LATE_COUNTS, LATE_TIMES)
  {
    hide AllLinks, Leaves, TotalAmount, TallyEvents, LeafEvents, CountsOf, TimeRatios, Scaled, Normalised, TraceGraph;
    LateLinks();
    LateAmounts();
    LateTimes();
  }

  /** The parser leaves behind the profile in which the division fails. */
  lemma {:induction false} LateStacksFail()
    ensures Framed(LATE_IDS, LATE_STACKS) && NonnegativeTraces(LATE_STACKS)
    ensures !PassesAsserted(StackFlow(LATE_IDS, LATE_STACKS))
  {
    hide StackFlow, PassesAsserted, Framed, Normalised, Counts.Valid, Counts.Nonnegative, Flow.Valid, Flow.Nonnegative,
      DividesByZero, PassOf;
    LateFlow();
    DivisionFails();
  }

  // The stacks of `JOINT_COUNTS`: one for every call.
  const JOINT_IDS: set<FunctionId> := {OUTER, FRONT, LEFT, RIGHT, JOINT}
  const JOINT_STACKS: seq<Trace> := [Trace(1.0, [FRONT, OUTER]), Trace(1.0, [LEFT, FRONT]), Trace(1.0, [RIGHT, FRONT]),
      Trace(1.0, [JOINT, OUTER]), Trace(0.0, [FRONT, JOINT]), Trace(0.0, [JOINT, LEFT]), Trace(0.0, [JOINT, RIGHT])]
  const JOINT_LINKS: seq<(Edge, real)> := [((OUTER, FRONT), 1.0), ((FRONT, LEFT), 1.0), ((FRONT, RIGHT), 1.0),
      ((OUTER, JOINT), 1.0), ((JOINT, FRONT), 0.0), ((LEFT, JOINT), 0.0), ((RIGHT, JOINT), 0.0)]
  const JOINT_LEAVES: seq<(FunctionId, real)> := [(FRONT, 1.0), (LEFT, 1.0), (RIGHT, 1.0), (JOINT, 1.0), (FRONT, 0.0),
      (JOINT, 0.0), (JOINT, 0.0)]

  /** Stacks of two functions have one link each. */
  lemma {:induction false} PairLinks(ts: seq<Trace>)
    requires forall i :: 0 <= i < |ts| ==> |ts[i].frames| == 2
    ensures |AllLinks(ts)| == |ts|
    ensures forall i :: 0 <= i < |ts| ==> AllLinks(ts)[i] == ((ts[i].frames[1], ts[i].frames[0]), ts[i].samples)
  {
    if ts != [] {
      var t := ts[|ts| - 1];
      PairLinks(ts[..|ts| - 1]);
      LinksEnds(t);
      LinksStep(t, 1);
    }
  }

  lemma {:induction false} JointLinks()
    ensures AllLinks(JOINT_STACKS) == JOINT_LINKS
    ensures Framed(JOINT_IDS, JOINT_STACKS) && Leaves(JOINT_STACKS) == JOINT_LEAVES
  {
    hide AllLinks, OUTER, FRONT, LEFT, RIGHT, JOINT;
    PairLinks(JOINT_STACKS);
  }

  lemma {:induction false} JointKeys()
    ensures KeysOf(JOINT_LINKS) == JOINT_COUNTS.count.Keys
  {
    hide OUTER, FRONT, LEFT, RIGHT, JOINT;
    var ls := JOINT_LINKS;
    assert ls[0].0 == (OUTER, FRONT) && ls[1].0 == (FRONT, LEFT) && ls[2].0 == (FRONT, RIGHT) &&
      ls[3].0 == (OUTER, JOINT) && ls[4].0 == (JOINT, FRONT) && ls[5].0 == (LEFT, JOINT) && ls[6].0 == (RIGHT, JOINT);
  }

  lemma {:induction false} JointGraph()
    ensures TraceGraph(JOINT_IDS, JOINT_STACKS) == JOINT_CALLS
  {
    hide AllLinks, KeysOf, OUTER, FRONT, LEFT, RIGHT, JOINT, JOINT_CALLS;
    JointNames();
    JointCalls();
    JointLinks();
    JointKeys();
    var g := TraceGraph(JOINT_IDS, JOINT_STACKS);
    forall u, v | u in JOINT_IDS
      ensures v in g[u] <==> v in JOINT_CALLS[u]
    {
      assert (u, v).0 == u && (u, v).1 == v;
      assert v in g[u] <==> (u, v) in KeysOf(JOINT_LINKS);
    }
    assert forall u :: u in JOINT_IDS ==> g[u] == JOINT_CALLS[u];
  }

  lemma {:induction false} JointWeights(i: nat)
    requires i < |JOINT_LINKS|
    ensures JOINT_LINKS[i].0 in JOINT_COUNTS.count
    ensures Amount(JOINT_LINKS, JOINT_LINKS[i].0) == JOINT_COUNTS.count[JOINT_LINKS[i].0] == JOINT_LINKS[i].1
  {
    hide Amount, OUTER, FRONT, LEFT, RIGHT, JOINT, JOINT_CALLS;
    JointNames();
    OnlyAmount(JOINT_LINKS, i);
  }

  lemma {:induction false} JointAmounts()
    ensures CountsOf(JOINT_CALLS, TallyEvents(JOINT_LINKS, Samples2), Samples2) == JOINT_COUNTS
  {
    hide Amount, OUTER, FRONT, LEFT, RIGHT, JOINT, JOINT_CALLS, JOINT_LINKS, KeysOf;
    JointNames();
    JointKeys();
    forall e | e in KeysOf(JOINT_LINKS)
      ensures Amount(JOINT_LINKS, e) == JOINT_COUNTS.count[e]
    {
      JointWeight(e);
    }
    var counts := CountsOf(JOINT_CALLS, TallyEvents(JOINT_LINKS, Samples2), Samples2).count;
    assert counts.Keys == JOINT_COUNTS.count.Keys;
    assert counts == JOINT_COUNTS.count;
  }

  lemma {:induction false} JointWeight(e: Edge)
    requires e in KeysOf(JOINT_LINKS)
    ensures e in JOINT_COUNTS.count && Amount(JOINT_LINKS, e) == JOINT_COUNTS.count[e]
  {
    hide Amount, JOINT_LINKS, JOINT_COUNTS;
    var i :| 0 <= i < |JOINT_LINKS| && JOINT_LINKS[i].0 == e;
    JointWeights(i);
  }

  /** Samples that are zero do not count. */
  lemma {:induction false} ZeroAmounts<K>(ws: seq<(K, real)>, n: nat, k: K)
    requires n <= |ws| && forall i :: n <= i < |ws| ==> ws[i].1 == 0.0
    ensures Amount(ws, k) == Amount(ws[..n], k) && TotalAmount(ws) == TotalAmount(ws[..n])
  {
    if n < |ws| {
      ZeroAmounts(ws[..|ws| - 1], n, k);
      assert ws[..|ws| - 1][..n] == ws[..n];
    } else {
      assert ws[..n] == ws;
    }
  }

  lemma {:induction false} TotalMore<K>(ws: seq<(K, real)>, n: nat)
    requires n < |ws|
    ensures TotalAmount(ws[..n + 1]) == TotalAmount(ws[..n]) + ws[n].1
  {
    assert ws[..n + 1][..n] == ws[..n];
  }

  lemma {:induction false} JointTimes(u: FunctionId)
    requires u in JOINT_IDS
    ensures Amount(JOINT_LEAVES, u) == (if u == OUTER then 0.0 else 1.0) && TotalAmount(JOINT_LEAVES) == 4.0
  {
    hide Amount, OUTER, FRONT, LEFT, RIGHT, JOINT;
    JointNames();
    var ws := JOINT_LEAVES[..4];
    assert ws == [(FRONT, 1.0), (LEFT, 1.0), (RIGHT, 1.0), (JOINT, 1.0)];
    assert ws[0].0 == FRONT && ws[1].0 == LEFT && ws[2].0 == RIGHT && ws[3].0 == JOINT;
    ZeroAmounts(JOINT_LEAVES, 4, u);
    if u == OUTER {
      AbsentAmount(ws, u);
    } else {
      var i :| 0 <= i < 4 && ws[i].0 == u;
      OnlyAmount(ws, i);
    }
    TotalMore(JOINT_LEAVES, 0);
    TotalMore(JOINT_LEAVES, 1);
    TotalMore(JOINT_LEAVES, 2);
    TotalMore(JOINT_LEAVES, 3);
  }

  lemma {:induction false} JointFlow()
    ensures Framed(JOINT_IDS, JOINT_STACKS)
    ensures StackFlow(JOINT_IDS, JOINT_STACKS) == Normalised(JOINT_COUNTS, JOINT_TIMES)
  {
    hide AllLinks, Leaves, TotalAmount, TallyEvents, LeafEvents, CountsOf, TimeRatios, Scaled, Normalised, TraceGraph,
      JOINT_LEAVES, JOINT_LINKS, OUTER, FRONT, LEFT, RIGHT, JOINT, JOINT_CALLS, JOINT_COUNTS, JOINT_TIMES;
    JointLinks();
    JointGraph();
    JointAmounts();
    JointTimes(OUTER);
    JointShares();
  }

  lemma {:induction false} JointShares()
    ensures var functions := LeafEvents(JOINT_IDS, JOINT_LEAVES);
      TimeRatios(Scaled(functions, functions.Keys, TimeRatio, Samples, 4.0)) == JOINT_TIMES
  {
    hide Amount, TotalAmount, OUTER, FRONT, LEFT, RIGHT, JOINT, JOINT_LEAVES;
    JointNames();
    var functions := LeafEvents(JOINT_IDS, JOINT_LEAVES);
    var times := TimeRatios(Scaled(functions, functions.Keys, TimeRatio, Samples, 4.0));
    forall u | u in JOINT_IDS
      ensures u in times && u in JOINT_TIMES && times[u] == JOINT_TIMES[u]
    {
      JointTimes(u);
    }
  }

  /** The parser leaves behind the profile in which the quotient is not one. */
  lemma {:induction false} JointStacksFail()
    ensures Framed(JOINT_IDS, JOINT_STACKS) && NonnegativeTraces(JOINT_STACKS)
    ensures !PassesAsserted(StackFlow(JOINT_IDS, JOINT_STACKS))
  {
    hide StackFlow, PassesAsserted, Framed, Normalised, Counts.Valid, Counts.Nonnegative, Flow.Valid, Flow.Nonnegative,
      DividesByZero, PassOf;
    JointFlow();
    QuotientFails();
  }
}
