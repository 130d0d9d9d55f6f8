/** Which functions and calls survive pruning, and with which events. */
module Pruning {
  import opened Graphs
  import opened Ledger
  import opened Tallies

  function MinReal(a: real, b: real): real {
    if b < a then b else a
  }

  /** A function is judged by its share of the total time, if that is known. */
  function MarkedFunction(events: Events): Events {
    if TotalTimeRatio in events then events[PruneRatio := events[TotalTimeRatio]] else events
  }

  /** A call is judged by its own share of the total time or else by the smaller one of its two ends. */
  function MarkedCall(events: Events, caller: Events, callee: Events): Events {
    if TotalTimeRatio in events then events[PruneRatio := events[TotalTimeRatio]]
    else if TotalTimeRatio in caller && TotalTimeRatio in callee then
      events[PruneRatio := MinReal(caller[TotalTimeRatio], callee[TotalTimeRatio])]
    else events
  }

  predicate Insignificant(events: Events, threshold: real) {
    PruneRatio in events && events[PruneRatio] < threshold
  }

  ghost function MarkedFunctions(fs: map<FunctionId, Events>): map<FunctionId, Events> {
    map u | u in fs :: MarkedFunction(fs[u])
  }

  ghost function MarkedCalls(fs: map<FunctionId, Events>, cs: map<Edge, Events>): map<Edge, Events> {
    map e | e in cs && e.0 in fs && e.1 in fs :: MarkedCall(cs[e], fs[e.0], fs[e.1])
  }

  ghost function SignificantFunctions(fs: map<FunctionId, Events>, node: real): map<FunctionId, Events> {
    map u | u in fs && !Insignificant(fs[u], node) :: fs[u]
  }

  ghost function SignificantCalls(fs: map<FunctionId, Events>, cs: map<Edge, Events>, edge: real): map<Edge, Events> {
    map e | e in cs && e.0 in fs && e.1 in fs && !Insignificant(cs[e], edge) :: cs[e]
  }

  ghost function PrunedFunctions(fs: map<FunctionId, Events>, node: real): map<FunctionId, Events> {
    SignificantFunctions(MarkedFunctions(fs), node)
  }

  ghost function PrunedCalls(fs: map<FunctionId, Events>, cs: map<Edge, Events>, node: real,
      edge: real): map<Edge, Events>
  {
    SignificantCalls(PrunedFunctions(fs, node), MarkedCalls(fs, cs), edge)
  }

  function MaxReal(a: real, b: real): real {
    if a < b then b else a
  }

  /** A function stays unless its share is known and too small. */
  lemma {:induction false} PrunedFunction(fs: map<FunctionId, Events>, node: real, u: FunctionId)
    requires u in fs && PruneRatio !in fs[u]
    ensures u in PrunedFunctions(fs, node) <==> (TotalTimeRatio in fs[u] ==> fs[u][TotalTimeRatio] >= node)
  {
  }

  /** A call stays unless an end of it goes, or its share, or failing that the smaller share of its
      two ends, is known and too small. */
  lemma {:induction false} PrunedCall(fs: map<FunctionId, Events>, cs: map<Edge, Events>, node: real, edge: real,
      e: Edge)
    requires e in cs && e.0 in fs && e.1 in fs && PruneRatio !in cs[e]
    ensures e in PrunedCalls(fs, cs, node, edge) <==>
      && e.0 in PrunedFunctions(fs, node) && e.1 in PrunedFunctions(fs, node)
      && (TotalTimeRatio in cs[e] ==> cs[e][TotalTimeRatio] >= edge)
      && (TotalTimeRatio !in cs[e] && TotalTimeRatio in fs[e.0] && TotalTimeRatio in fs[e.1] ==>
        fs[e.0][TotalTimeRatio] >= edge && fs[e.1][TotalTimeRatio] >= edge)
  {
  }

  /** Of the events of what remains, only the prune ratio is new: the share of the total time of a function;
      for a call its own one, or else the smaller one of its two ends. */
  lemma {:induction false} PrunedEvents(fs: map<FunctionId, Events>, cs: map<Edge, Events>, node: real, edge: real)
    ensures forall u, event :: u in PrunedFunctions(fs, node) && event != PruneRatio ==>
      SameEvent(PrunedFunctions(fs, node)[u], fs[u], event)
    ensures forall u :: u in PrunedFunctions(fs, node) && TotalTimeRatio in fs[u] ==>
      PruneRatio in PrunedFunctions(fs, node)[u] && PrunedFunctions(fs, node)[u][PruneRatio] == fs[u][TotalTimeRatio]
    ensures forall e, event :: e in PrunedCalls(fs, cs, node, edge) && event != PruneRatio ==>
      SameEvent(PrunedCalls(fs, cs, node, edge)[e], cs[e], event)
    ensures forall e :: e in PrunedCalls(fs, cs, node, edge) && PruneRatio in PrunedCalls(fs, cs, node, edge)[e] ==>
      var ratio := PrunedCalls(fs, cs, node, edge)[e][PruneRatio];
      if TotalTimeRatio in cs[e] then ratio == cs[e][TotalTimeRatio]
      else if TotalTimeRatio in fs[e.0] && TotalTimeRatio in fs[e.1] then
        ratio <= fs[e.0][TotalTimeRatio] && ratio <= fs[e.1][TotalTimeRatio] &&
        (ratio == fs[e.0][TotalTimeRatio] || ratio == fs[e.1][TotalTimeRatio])
      else PruneRatio in cs[e] && ratio == cs[e][PruneRatio]
  {
  }

  lemma {:induction false} MarkedTwice(events: Events, caller: Events, callee: Events)
    ensures MarkedFunction(MarkedFunction(events)) == MarkedFunction(events)
    ensures MarkedCall(MarkedCall(events, caller, callee), MarkedFunction(caller), MarkedFunction(callee)) ==
      MarkedCall(events, caller, callee)
  {
    if TotalTimeRatio in events {
      var x := events[TotalTimeRatio];
      assert events[PruneRatio := x][PruneRatio := x] == events[PruneRatio := x];
    } else if TotalTimeRatio in caller && TotalTimeRatio in callee {
      var x := MinReal(caller[TotalTimeRatio], callee[TotalTimeRatio]);
      assert events[PruneRatio := x][PruneRatio := x] == events[PruneRatio := x];
    }
  }

  lemma {:induction false} FunctionsTwice(fs: map<FunctionId, Events>, node: real, node': real)
    ensures PrunedFunctions(PrunedFunctions(fs, node), node') == PrunedFunctions(fs, MaxReal(node, node'))
  {
    hide MarkedFunction;
    forall u | u in fs
      ensures MarkedFunction(MarkedFunction(fs[u])) == MarkedFunction(fs[u])
    {
      MarkedTwice(fs[u], fs[u], fs[u]);
    }
  }

  lemma {:induction false} CallTwice(fs: map<FunctionId, Events>, cs: map<Edge, Events>, node: real, edge: real,
      e: Edge)
    requires e in PrunedCalls(fs, cs, node, edge)
    ensures e in cs && e.0 in fs && e.1 in fs && e.0 in PrunedFunctions(fs, node) && e.1 in PrunedFunctions(fs, node)
    ensures MarkedCall(PrunedCalls(fs, cs, node, edge)[e], PrunedFunctions(fs, node)[e.0],
        PrunedFunctions(fs, node)[e.1]) == MarkedCall(cs[e], fs[e.0], fs[e.1])
  {
    MarkedTwice(cs[e], fs[e.0], fs[e.1]);
  }

  lemma {:induction false} PrunedCallAt(fs: map<FunctionId, Events>, cs: map<Edge, Events>, node: real, edge: real,
      e: Edge)
    ensures e in PrunedCalls(fs, cs, node, edge) <==>
      e in cs && e.0 in fs && e.1 in fs && e.0 in PrunedFunctions(fs, node) && e.1 in PrunedFunctions(fs, node) &&
        !Insignificant(MarkedCall(cs[e], fs[e.0], fs[e.1]), edge)
    ensures e in PrunedCalls(fs, cs, node, edge) ==>
      PrunedCalls(fs, cs, node, edge)[e] == MarkedCall(cs[e], fs[e.0], fs[e.1])
  {
    hide MarkedCall, Insignificant, PrunedFunctions;
  }

  /** Pruning twice is pruning once with the larger thresholds; in particular it is idempotent. */
  lemma {:induction false} PrunedTwice(fs: map<FunctionId, Events>, cs: map<Edge, Events>, node: real, edge: real,
      node': real, edge': real)
    ensures PrunedFunctions(PrunedFunctions(fs, node), node') == PrunedFunctions(fs, MaxReal(node, node'))
    ensures PrunedCalls(PrunedFunctions(fs, node), PrunedCalls(fs, cs, node, edge), node', edge') ==
      PrunedCalls(fs, cs, MaxReal(node, node'), MaxReal(edge, edge'))
  {
    hide MarkedFunction, MarkedCall, PrunedFunctions, PrunedCalls;
    var fs', cs' := PrunedFunctions(fs, node), PrunedCalls(fs, cs, node, edge);
    var all, twice :=
      PrunedCalls(fs, cs, MaxReal(node, node'), MaxReal(edge, edge')), PrunedCalls(fs', cs', node', edge');
    FunctionsTwice(fs, node, node');
    FewerFunctions(fs, node, node');
    forall e: Edge
      ensures e in twice <==> e in all
      ensures e in twice ==> twice[e] == all[e]
    {
      PrunedCallAt(fs, cs, node, edge, e);
      PrunedCallAt(fs, cs, MaxReal(node, node'), MaxReal(edge, edge'), e);
      PrunedCallAt(fs', cs', node', edge', e);
      if e in cs' {
        CallTwice(fs, cs, node, edge, e);
      }
    }
    assert twice == all;
  }

  lemma {:induction false} FewerFunctions(fs: map<FunctionId, Events>, node: real, node': real)
    ensures PrunedFunctions(fs, MaxReal(node, node')).Keys <= PrunedFunctions(fs, node).Keys <= fs.Keys
  {
  }

  lemma {:induction false} SignificantIs(fs: map<FunctionId, Events>, cs: map<Edge, Events>, kept: map<Edge, Events>,
      edge: real)
    requires forall e :: e in kept <==> e in cs && e.0 in fs && e.1 in fs && !Insignificant(cs[e], edge)
    requires forall e :: e in kept ==> kept[e] == cs[e]
    ensures kept == SignificantCalls(fs, cs, edge)
  {
    hide Insignificant;
  }

  lemma {:induction false} FromSignificant(fs: map<FunctionId, Events>, cs: map<Edge, Events>, ids: set<FunctionId>,
      node: real, edge: real)
    requires ids == SignificantFunctions(fs, node).Keys
    ensures SignificantCalls(SignificantFunctions(fs, node), map e | e in cs && e.0 in ids :: cs[e], edge) ==
      SignificantCalls(SignificantFunctions(fs, node), cs, edge)
  {
    hide Insignificant;
  }

  // ----- marking step by step -----

  ghost function MarkingFunctions(fs: map<FunctionId, Events>, done: set<FunctionId>): map<FunctionId, Events> {
    map u | u in fs :: if u in done then MarkedFunction(fs[u]) else fs[u]
  }

  ghost function MarkingCalls(fs: map<FunctionId, Events>, cs: map<Edge, Events>, edges: set<Edge>): map<Edge, Events> {
    map e | e in cs :: if e in edges && e.0 in fs && e.1 in fs then MarkedCall(cs[e], fs[e.0], fs[e.1]) else cs[e]
  }

  lemma {:induction false} MarkingStart(fs: map<FunctionId, Events>, cs: map<Edge, Events>)
    ensures MarkingFunctions(fs, {}) == fs && MarkingCalls(fs, cs, {}) == cs
  {
  }

  lemma {:induction false} MarkingEnd(fs: map<FunctionId, Events>, cs: map<Edge, Events>, edges: set<Edge>)
    requires forall e :: e in cs ==> e in edges && e.0 in fs && e.1 in fs
    ensures MarkingFunctions(fs, fs.Keys) == MarkedFunctions(fs) && MarkingCalls(fs, cs, edges) == MarkedCalls(fs, cs)
  {
    hide MarkedFunction, MarkedCall;
  }

  lemma {:induction false} MarkingFunction(fs: map<FunctionId, Events>, done: set<FunctionId>, u: FunctionId)
    requires u in fs && u !in done
    ensures MarkingFunctions(fs, done + {u}) == MarkingFunctions(fs, done)[u := MarkedFunction(fs[u])]
    ensures MarkingFunctions(fs, done)[u] == fs[u]
  {
    hide MarkedFunction;
  }

  /** Shares of the total time are not touched by the marking. */
  lemma {:induction false} MarkingKeeps(fs: map<FunctionId, Events>, done: set<FunctionId>, u: FunctionId)
    requires u in fs
    ensures u in MarkingFunctions(fs, done)
    ensures TotalTimeRatio in MarkingFunctions(fs, done)[u] <==> TotalTimeRatio in fs[u]
    ensures TotalTimeRatio in fs[u] ==> MarkingFunctions(fs, done)[u][TotalTimeRatio] == fs[u][TotalTimeRatio]
  {
  }

  lemma {:induction false} MarkingCallKeys(fs: map<FunctionId, Events>, cs: map<Edge, Events>, edges: set<Edge>)
    ensures MarkingCalls(fs, cs, edges).Keys == cs.Keys
  {
  }

  lemma {:induction false} MarkingCall(fs: map<FunctionId, Events>, cs: map<Edge, Events>, edges: set<Edge>, e: Edge)
    requires e in cs && e.0 in fs && e.1 in fs && e !in edges
    ensures MarkingCalls(fs, cs, edges).Keys == cs.Keys && MarkingCalls(fs, cs, edges)[e] == cs[e]
    ensures MarkingCalls(fs, cs, edges + {e}) == MarkingCalls(fs, cs, edges)[e := MarkedCall(cs[e], fs[e.0], fs[e.1])]
  {
    hide MarkedCall;
  }
}
