/** What the integration writes: the final events of every function, call and cycle, as an overlay
    over the events they had before. */
module Settlement {
  import opened Graphs
  import opened Sums
  import opened Inclusive
  import opened CycleFlow
  import opened Ledger

  // ----- the passes over one cycle -----

  /** The members of `c` that are called from outside of it. */
  ghost function Entries(g: Graph, c: set<FunctionId>): set<FunctionId> {
    set v | v in c && v in g && exists u :: u in g && u !in c && v in g[u]
  }

  ghost predicate IsDistance(h: Graph, u: FunctionId, v: FunctionId, d: nat) {
    Walk(h, d, u, v) && forall k: nat :: Walk(h, k, u, v) ==> d <= k
  }

  lemma {:induction false} LeastWalk(h: Graph, n: nat, u: FunctionId, v: FunctionId)
    requires Walk(h, n, u, v)
    ensures exists d: nat :: IsDistance(h, u, v, d)
    decreases n
  {
    if k: nat :| k < n && Walk(h, k, u, v) {
      LeastWalk(h, k, u, v);
    } else {
      assert IsDistance(h, u, v, n);
    }
  }

  /** The length of a shortest walk. */
  ghost function Distance(h: Graph, u: FunctionId, v: FunctionId): (d: nat)
    requires Reach(h, u, v)
    ensures IsDistance(h, u, v, d)
  {
    assert exists d: nat :: IsDistance(h, u, v, d) by {
      var n: nat :| Walk(h, n, u, v);
      LeastWalk(h, n, u, v);
    }
    var d: nat :| IsDistance(h, u, v, d);
    d
  }

  /** Within a component every member is reached by the component's own calls. */
  lemma {:induction false} InnerReach(g: Graph, u: FunctionId, v: FunctionId)
    requires Closed(g) && v in Component(g, u)
    ensures Reach(Inner(g, Component(g, u)), u, v)
  {
    var n: nat :| Walk(g, n, u, v);
    InnerWalk(g, n, u, v);
  }

  ghost function RanksOf(g: Graph, e: FunctionId): map<FunctionId, nat>
    requires Closed(g)
  {
    map m | m in Component(g, e) :: InnerReach(g, e, m); Distance(Inner(g, Component(g, e)), e, m)
  }

  /** The pass for the entry `e`: its callers share the sum of their ratios. */
  ghost function PassOf(f: Flow, e: FunctionId): Pass
    requires f.Valid()
  {
    Pass(f, e, Inflow(f, f.calls.Keys, e), RanksOf(f.calls, e))
  }

  lemma {:induction false} PassValid(f: Flow, e: FunctionId)
    requires f.Valid() && e in f.calls
    ensures PassOf(f, e).Valid()
  {
    hide Reach, Walk;
    InOwnComponent(f.calls, e);
    var h := Inner(f.calls, Component(f.calls, e));
    var ranks := RanksOf(f.calls, e);
    assert h.Keys == Component(f.calls, e);
    forall m | m in ranks
      ensures IsDistance(h, e, m, ranks[m])
    {
    }
  }

  /** Ranks are determined by being shortest distances. */
  lemma {:induction false} RanksUnique(h: Graph, e: FunctionId, r: map<FunctionId, nat>, s: map<FunctionId, nat>)
    requires ShortestRanks(h, e, r) && ShortestRanks(h, e, s)
    ensures r == s
  {
    hide Walk;
    forall m | m in r
      ensures r[m] == s[m]
    {
      assert Walk(h, r[m], e, m) && Walk(h, s[m], e, m);
    }
  }

  /** The assertions hold in the passes for all entries of all cycles. */
  ghost predicate PassesAsserted(f: Flow) {
    f.Valid() && forall e :: e in f.calls && Recursive(f.calls, e) && e in Entries(f.calls, Component(f.calls, e)) ==>
      PassOf(f, e).Valid() && Asserted(PassOf(f, e))
  }

  ghost function MemberTimes(f: Flow, es: set<FunctionId>, u: FunctionId): map<FunctionId, real>
    requires f.Valid() && es <= Component(f.calls, u)
  {
    map e | e in es :: EntryOf(f, e, u); Partial(PassOf(f, e), u)
  }

  /** The time of the member `u` over the passes for the entries in `es`. */
  ghost function MemberTime(f: Flow, es: set<FunctionId>, u: FunctionId): real
    requires f.Valid() && es <= Component(f.calls, u)
  {
    SumOf(MemberTimes(f, es, u))
  }

  lemma {:induction false} EntryOf(f: Flow, e: FunctionId, u: FunctionId)
    requires f.Valid() && e in Component(f.calls, u)
    ensures PassOf(f, e).Valid() && PassOf(f, e).Members() == Component(f.calls, u) && u in PassOf(f, e).Members()
  {
    ReachEnds(f.calls, u, e);
    ComponentShared(f.calls, u, e);
    PassValid(f, e);
    InOwnComponent(f.calls, u);
  }

  /** The passes in which the call from `u` to `v` leads uphill. */
  ghost function UphillPasses(f: Flow, es: set<FunctionId>, u: FunctionId, v: FunctionId): set<FunctionId>
    requires f.Valid()
  {
    set e | e in es && v in PassOf(f, e).Uphill(u)
  }

  ghost function InnerTimes(f: Flow, es: set<FunctionId>, u: FunctionId, v: FunctionId): map<FunctionId, real>
    requires f.Valid() && es <= Component(f.calls, u)
  {
    map e | e in UphillPasses(f, es, u, v) :: PassingIn(f, e, u, v)
  }

  /** The time along the call from `u` to the member `v` over the passes for the entries in `es`. */
  ghost function InnerTime(f: Flow, es: set<FunctionId>, u: FunctionId, v: FunctionId): real
    requires f.Valid() && es <= Component(f.calls, u)
  {
    SumOf(InnerTimes(f, es, u, v))
  }

  /** What one pass moves along the call from `u` to `v`. */
  ghost function PassingIn(f: Flow, e: FunctionId, u: FunctionId, v: FunctionId): real
    requires f.Valid() && e in Component(f.calls, u) && v in PassOf(f, e).Uphill(u)
  {
    EntryOf(f, e, u);
    UphillSmaller(PassOf(f, e), u, v);
    Times(PassOf(f, e).InnerRatio(u, v), Partial(PassOf(f, e), v))
  }

  // ----- the final events -----

  ghost function FunctionOut(f: Flow, u: FunctionId): real
    requires f.Valid() && u in f.calls
  {
    if Recursive(f.calls, u) then MemberTime(f, Entries(f.calls, Component(f.calls, u)), u) else InclusiveTime(f, u)
  }

  /** Whether the call from `u` to `v` gets an integrated time at all. */
  ghost predicate HasCallOut(f: Flow, u: FunctionId, v: FunctionId)
    requires f.Valid()
  {
    u in f.calls && v in f.calls[u] &&
    (v !in Component(f.calls, u) || UphillPasses(f, Entries(f.calls, Component(f.calls, u)), u, v) != {})
  }

  ghost function CallOut(f: Flow, u: FunctionId, v: FunctionId): real
    requires f.Valid() && HasCallOut(f, u, v)
  {
    if v in Outflow(f, u) then Outflow(f, u)[v]
    else InnerTime(f, Entries(f.calls, Component(f.calls, u)), u, v)
  }

  ghost function SettledFunctions(m: map<FunctionId, Events>, f: Flow, out: Event,
      done: set<FunctionId>): map<FunctionId, Events>
    requires f.Valid() && done <= f.calls.Keys
  {
    map u | u in m :: if u in done then m[u][out := FunctionOut(f, u)] else m[u]
  }

  ghost function SettledCallAt(events: Events, f: Flow, out: Event, done: set<FunctionId>,
      e: (FunctionId, FunctionId)): Events
    requires f.Valid()
  {
    if e.0 in done && HasCallOut(f, e.0, e.1) then events[out := CallOut(f, e.0, e.1)] else events
  }

  ghost function SettledCalls(m: map<(FunctionId, FunctionId), Events>, f: Flow, out: Event,
      done: set<FunctionId>): map<(FunctionId, FunctionId), Events>
    requires f.Valid()
  {
    map e | e in m :: SettledCallAt(m[e], f, out, done, e)
  }

  ghost function SettledCycles(m: map<FunctionId, Events>, f: Flow, out: Event,
      done: set<FunctionId>): map<FunctionId, Events>
    requires f.Valid() && done <= f.calls.Keys
  {
    map u | u in m :: if u in done then m[u][out := InclusiveTime(f, u)] else m[u]
  }

  /** The books after the functions in `done` have been integrated. */
  ghost function Settled(base: Books, f: Flow, out: Event, done: set<FunctionId>): Books
    requires f.Valid() && done <= f.calls.Keys
  {
    Books(SettledFunctions(base.functions, f, out, done), SettledCalls(base.calls, f, out, done),
        SettledCycles(base.cycles, f, out, done))
  }

  ghost function PostedCallAt(events: Events, f: Flow, out: Event, posted: set<(FunctionId, FunctionId)>,
      e: (FunctionId, FunctionId)): Events
    requires f.Valid()
  {
    if e in posted && e.0 in f.calls && e.1 in Outflow(f, e.0) then events[out := Outflow(f, e.0)[e.1]] else events
  }

  ghost function PostedCalls(m: map<(FunctionId, FunctionId), Events>, f: Flow, out: Event,
      posted: set<(FunctionId, FunctionId)>): map<(FunctionId, FunctionId), Events>
    requires f.Valid()
  {
    map e | e in m :: PostedCallAt(m[e], f, out, posted, e)
  }

  /** The books after the calls in `posted`, which leave their components, have been integrated. */
  ghost function Posted(base: Books, f: Flow, out: Event, posted: set<(FunctionId, FunctionId)>): Books
    requires f.Valid()
  {
    base.(calls := PostedCalls(base.calls, f, out, posted))
  }

  /** `f` is read off the events that the integration starts from. */
  ghost predicate Inputs(base: Books, f: Flow, inn: Event) {
    && base.functions.Keys == f.calls.Keys
    && (forall u :: u in f.calls ==> inn in base.functions[u] && u in f.time && base.functions[u][inn] == f.time[u])
    && (forall u, v :: u in f.calls && v in f.calls[u] ==> (u, v) in base.calls)
    && (forall u, v :: u in f.calls && v in f.calls[u] && v != u ==>
      && (u, v) in f.ratio
      && CallRatio in base.calls[(u, v)] && base.calls[(u, v)][CallRatio] == f.ratio[(u, v)])
    && (forall u :: u in f.calls ==> (u in base.cycles <==> Recursive(f.calls, u)))
  }

  /** Nothing below `u` carries the event `out` yet. */
  ghost predicate Clean(base: Books, out: Event, g: Graph, u: FunctionId) {
    && (forall w :: w in Below(g, u) && w in base.functions ==> out !in base.functions[w])
    && (forall w :: w in Below(g, u) && w in base.cycles ==> out !in base.cycles[w])
    && (forall e :: e in base.calls && e.0 in Below(g, u) ==> out !in base.calls[e])
  }

  /** `done` is made of whole components. */
  ghost predicate Whole(g: Graph, done: set<FunctionId>) {
    done <= g.Keys && forall u :: u in done ==> Component(g, u) <= done
  }

  /** Everything that stays the same during an integration, and what has been settled so far. */
  ghost predicate Settling(g: Graph, f: Flow, base: Books, out: Event, inn: Event, done: set<FunctionId>) {
    && g == f.calls && f.Valid()
    && PassesAsserted(f)
    && out != inn && out != CallRatio
    && Inputs(base, f, inn)
    && Whole(f.calls, done)
  }

  lemma {:induction false} FunctionReads(f: Flow, base: Books, out: Event, inn: Event, done: set<FunctionId>,
      u: FunctionId)
    requires f.Valid() && Settling(f.calls, f, base, out, inn, done) && u in f.calls
    ensures u in Settled(base, f, out, done).functions && inn in Settled(base, f, out, done).functions[u]
    ensures Settled(base, f, out, done).functions[u][inn] == f.time[u]
    ensures u in done ==>
      out in Settled(base, f, out, done).functions[u] &&
        Settled(base, f, out, done).functions[u][out] == FunctionOut(f, u)
    ensures u !in done ==> Settled(base, f, out, done).functions[u] == base.functions[u]
    ensures u in Settled(base, f, out, done).cycles <==> u in base.cycles
    ensures u in base.cycles <==> Recursive(f.calls, u)
    ensures u in base.cycles && u in done ==>
      out in Settled(base, f, out, done).cycles[u] && Settled(base, f, out, done).cycles[u][out] == InclusiveTime(f, u)
    ensures u in base.cycles && u !in done ==> Settled(base, f, out, done).cycles[u] == base.cycles[u]
  {
  }

  lemma {:induction false} CallReads(f: Flow, base: Books, out: Event, inn: Event, done: set<FunctionId>, u: FunctionId,
      v: FunctionId)
    requires f.Valid() && Settling(f.calls, f, base, out, inn, done) && u in f.calls && v in f.calls[u]
    ensures (u, v) in Settled(base, f, out, done).calls
    ensures v != u ==>
      CallRatio in Settled(base, f, out, done).calls[(u, v)] && (u, v) in f.ratio &&
        Settled(base, f, out, done).calls[(u, v)][CallRatio] == f.ratio[(u, v)]
    ensures u !in done ==> (u, v) in base.calls && Settled(base, f, out, done).calls[(u, v)] == base.calls[(u, v)]
  {
  }

  lemma {:induction false} PostedSettling(f: Flow, base: Books, out: Event, inn: Event, done: set<FunctionId>,
      posted: set<(FunctionId, FunctionId)>)
    requires f.Valid() && Settling(f.calls, f, base, out, inn, done)
    ensures Settling(f.calls, f, Posted(base, f, out, posted), out, inn, done)
  {
    hide Reach, Outflow, Component;
  }

  lemma {:induction false} PostedMore(m: map<(FunctionId, FunctionId), Events>, f: Flow, out: Event,
      posted: set<(FunctionId, FunctionId)>, more: set<(FunctionId, FunctionId)>)
    requires f.Valid()
    ensures PostedCalls(PostedCalls(m, f, out, posted), f, out, more) == PostedCalls(m, f, out, posted + more)
  {
    hide PostedCallAt;
    forall e | e in m
      ensures PostedCallAt(PostedCallAt(m[e], f, out, posted, e), f, out, more, e) ==
        PostedCallAt(m[e], f, out, posted + more, e)
    {
      PostedMoreAt(m[e], f, out, posted, more, e);
    }
  }

  lemma {:induction false} PostedMoreAt(events: Events, f: Flow, out: Event, posted: set<(FunctionId, FunctionId)>,
      more: set<(FunctionId, FunctionId)>, e: (FunctionId, FunctionId))
    requires f.Valid()
    ensures PostedCallAt(PostedCallAt(events, f, out, posted, e), f, out, more, e) ==
      PostedCallAt(events, f, out, posted + more, e)
  {
    hide Reach, Outflow, Component;
    if e.0 in f.calls && e.1 in Outflow(f, e.0) {
      var x := Outflow(f, e.0)[e.1];
      assert events[out := x][out := x] == events[out := x];
    }
  }

  /** Recording the time of one call on top of settled books. */
  lemma {:induction false} PostOne(m: map<(FunctionId, FunctionId), Events>, f: Flow, out: Event, done: set<FunctionId>,
      u: FunctionId, v: FunctionId)
    requires f.Valid() && u in f.calls && u !in done && v in Outflow(f, u) && (u, v) in m
    ensures (u, v) in SettledCalls(m, f, out, done)
    ensures SettledCalls(PostedCalls(m, f, out, {(u, v)}), f, out, done) ==
      SettledCalls(m, f, out, done)[(u, v) := SettledCalls(m, f, out, done)[(u, v)][out := Outflow(f, u)[v]]]
  {
    hide Reach, Outflow, Component, HasCallOut, CallOut, InclusiveTime;
  }

  ghost function CallsTo(u: FunctionId, vs: set<FunctionId>): set<(FunctionId, FunctionId)> {
    set v | v in vs :: (u, v)
  }

  lemma {:induction false} CallsToMore(u: FunctionId, vs: set<FunctionId>, v: FunctionId)
    ensures CallsTo(u, vs + {v}) == CallsTo(u, vs) + {(u, v)}
    ensures v !in vs ==> (u, v) !in CallsTo(u, vs)
    ensures CallsTo(u, {}) == {}
  {
  }

  lemma {:induction false} OneCallMore(edges: set<(FunctionId, FunctionId)>, u: FunctionId, vs: set<FunctionId>,
      v: FunctionId)
    requires (u, v) !in edges && v !in vs
    ensures (u, v) !in edges + CallsTo(u, vs)
    ensures edges + CallsTo(u, vs + {v}) == edges + CallsTo(u, vs) + {(u, v)}
  {
  }

  lemma {:induction false} LoneCalls(f: Flow, u: FunctionId, v: FunctionId)
    requires f.Valid() && u in f.calls && !Recursive(f.calls, u)
    ensures HasCallOut(f, u, v) <==> v in f.calls[u] && v != u
    ensures v in Outflow(f, u) <==> v in f.calls[u] && v != u
  {
    hide Reach;
    InOwnComponent(f.calls, u);
    if v == u {
      forall e | e in Entries(f.calls, Component(f.calls, u))
        ensures u !in PassOf(f, e).Uphill(u)
      {
      }
    }
  }

  lemma {:induction false} SettleLoneCalls(m: map<(FunctionId, FunctionId), Events>, f: Flow, out: Event,
      done: set<FunctionId>, u: FunctionId)
    requires f.Valid() && u in f.calls && u !in done && !Recursive(f.calls, u)
    ensures SettledCalls(m, f, out, done + {u}) ==
      SettledCalls(PostedCalls(m, f, out, CallsTo(u, Outflow(f, u).Keys)), f, out, done)
  {
    hide SettledCallAt, PostedCallAt;
    forall e | e in m
      ensures SettledCallAt(m[e], f, out, done + {u}, e) ==
        SettledCallAt(PostedCallAt(m[e], f, out, CallsTo(u, Outflow(f, u).Keys), e), f, out, done, e)
    {
      SettleLoneCallAt(m[e], f, out, done, u, e);
    }
  }

  lemma {:induction false} SettleLoneCallAt(events: Events, f: Flow, out: Event, done: set<FunctionId>, u: FunctionId,
      e: (FunctionId, FunctionId))
    requires f.Valid() && u in f.calls && u !in done && !Recursive(f.calls, u)
    ensures SettledCallAt(events, f, out, done + {u}, e) ==
      SettledCallAt(PostedCallAt(events, f, out, CallsTo(u, Outflow(f, u).Keys), e), f, out, done, e)
  {
    hide Reach, Outflow, HasCallOut, Component;
    if e.0 == u {
      LoneCalls(f, u, e.1);
      assert e in CallsTo(u, Outflow(f, u).Keys) <==> e.1 in Outflow(f, u);
    }
  }

  lemma {:induction false} SettleOneFunction(m: map<FunctionId, Events>, f: Flow, out: Event, done: set<FunctionId>,
      u: FunctionId)
    requires f.Valid() && done <= f.calls.Keys && u in f.calls && u !in done && !Recursive(f.calls, u) && u in m
    ensures SettledFunctions(m, f, out, done + {u}) ==
      SettledFunctions(m, f, out, done)[u := SettledFunctions(m, f, out, done)[u][out := InclusiveTime(f, u)]]
  {
    hide Reach, InclusiveTime, MemberTime, Component;
  }

  lemma {:induction false} SettleNoCycle(m: map<FunctionId, Events>, f: Flow, out: Event, done: set<FunctionId>,
      u: FunctionId)
    requires f.Valid() && done <= f.calls.Keys && u in f.calls && u !in m
    ensures SettledCycles(m, f, out, done + {u}) == SettledCycles(m, f, out, done)
  {
    hide Reach, InclusiveTime;
  }

  lemma {:induction false} SettlingMore(f: Flow, base: Books, posted: Books, out: Event, inn: Event,
      done0: set<FunctionId>, done: set<FunctionId>, u: FunctionId)
    requires f.Valid() && Settling(f.calls, f, base, out, inn, done0) && u in f.calls && !Recursive(f.calls, u)
    requires Settling(f.calls, f, posted, out, inn, done)
    ensures Settling(f.calls, f, base, out, inn, done + {u}) && done <= f.calls.Keys
    ensures u in base.functions && u !in base.cycles
  {
    hide Reach, Component, Flow.Valid, PassesAsserted;
  }

  /** A function that is alone in its component is settled when its calls and its own time are. */
  lemma {:induction false} SettleLone(f: Flow, base: Books, out: Event, inn: Event, done0: set<FunctionId>,
      done: set<FunctionId>, u: FunctionId, s: Books, t: Books)
    requires f.Valid() && Settling(f.calls, f, base, out, inn, done0) && u in f.calls
    requires Settling(f.calls, f, Posted(base, f, out, CallsTo(u, Outflow(f, u).Keys)), out, inn, done)
    requires u !in done && !Recursive(f.calls, u)
    requires s == Settled(Posted(base, f, out, CallsTo(u, Outflow(f, u).Keys)), f, out, done)
    requires u in s.functions && t == s.(functions := s.functions[u := s.functions[u][out := InclusiveTime(f, u)]])
    ensures Settling(f.calls, f, base, out, inn, done + {u})
    ensures t == Settled(base, f, out, done + {u})
  {
    hide Reach, InclusiveTime, SettledFunctions, SettledCycles, SettledCalls, PostedCalls, Outflow, CallsTo, Settling,
      Recursive;
    SettlingMore(f, base, Posted(base, f, out, CallsTo(u, Outflow(f, u).Keys)), out, inn, done0, done, u);
    SettleLoneCalls(base.calls, f, out, done, u);
    SettleOneFunction(base.functions, f, out, done, u);
    SettleNoCycle(base.cycles, f, out, done, u);
  }

  /** Before a call is integrated: its callee lies below its caller, and cannot reach it. */
  lemma {:induction false} CallFacts(f: Flow, u: FunctionId, v: FunctionId)
    requires f.Valid() && u in f.calls && v in Outflow(f, u)
    ensures v in f.calls && v in f.calls[u] && v != u && v !in Component(f.calls, u)
    ensures Below(f.calls, v) < Below(f.calls, u) && Below(f.calls, v) !! Component(f.calls, u)
    ensures u !in Below(f.calls, v)
    ensures (u, v) in f.ratio && Outflow(f, u)[v] == Times(f.ratio[(u, v)], InclusiveTime(f, v))
  {
    hide InclusiveTime;
    OutsideOwnComponent(f, u, v);
    InOwnComponent(f.calls, u);
    forall w | w in Below(f.calls, v) && w in Component(f.calls, u)
      ensures false
    {
      ReachTransitive(f.calls, v, w, u);
      ReachCall(f.calls, u, v);
    }
  }

  lemma {:induction false} PostOneSettled(f: Flow, base: Books, out: Event, inn: Event, done: set<FunctionId>,
      u: FunctionId, v: FunctionId, s: Books, t: Books)
    requires f.Valid() && Settling(f.calls, f, base, out, inn, done)
    requires u in f.calls && u !in done && v in Outflow(f, u)
    requires s == Settled(base, f, out, done) && (u, v) in s.calls
    requires t == s.(calls := s.calls[(u, v) := s.calls[(u, v)][out := Outflow(f, u)[v]]])
    ensures Settling(f.calls, f, Posted(base, f, out, {(u, v)}), out, inn, done)
    ensures t == Settled(Posted(base, f, out, {(u, v)}), f, out, done)
  {
    hide SettledCalls, PostedCalls, Reach, Component, InclusiveTime;
    CallFacts(f, u, v);
    PostOne(base.calls, f, out, done, u, v);
    PostedSettling(f, base, out, inn, done, {(u, v)});
  }

  lemma {:induction false} SettlingValid(g: Graph, f: Flow, base: Books, out: Event, inn: Event, done: set<FunctionId>)
    requires Settling(g, f, base, out, inn, done)
    ensures g == f.calls && f.Valid() && PassesAsserted(f) && done <= f.calls.Keys && out != inn && out != CallRatio
  {
  }

  /** What gets settled on behalf of `u` apart from its own component: part of what lies below. */
  ghost predicate Deepened(g: Graph, u: FunctionId, done: set<FunctionId>, done': set<FunctionId>) {
    done <= done' && done' <= done + (Below(g, u) - Component(g, u))
  }

  /** The calls of `u` to the functions in `seen` have been integrated: `total` is the self time and
      what they take over, and apart from what was in `done0` only functions below `u` are settled. */
  ghost predicate Progress(f: Flow, u: FunctionId, total: real, done0: set<FunctionId>, done: set<FunctionId>,
      seen: set<FunctionId>)
  {
    && f.Valid() && u in f.calls && seen <= Outflow(f, u).Keys
    && Deepened(f.calls, u, done0, done) && u !in done
    && total == f.time[u] + SumOf(Restrict(Outflow(f, u), seen))
  }

  lemma {:induction false} ProgressNone(f: Flow, u: FunctionId, done: set<FunctionId>)
    requires f.Valid() && u in f.calls && u !in done
    ensures u in f.time && Progress(f, u, f.time[u], done, done, {})
  {
    hide SumOf, Outflow;
    RestrictNone(Outflow(f, u));
  }

  lemma {:induction false} ProgressMore(f: Flow, u: FunctionId, total: real, done0: set<FunctionId>,
      done: set<FunctionId>, seen: set<FunctionId>, v: FunctionId, total': real, done': set<FunctionId>)
    requires f.Valid() && u in f.calls && Progress(f, u, total, done0, done, seen) && v in Outflow(f, u) && v !in seen
    requires done <= done' <= done + Below(f.calls, v) && total' == total + Outflow(f, u)[v]
    ensures Progress(f, u, total', done0, done', seen + {v})
  {
    hide SumOf, Outflow, Below, Component;
    CallFacts(f, u, v);
    BelowSelf(f.calls, u);
    RestrictMore(Outflow(f, u), seen, v);
  }

  lemma {:induction false} NotDone(f: Flow, u: FunctionId, total: real, done0: set<FunctionId>, done: set<FunctionId>,
      seen: set<FunctionId>)
    requires Progress(f, u, total, done0, done, seen)
    ensures u !in done
  {
  }

  lemma {:induction false} ProgressAll(f: Flow, u: FunctionId, total: real, done0: set<FunctionId>,
      done: set<FunctionId>, seen: set<FunctionId>)
    requires f.Valid() && u in f.calls && Progress(f, u, total, done0, done, seen) && seen == Outflow(f, u).Keys
    ensures total == Share(f, u) && Deepened(f.calls, u, done0, done) && u !in done
  {
    hide SumOf, Outflow, Below, Component;
    RestrictAll(Outflow(f, u));
  }

  lemma {:induction false} BelowSelf(g: Graph, u: FunctionId)
    requires u in g
    ensures u in Below(g, u) && u in Component(g, u) && Component(g, u) <= Below(g, u)
  {
    ReachSelf(g, u);
  }

  lemma {:induction false} SettlingKeys(g: Graph, f: Flow, base: Books, out: Event, inn: Event)
    requires Settling(g, f, base, out, inn, {})
    ensures g == f.calls && f.Valid() && f.time.Keys == g.Keys
  {
  }

  lemma {:induction false} MemoisedLone(f: Flow, base: Books, out: Event, inn: Event, done: set<FunctionId>,
      u: FunctionId)
    requires f.Valid() && Settling(f.calls, f, base, out, inn, done) && Clean(base, out, f.calls, u)
    requires u in f.calls && !Recursive(f.calls, u)
    ensures Component(f.calls, u) == {u}
    ensures u in Settled(base, f, out, done).functions && u in f.time
    ensures inn in Settled(base, f, out, done).functions[u]
    ensures Settled(base, f, out, done).functions[u][inn] == f.time[u]
    ensures out in Settled(base, f, out, done).functions[u] <==> u in done
    ensures u in done ==> Settled(base, f, out, done).functions[u][out] == InclusiveTime(f, u)
  {
    hide Reach, InclusiveTime, MemberTime;
    BelowSelf(f.calls, u);
  }

  lemma {:induction false} LoneOutflow(f: Flow, u: FunctionId)
    requires f.Valid() && u in f.calls && !Recursive(f.calls, u)
    ensures Component(f.calls, u) == {u} && Outflow(f, u).Keys == f.calls[u] - {u}
    ensures InclusiveTime(f, u) == f.time[u] + SumOf(Outflow(f, u))
  {
    hide Reach, Outflow;
    forall v
      ensures v in Outflow(f, u) <==> v in f.calls[u] - {u}
    {
      LoneCalls(f, u, v);
    }
    SumRemove(Shares(f, {u}), u);
    InclusiveIsSumOfShares(f, u);
  }

  lemma {:induction false} PostedMoreCalls(base: Books, f: Flow, out: Event, u: FunctionId, seen: set<FunctionId>,
      v: FunctionId)
    requires f.Valid()
    ensures Posted(Posted(base, f, out, CallsTo(u, seen)), f, out, {(u, v)}) ==
      Posted(base, f, out, CallsTo(u, seen + {v}))
  {
    hide PostedCalls;
    assert CallsTo(u, seen) + {(u, v)} == CallsTo(u, seen + {v});
    PostedMore(base.calls, f, out, CallsTo(u, seen), {(u, v)});
  }

  lemma {:induction false} PostedNone(base: Books, f: Flow, out: Event, u: FunctionId)
    requires f.Valid()
    ensures Posted(base, f, out, CallsTo(u, {})) == base
  {
  }

  lemma {:induction false} RestrictMore(m: map<FunctionId, real>, seen: set<FunctionId>, v: FunctionId)
    requires seen <= m.Keys && v in m && v !in seen
    ensures SumOf(Restrict(m, seen + {v})) == SumOf(Restrict(m, seen)) + m[v]
  {
    SumInsert(Restrict(m, seen), v, m[v]);
    assert Restrict(m, seen + {v}) == Restrict(m, seen)[v := m[v]];
  }

  lemma {:induction false} RestrictNone(m: map<FunctionId, real>)
    ensures SumOf(Restrict(m, {})) == 0.0
  {
    assert Restrict(m, {}) == map[];
  }

  lemma {:induction false} RestrictAll(m: map<FunctionId, real>)
    ensures Restrict(m, m.Keys) == m
  {
  }

  lemma {:induction false} ComponentWhole(f: Flow, base: Books, out: Event, inn: Event, done: set<FunctionId>,
      u: FunctionId)
    requires f.Valid() && Settling(f.calls, f, base, out, inn, done) && u in done
    ensures Component(f.calls, u) <= done
  {
  }

  lemma {:induction false} SeenMore(keys: set<FunctionId>, todo: set<FunctionId>, v: FunctionId)
    requires v in todo
    ensures v in keys ==> keys - (todo - {v}) == (keys - todo) + {v} && v !in keys - todo
    ensures v !in keys ==> keys - (todo - {v}) == keys - todo
  {
  }

  lemma {:induction false} OutflowKeys(f: Flow, u: FunctionId)
    requires f.Valid() && u in f.calls
    ensures u in f.time
    ensures Outflow(f, u).Keys == f.calls[u] - Component(f.calls, u)
    ensures Share(f, u) == f.time[u] + SumOf(Outflow(f, u))
  {
  }

  lemma {:induction false} DoneDisjoint(f: Flow, base: Books, out: Event, inn: Event, done: set<FunctionId>,
      u: FunctionId)
    requires f.Valid() && Settling(f.calls, f, base, out, inn, done) && u in f.calls && u !in done
    ensures Component(f.calls, u) !! done
  {
    hide Reach;
    forall w | w in Component(f.calls, u) && w in done
      ensures false
    {
      ComponentShared(f.calls, u, w);
      InOwnComponent(f.calls, u);
    }
  }

  lemma {:induction false} SharesNone(f: Flow)
    requires f.Valid()
    ensures SumOf(Shares(f, {})) == 0.0
  {
    assert Shares(f, {}) == map[];
  }

  lemma {:induction false} SharesMore(f: Flow, ms: set<FunctionId>, m: FunctionId)
    requires f.Valid() && ms <= f.calls.Keys && m in f.calls && m !in ms
    ensures ms + {m} <= f.calls.Keys && SumOf(Shares(f, ms + {m})) == SumOf(Shares(f, ms)) + Share(f, m)
  {
    hide Share;
    SumInsert(Shares(f, ms), m, Share(f, m));
    assert Shares(f, ms)[m := Share(f, m)] == Shares(f, ms + {m});
  }

  // ----- the start of an integration -----

  /** The call flow that a snapshot describes. */
  ghost function FlowIn(g: Graph, b: Books, inn: Event): Flow {
    Flow(g,
      map u | u in g && u in b.functions && inn in b.functions[u] :: b.functions[u][inn],
      map e | e in b.calls && e.0 != e.1 && CallRatio in b.calls[e] :: b.calls[e][CallRatio])
  }

  /** What the integration checks before it starts. */
  ghost predicate Unintegrated(g: Graph, b: Books, out: Event, inn: Event) {
    && (forall u :: u in b.functions ==> out !in b.functions[u] && inn in b.functions[u])
    && (forall e :: e in b.calls ==> out !in b.calls[e] && (e.0 != e.1 ==> CallRatio in b.calls[e]))
    && (forall u :: u in b.cycles ==> out !in b.cycles[u])
  }

  /** The snapshot covers the call graph. */
  ghost predicate Covering(g: Graph, b: Books) {
    && Closed(g) && b.functions.Keys == g.Keys
    && (forall u, v :: u in g && v in g[u] ==> (u, v) in b.calls)
    && (forall u :: u in g ==> (u in b.cycles <==> Recursive(g, u)))
  }

  lemma {:induction false} StartIntegration(g: Graph, b: Books, out: Event, inn: Event)
    requires Covering(g, b) && Unintegrated(g, b, out, inn) && out != inn && out != CallRatio
    requires PassesAsserted(FlowIn(g, b, inn))
    ensures FlowIn(g, b, inn).Valid() && FlowIn(g, b, inn).calls == g && FlowIn(g, b, inn).time.Keys == g.Keys
    ensures Settling(g, FlowIn(g, b, inn), b, out, inn, {})
    ensures Settled(b, FlowIn(g, b, inn), out, {}) == b
  {
    hide Reach, Component, InclusiveTime, FunctionOut, CallOut, Settled, Recursive;
    SettledNone(b, FlowIn(g, b, inn), out);
  }

  lemma {:induction false} SettledNone(b: Books, f: Flow, out: Event)
    requires f.Valid()
    ensures Settled(b, f, out, {}) == b
  {
    hide Reach, Component, InclusiveTime, FunctionOut, CallOut, HasCallOut;
    var s := Settled(b, f, out, {});
    assert s.functions == b.functions && s.calls == b.calls && s.cycles == b.cycles;
  }

  lemma {:induction false} CleanAt(g: Graph, b: Books, out: Event, inn: Event, u: FunctionId)
    requires Unintegrated(g, b, out, inn)
    ensures Clean(b, out, g, u)
  {
  }

  lemma {:induction false} FlowSettled(f: Flow, base: Books, out: Event, inn: Event, done: set<FunctionId>)
    requires f.Valid() && Settling(f.calls, f, base, out, inn, done) && f == FlowIn(f.calls, base, inn)
    ensures FlowIn(f.calls, Settled(base, f, out, done), inn) == f
  {
    hide Reach, Component, InclusiveTime, FunctionOut, CallOut, HasCallOut;
    SameTimes(f, base, out, inn, done);
    SameRatios(base.calls, f, out, done);
  }

  lemma {:induction false} SameTimes(f: Flow, base: Books, out: Event, inn: Event, done: set<FunctionId>)
    requires f.Valid() && Settling(f.calls, f, base, out, inn, done) && f == FlowIn(f.calls, base, inn)
    ensures FlowIn(f.calls, Settled(base, f, out, done), inn).time == f.time
  {
    hide Reach, Component, InclusiveTime, FunctionOut, SettledCalls;
  }

  lemma {:induction false} SameRatios(m: map<(FunctionId, FunctionId), Events>, f: Flow, out: Event,
      done: set<FunctionId>)
    requires f.Valid() && out != CallRatio
    ensures var s := SettledCalls(m, f, out, done);
      (map e | e in s && e.0 != e.1 && CallRatio in s[e] :: s[e][CallRatio]) ==
      (map e | e in m && e.0 != e.1 && CallRatio in m[e] :: m[e][CallRatio])
  {
    hide HasCallOut, CallOut;
  }
}
