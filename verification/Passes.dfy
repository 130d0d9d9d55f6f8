/** The events written by the passes over one cycle. */
module Passes {
  import opened Graphs
  import opened Sums
  import opened Inclusive
  import opened Ratios
  import opened CycleFlow
  import opened Ledger
  import opened Settlement
  import opened Tallies
  import Ranking

  /** Adding to an event that may not be there yet. */
  function Accumulate(events: Events, out: Event, x: real): real {
    if out in events then events[out] + x else x
  }

  ghost function Added(events: Events, out: Event, x: real): Events {
    events[out := Accumulate(events, out, x)]
  }

  /** What the pass moves along the uphill call from `u` to `v`. */
  ghost function Moved(p: Pass, u: FunctionId, v: FunctionId): real
    requires p.Valid() && v in p.Uphill(u)
  {
    UphillSmaller(p, u, v);
    Times(p.InnerRatio(u, v), Partial(p, v))
  }

  ghost function PassFunctions(m: map<FunctionId, Events>, p: Pass, out: Event,
      ks: set<FunctionId>): map<FunctionId, Events>
    requires p.Valid()
  {
    map u | u in m :: if u in ks && u in p.Members() then Added(m[u], out, Partial(p, u)) else m[u]
  }

  ghost function PassCallAt(events: Events, p: Pass, out: Event, edges: set<Edge>, e: Edge): Events
    requires p.Valid()
  {
    if e in edges && e.1 in p.Uphill(e.0) then Added(events, out, Moved(p, e.0, e.1)) else events
  }

  ghost function PassCalls(m: map<Edge, Events>, p: Pass, out: Event, edges: set<Edge>): map<Edge, Events>
    requires p.Valid()
  {
    map e | e in m :: PassCallAt(m[e], p, out, edges, e)
  }

  /** The books after a pass has finished the members `ks` and gone along the calls `edges`. */
  ghost function PassBooks(b: Books, p: Pass, out: Event, ks: set<FunctionId>, edges: set<Edge>): Books
    requires p.Valid()
  {
    b.(functions := PassFunctions(b.functions, p, out, ks), calls := PassCalls(b.calls, p, out, edges))
  }

  ghost function UphillFrom(p: Pass, ks: set<FunctionId>): set<Edge> {
    set m, v | m in ks && v in p.Uphill(m) :: (m, v)
  }

  /** What the passes over the cycle `c` read: self times, ratios, and the times of the calls that
      leave the cycle. */
  ghost predicate Readable(b: Books, f: Flow, out: Event, inn: Event, c: set<FunctionId>)
    requires f.Valid() && c <= f.calls.Keys
  {
    && out != inn && out != CallRatio
    && (forall m :: m in c ==> m in b.functions && inn in b.functions[m] && b.functions[m][inn] == f.time[m])
    && (forall m, v :: m in c && v in f.calls[m] && v != m ==>
      && (m, v) in b.calls && (m, v) in f.ratio
      && CallRatio in b.calls[(m, v)] && b.calls[(m, v)][CallRatio] == f.ratio[(m, v)])
    && (forall m, v :: m in c && v in Outflow(f, m) ==>
      (m, v) in b.calls && out in b.calls[(m, v)] && b.calls[(m, v)][out] == Outflow(f, m)[v])
  }

  ghost predicate PassInputs(b: Books, p: Pass, out: Event, inn: Event)
    requires p.Valid()
  {
    Readable(b, p.f, out, inn, p.Members()) && forall m :: m in p.Members() ==> out in b.functions[m]
  }

  lemma {:induction false} PassFunctionReads(b: Books, p: Pass, out: Event, inn: Event, ks: set<FunctionId>,
      edges: set<Edge>, m: FunctionId)
    requires p.Valid() && PassInputs(b, p, out, inn) && m in p.Members()
    ensures m in p.f.time && m in PassBooks(b, p, out, ks, edges).functions
    ensures inn in PassBooks(b, p, out, ks, edges).functions[m]
    ensures PassBooks(b, p, out, ks, edges).functions[m][inn] == p.f.time[m]
    ensures out in PassBooks(b, p, out, ks, edges).functions[m]
  {
    hide Reach, Component, Partial;
  }

  lemma {:induction false} PassingReads(p: Pass, m: FunctionId, v: FunctionId)
    requires p.Valid() && m in p.Members() && v in p.f.calls[m] && v != m
    ensures v in Outflow(p.f, m) <==> v !in p.Members()
    ensures v in Passing(p, m)
    ensures v in Outflow(p.f, m) ==> Passing(p, m)[v] == Times(p.share, Outflow(p.f, m)[v])
    ensures v in p.Uphill(m) ==> Passing(p, m)[v] == Moved(p, m, v)
    ensures v !in Outflow(p.f, m) && v !in p.Uphill(m) ==> Passing(p, m)[v] == 0.0
  {
    hide Reach, Partial, Times, SumOf, InclusiveTime;
    ComponentShared(p.f.calls, p.entry, m);
    if v in p.Uphill(m) {
      UphillSmaller(p, m, v);
      AboveShrinks(p, m, v);
    }
  }

  lemma {:induction false} PassCallReads(b: Books, p: Pass, out: Event, inn: Event, ks: set<FunctionId>,
      edges: set<Edge>, m: FunctionId, v: FunctionId)
    requires p.Valid() && PassInputs(b, p, out, inn) && m in p.Members() && v in p.f.calls[m] && v != m
    ensures (m, v) in PassBooks(b, p, out, ks, edges).calls && (m, v) in p.f.ratio
    ensures CallRatio in PassBooks(b, p, out, ks, edges).calls[(m, v)]
    ensures PassBooks(b, p, out, ks, edges).calls[(m, v)][CallRatio] == p.f.ratio[(m, v)]
    ensures v in Outflow(p.f, m) ==>
      out in PassBooks(b, p, out, ks, edges).calls[(m, v)] &&
        PassBooks(b, p, out, ks, edges).calls[(m, v)][out] == Outflow(p.f, m)[v]
  {
    hide Reach, Partial, Component, Outflow, ShortestRanks;
    if v in p.Uphill(m) {
      UphillSmaller(p, m, v);
      PassingReads(p, m, v);
    }
  }

  lemma {:induction false} PassCallsMore(m: map<Edge, Events>, p: Pass, out: Event, edges: set<Edge>, u: FunctionId,
      v: FunctionId)
    requires p.Valid() && v in p.Uphill(u) && (u, v) !in edges && (u, v) in m
    ensures (u, v) in PassCalls(m, p, out, edges)
    ensures PassCalls(m, p, out, edges + {(u, v)}) ==
      PassCalls(m, p, out, edges)[(u, v) := Added(PassCalls(m, p, out, edges)[(u, v)], out, Moved(p, u, v))]
  {
    hide Reach, Moved, Component, Added, ShortestRanks;
  }

  /** One more call of the pass. */
  lemma {:induction false} PassCall(b: Books, p: Pass, out: Event, ks: set<FunctionId>, edges: set<Edge>, m: FunctionId,
      v: FunctionId, s: Books, t: Books)
    requires p.Valid() && v in p.Uphill(m) && (m, v) !in edges
    requires s == PassBooks(b, p, out, ks, edges) && (m, v) in s.calls
    requires t == s.(calls := s.calls[(m, v) := Added(s.calls[(m, v)], out, Moved(p, m, v))])
    ensures t == PassBooks(b, p, out, ks, edges + {(m, v)})
  {
    hide Reach, PassFunctions, Moved, Component, Added, ShortestRanks;
    PassCallsMore(b.calls, p, out, edges, m, v);
  }

  lemma {:induction false} PassFunctionsMore(m: map<FunctionId, Events>, p: Pass, out: Event, ks: set<FunctionId>,
      u: FunctionId)
    requires p.Valid() && u in p.Members() && u !in ks && u in m
    ensures PassFunctions(m, p, out, ks + {u}) ==
      PassFunctions(m, p, out, ks)[u := Added(PassFunctions(m, p, out, ks)[u], out, Partial(p, u))]
  {
    hide Reach, Partial, Component, Added, ShortestRanks;
  }

  /** One more member of the pass. */
  lemma {:induction false} PassMember(b: Books, p: Pass, out: Event, ks: set<FunctionId>, edges: set<Edge>,
      m: FunctionId, s: Books, t: Books)
    requires p.Valid() && m in p.Members() && m !in ks
    requires s == PassBooks(b, p, out, ks, edges) && m in s.functions
    requires t == s.(functions := s.functions[m := Added(s.functions[m], out, Partial(p, m))])
    ensures t == PassBooks(b, p, out, ks + {m}, edges)
  {
    hide Reach, PassCalls, Partial, Component, Added, ShortestRanks;
    PassFunctionsMore(b.functions, p, out, ks, m);
  }

  /** A part of the cycle that contains the entry and is not left uphill is all of it. */
  lemma {:induction false} UphillReachesAll(p: Pass, s: set<FunctionId>, m: FunctionId)
    requires p.Valid() && UphillClosed(p, s) && p.entry in s && m in p.Members()
    ensures m in s
    decreases if m in p.ranks then p.ranks[m] else 0
  {
    if m != p.entry {
      var k := CalledFromBelow(p, m);
      MembersRanked(p);
      UphillReachesAll(p, s, k);
    }
  }

  // ----- all passes over one cycle -----

  /** All members of `c` have `c` as their component. */
  ghost predicate OneComponent(f: Flow, c: set<FunctionId>) {
    f.Valid() && c <= f.calls.Keys && forall u :: u in c ==> Component(f.calls, u) == c
  }

  /** The books after the passes for the entries in `es`. */
  ghost function PassedFunctions(m: map<FunctionId, Events>, f: Flow, out: Event, c: set<FunctionId>,
      es: set<FunctionId>): map<FunctionId, Events>
    requires OneComponent(f, c) && es <= c
  {
    map u | u in m :: if u in c then m[u][out := MemberTime(f, es, u)] else m[u]
  }

  ghost function PassedCallAt(events: Events, f: Flow, out: Event, c: set<FunctionId>, es: set<FunctionId>,
      e: Edge): Events
    requires OneComponent(f, c) && es <= c
  {
    if e.0 in c && UphillPasses(f, es, e.0, e.1) != {} then events[out := InnerTime(f, es, e.0, e.1)] else events
  }

  ghost function PassedCalls(m: map<Edge, Events>, f: Flow, out: Event, c: set<FunctionId>,
      es: set<FunctionId>): map<Edge, Events>
    requires OneComponent(f, c) && es <= c
  {
    map e | e in m :: PassedCallAt(m[e], f, out, c, es, e)
  }

  ghost function Passed(b: Books, f: Flow, out: Event, c: set<FunctionId>, es: set<FunctionId>): Books
    requires OneComponent(f, c) && es <= c
  {
    b.(functions := PassedFunctions(b.functions, f, out, c, es), calls := PassedCalls(b.calls, f, out, c, es))
  }

  lemma {:induction false} MemberTimeMore(f: Flow, es: set<FunctionId>, e: FunctionId, u: FunctionId)
    requires f.Valid() && es + {e} <= Component(f.calls, u) && e !in es
    ensures PassOf(f, e).Valid() && u in PassOf(f, e).Members()
    ensures MemberTime(f, es + {e}, u) == MemberTime(f, es, u) + Partial(PassOf(f, e), u)
  {
    hide Reach, Partial, SumOf, RanksOf, Inflow;
    EntryOf(f, e, u);
    SumInsert(MemberTimes(f, es, u), e, Partial(PassOf(f, e), u));
    assert MemberTimes(f, es, u)[e := Partial(PassOf(f, e), u)] == MemberTimes(f, es + {e}, u);
  }

  lemma {:induction false} InnerTimeMore(f: Flow, es: set<FunctionId>, e: FunctionId, u: FunctionId, v: FunctionId)
    requires f.Valid() && es + {e} <= Component(f.calls, u) && e !in es
    ensures PassOf(f, e).Valid()
    ensures v in PassOf(f, e).Uphill(u) ==>
      InnerTime(f, es + {e}, u, v) == InnerTime(f, es, u, v) + Moved(PassOf(f, e), u, v)
    ensures v !in PassOf(f, e).Uphill(u) ==> InnerTime(f, es + {e}, u, v) == InnerTime(f, es, u, v)
    ensures UphillPasses(f, es + {e}, u, v) ==
      UphillPasses(f, es, u, v) + if v in PassOf(f, e).Uphill(u) then {e} else {}
    ensures UphillPasses(f, es, u, v) == {} ==> InnerTime(f, es, u, v) == 0.0
  {
    hide Reach, Partial, SumOf, RanksOf, Inflow, PassingIn, Moved;
    EntryOf(f, e, u);
    if v in PassOf(f, e).Uphill(u) {
      MovedIsPassing(f, e, u, v);
      SumInsert(InnerTimes(f, es, u, v), e, PassingIn(f, e, u, v));
      assert InnerTimes(f, es, u, v)[e := PassingIn(f, e, u, v)] == InnerTimes(f, es + {e}, u, v);
    } else {
      assert UphillPasses(f, es + {e}, u, v) == UphillPasses(f, es, u, v);
      assert InnerTimes(f, es, u, v) == InnerTimes(f, es + {e}, u, v);
    }
    if UphillPasses(f, es, u, v) == {} {
      SumZero(InnerTimes(f, es, u, v));
    }
  }

  lemma {:induction false} MovedIsPassing(f: Flow, e: FunctionId, u: FunctionId, v: FunctionId)
    requires f.Valid() && e in Component(f.calls, u) && v in PassOf(f, e).Uphill(u)
    ensures PassOf(f, e).Valid() && Moved(PassOf(f, e), u, v) == PassingIn(f, e, u, v)
  {
    hide Reach, Partial, RanksOf, Inflow;
    EntryOf(f, e, u);
  }

  /** What the passes over the cycle `c` start from: its inner calls carry no time yet. */
  ghost predicate CycleInputs(b: Books, f: Flow, out: Event, inn: Event, c: set<FunctionId>)
    requires OneComponent(f, c)
  {
    Readable(b, f, out, inn, c) && forall e :: e in b.calls && e.0 in c && e.1 in c ==> out !in b.calls[e]
  }

  lemma {:induction false} UphillInside(f: Flow, c: set<FunctionId>, e: FunctionId, u: FunctionId, v: FunctionId)
    requires OneComponent(f, c) && e in c && v in PassOf(f, e).Uphill(u)
    ensures u in c && v in c && PassOf(f, e).Valid()
  {
    PassValid(f, e);
    UphillSmaller(PassOf(f, e), u, v);
  }

  lemma {:induction false} NoPassOutside(f: Flow, c: set<FunctionId>, es: set<FunctionId>, u: FunctionId, v: FunctionId)
    requires OneComponent(f, c) && es <= c && !(u in c && v in c)
    ensures UphillPasses(f, es, u, v) == {}
  {
    hide Reach, SumOf, RanksOf, Inflow, Component;
    forall k | k in es && v in PassOf(f, k).Uphill(u)
      ensures false
    {
      UphillInside(f, c, k, u, v);
    }
  }

  /** The passes leave the events other than `out` as they are. */
  lemma {:induction false} PassedKeeps(b: Books, f: Flow, out: Event, event: Event, c: set<FunctionId>,
      es: set<FunctionId>)
    requires OneComponent(f, c) && es <= c && event != out
    ensures var s := Passed(b, f, out, c, es);
      && s.functions.Keys == b.functions.Keys && s.calls.Keys == b.calls.Keys
      && (forall m :: m in s.functions ==>
        (event in s.functions[m] <==> event in b.functions[m]) &&
          (event in b.functions[m] ==> s.functions[m][event] == b.functions[m][event]))
      && (forall e :: e in s.calls ==>
        (event in s.calls[e] <==> event in b.calls[e]) &&
          (event in b.calls[e] ==> s.calls[e][event] == b.calls[e][event]))
  {
    hide Reach, MemberTime, InnerTime, UphillPasses, Component;
  }

  lemma {:induction false} PassedReadable(b: Books, f: Flow, out: Event, inn: Event, c: set<FunctionId>,
      es: set<FunctionId>)
    requires OneComponent(f, c) && Readable(b, f, out, inn, c) && es <= c
    ensures Readable(Passed(b, f, out, c, es), f, out, inn, c)
  {
    hide Reach, SumOf, Outflow, Component, Passed;
    PassedKeeps(b, f, out, inn, c, es);
    PassedKeeps(b, f, out, CallRatio, c, es);
    forall m, v | m in c && v in Outflow(f, m)
      ensures (m, v) in b.calls && (m, v) in Passed(b, f, out, c, es).calls
      ensures Passed(b, f, out, c, es).calls[(m, v)] == b.calls[(m, v)]
    {
      OutflowOutside(f, c);
      PassedOutside(b, f, out, c, es, m, v);
    }
  }

  lemma {:induction false} PassedOutside(b: Books, f: Flow, out: Event, c: set<FunctionId>, es: set<FunctionId>,
      m: FunctionId, v: FunctionId)
    requires OneComponent(f, c) && es <= c && v !in c && (m, v) in b.calls
    ensures (m, v) in Passed(b, f, out, c, es).calls && Passed(b, f, out, c, es).calls[(m, v)] == b.calls[(m, v)]
  {
    hide Reach, MemberTime, InnerTime, UphillPasses, Component;
    NoPassOutside(f, c, es, m, v);
  }

  lemma {:induction false} OutflowOutside(f: Flow, c: set<FunctionId>)
    requires OneComponent(f, c)
    ensures forall m, v :: m in c && v in Outflow(f, m) ==> v !in c
  {
  }

  lemma {:induction false} PassInputsHold(b: Books, f: Flow, out: Event, inn: Event, c: set<FunctionId>,
      es: set<FunctionId>, e: FunctionId)
    requires OneComponent(f, c) && Readable(b, f, out, inn, c) && es <= c && e in c
    ensures PassOf(f, e).Valid() && PassOf(f, e).Members() == c
    ensures PassInputs(Passed(b, f, out, c, es), PassOf(f, e), out, inn)
  {
    hide Reach, SumOf, MemberTime, PassedCalls, RanksOf, Inflow, Component, Outflow;
    PassMembers(f, c, e);
    PassedReadable(b, f, out, inn, c, es);
  }

  lemma {:induction false} PassMembers(f: Flow, c: set<FunctionId>, e: FunctionId)
    requires OneComponent(f, c) && e in c
    ensures PassOf(f, e).Valid() && PassOf(f, e).Members() == c
  {
    PassValid(f, e);
  }

  lemma {:induction false} MoreFunctions(m: map<FunctionId, Events>, f: Flow, out: Event, c: set<FunctionId>,
      es: set<FunctionId>, e: FunctionId)
    requires OneComponent(f, c) && es <= c && e in c && e !in es && PassOf(f, e).Valid() && PassOf(f, e).Members() == c
    ensures PassFunctions(PassedFunctions(m, f, out, c, es), PassOf(f, e), out, c) ==
      PassedFunctions(m, f, out, c, es + {e})
  {
    hide Reach, SumOf, MemberTime, RanksOf, Inflow, Component, Partial;
    forall u | u in m
      ensures PassFunctions(PassedFunctions(m, f, out, c, es), PassOf(f, e), out, c)[u] ==
        PassedFunctions(m, f, out, c, es + {e})[u]
    {
      if u in c {
        MemberTimeMore(f, es, e, u);
        Overwrite(m[u], out, MemberTime(f, es, u), Partial(PassOf(f, e), u));
      }
    }
  }

  lemma {:induction false} Overwrite(events: Events, out: Event, x: real, y: real)
    ensures Added(events[out := x], out, y) == events[out := x + y]
    ensures out !in events ==> Added(events, out, y) == events[out := y]
  {
  }

  lemma {:induction false} MoreCalls(m: map<Edge, Events>, f: Flow, out: Event, c: set<FunctionId>, es: set<FunctionId>,
      e: FunctionId)
    requires OneComponent(f, c) && es <= c && e in c && e !in es && PassOf(f, e).Valid() && PassOf(f, e).Members() == c
    requires forall k :: k in m && k.0 in c && k.1 in c ==> out !in m[k]
    ensures PassCalls(PassedCalls(m, f, out, c, es), PassOf(f, e), out, UphillFrom(PassOf(f, e), c)) ==
      PassedCalls(m, f, out, c, es + {e})
  {
    hide Reach, SumOf, PassOf, Component, PassCallAt, PassedCallAt, UphillFrom;
    forall k | k in m
      ensures PassCallAt(PassedCallAt(m[k], f, out, c, es, k), PassOf(f, e), out, UphillFrom(PassOf(f, e), c), k) ==
        PassedCallAt(m[k], f, out, c, es + {e}, k)
    {
      MoreCallsAt(m[k], f, out, c, es, e, k);
    }
  }

  lemma {:induction false} MoreCallsAt(events: Events, f: Flow, out: Event, c: set<FunctionId>, es: set<FunctionId>,
      e: FunctionId, k: Edge)
    requires OneComponent(f, c) && es <= c && e in c && e !in es && PassOf(f, e).Valid() && PassOf(f, e).Members() == c
    requires k.0 in c && k.1 in c ==> out !in events
    ensures PassCallAt(PassedCallAt(events, f, out, c, es, k), PassOf(f, e), out, UphillFrom(PassOf(f, e), c), k) ==
      PassedCallAt(events, f, out, c, es + {e}, k)
  {
    hide Reach, SumOf, InnerTime, PassOf, Component, UphillPasses, Moved, ShortestRanks, Added;
    var u, v := k.0, k.1;
    if v in PassOf(f, e).Uphill(u) {
      UphillInside(f, c, e, u, v);
      assert k == (u, v) && k in UphillFrom(PassOf(f, e), c);
    }
    if u in c {
      InnerTimeMore(f, es, e, u, v);
      if v in PassOf(f, e).Uphill(u) {
        assert e in UphillPasses(f, es + {e}, u, v);
        Overwrite(events, out, InnerTime(f, es, u, v), Moved(PassOf(f, e), u, v));
      }
    }
  }

  /** One more entry. */
  lemma {:induction false} MorePasses(b: Books, f: Flow, out: Event, inn: Event, c: set<FunctionId>,
      es: set<FunctionId>, e: FunctionId)
    requires OneComponent(f, c) && CycleInputs(b, f, out, inn, c) && es <= c && e in c && e !in es
    ensures PassOf(f, e).Valid()
    ensures PassBooks(Passed(b, f, out, c, es), PassOf(f, e), out, c, UphillFrom(PassOf(f, e), c)) ==
      Passed(b, f, out, c, es + {e})
  {
    hide Reach, PassFunctions, PassedFunctions, PassCalls, PassedCalls, Component, RanksOf, Inflow, UphillFrom;
    PassMembers(f, c, e);
    MoreFunctions(b.functions, f, out, c, es, e);
    MoreCalls(b.calls, f, out, c, es, e);
  }

  // ----- settling a cycle -----

  /** The calls of the members `ms` that leave their components. */
  ghost function Leaving(f: Flow, ms: set<FunctionId>): set<Edge>
    requires f.Valid()
  {
    set m, v | m in ms && m in f.calls && v in f.calls[m] && v in Outflow(f, m) :: (m, v)
  }

  /** The books once the calls that leave the cycle and the cycle itself have been integrated. */
  ghost function CycleBooks(s: Books, out: Event, c: set<FunctionId>, time: real): Books {
    s.(cycles := map w | w in s.cycles :: if w in c then s.cycles[w][out := time] else s.cycles[w])
  }

  lemma {:induction false} SettleCycleCallAt(events: Events, f: Flow, out: Event, c: set<FunctionId>,
      done: set<FunctionId>, e: Edge)
    requires OneComponent(f, c) && c !! done
    requires Entries(f.calls, c) <= c
    ensures PassedCallAt(SettledCallAt(PostedCallAt(events, f, out, Leaving(f, c), e), f, out, done, e), f, out, c,
        Entries(f.calls, c), e) ==
      SettledCallAt(events, f, out, done + c, e)
  {
    hide Reach, SumOf, PassOf, Component, Entries, UphillPasses, InnerTime, InclusiveTime;
    var u, v := e.0, e.1;
    assert e == (u, v);
    if u in c {
      if v !in c {
        NoPassOutside(f, c, Entries(f.calls, c), u, v);
      }
      if UphillPasses(f, Entries(f.calls, c), u, v) != {} {
        UphillIsCall(f, c, Entries(f.calls, c), u, v);
      }
    }
  }

  lemma {:induction false} UphillIsCall(f: Flow, c: set<FunctionId>, es: set<FunctionId>, u: FunctionId, v: FunctionId)
    requires OneComponent(f, c) && es <= c && UphillPasses(f, es, u, v) != {}
    ensures u in f.calls && v in f.calls[u] && u in c && v in c
  {
    hide Reach, RanksOf, Component;
    var e :| e in es && v in PassOf(f, e).Uphill(u);
    UphillInside(f, c, e, u, v);
  }

  lemma {:induction false} SettleCycleCalls(m: map<Edge, Events>, f: Flow, out: Event, c: set<FunctionId>,
      done: set<FunctionId>)
    requires OneComponent(f, c) && c !! done && Entries(f.calls, c) <= c
    ensures PassedCalls(SettledCalls(PostedCalls(m, f, out, Leaving(f, c)), f, out, done), f, out, c,
        Entries(f.calls, c)) == SettledCalls(m, f, out, done + c)
  {
    hide Reach, Component, Entries, SettledCallAt, PostedCallAt, PassedCallAt, Leaving;
    forall e | e in m
      ensures PassedCallAt(SettledCallAt(PostedCallAt(m[e], f, out, Leaving(f, c), e), f, out, done, e), f, out, c,
          Entries(f.calls, c), e) == SettledCallAt(m[e], f, out, done + c, e)
    {
      SettleCycleCallAt(m[e], f, out, c, done, e);
    }
  }

  lemma {:induction false} SettleCycleFunctions(m: map<FunctionId, Events>, f: Flow, out: Event, c: set<FunctionId>,
      done: set<FunctionId>)
    requires OneComponent(f, c) && c !! done && done <= f.calls.Keys && Entries(f.calls, c) <= c && forall u ::
      u in c ==> Recursive(f.calls, u)
    ensures PassedFunctions(SettledFunctions(m, f, out, done), f, out, c, Entries(f.calls, c)) ==
      SettledFunctions(m, f, out, done + c)
  {
    hide Reach, Component, Entries, MemberTime, InclusiveTime, Recursive;
  }

  lemma {:induction false} SettleCycleCycles(m: map<FunctionId, Events>, f: Flow, out: Event, c: set<FunctionId>,
      done: set<FunctionId>, u: FunctionId)
    requires OneComponent(f, c) && c !! done && done <= f.calls.Keys && u in c
    ensures var s := SettledCycles(m, f, out, done);
      (map w | w in s :: if w in c then s[w][out := InclusiveTime(f, u)] else s[w]) ==
      SettledCycles(m, f, out, done + c)
  {
    hide Reach, Component, InclusiveTime;
    forall w | w in c
      ensures InclusiveTime(f, w) == InclusiveTime(f, u)
    {
      InclusiveShared(f, u, w);
    }
  }

  /** A cycle is settled when its outgoing calls, its own time and all passes have been recorded. */
  lemma {:induction false} SettleCycle(f: Flow, base: Books, out: Event, inn: Event, done0: set<FunctionId>,
      done: set<FunctionId>, c: set<FunctionId>, u: FunctionId, s: Books)
    requires f.Valid() && Settling(f.calls, f, base, out, inn, done0) && OneComponent(f, c)
    requires Settling(f.calls, f, Posted(base, f, out, Leaving(f, c)), out, inn, done)
    requires c !! done && u in c && Entries(f.calls, c) <= c && forall w :: w in c ==> Recursive(f.calls, w)
    requires s == Settled(Posted(base, f, out, Leaving(f, c)), f, out, done)
    ensures Settling(f.calls, f, base, out, inn, done + c)
    ensures Passed(CycleBooks(s, out, c, InclusiveTime(f, u)), f, out, c, Entries(f.calls, c)) ==
      Settled(base, f, out, done + c)
  {
    hide Reach, Component, Recursive, InclusiveTime, SettledFunctions, SettledCalls, SettledCycles, PostedCalls,
      PassedFunctions, PassedCalls, Leaving, Entries;
    SettleCycleFunctions(base.functions, f, out, c, done);
    SettleCycleCalls(base.calls, f, out, c, done);
    SettleCycleCycles(base.cycles, f, out, c, done, u);
  }

  // ----- before the passes -----

  /** Nothing that the calls out of `m` lead to carries the event `out` yet. */
  ghost predicate CalleesClean(f: Flow, b: Books, out: Event, m: FunctionId)
    requires f.Valid() && m in f.calls
  {
    forall v :: v in Outflow(f, m) ==> Clean(b, out, f.calls, v) && (m, v) in b.calls && out !in b.calls[(m, v)]
  }

  lemma {:induction false} CleanPosted(f: Flow, b: Books, out: Event, posted: set<Edge>, v: FunctionId)
    requires f.Valid() && Clean(b, out, f.calls, v) && forall e :: e in posted ==> e.0 !in Below(f.calls, v)
    ensures Clean(Posted(b, f, out, posted), out, f.calls, v)
  {
    hide Below, Outflow;
  }

  lemma {:induction false} CalleeClean(f: Flow, b: Books, out: Event, m: FunctionId, seen: set<FunctionId>,
      v: FunctionId)
    requires f.Valid() && m in f.calls && CalleesClean(f, b, out, m) && v in Outflow(f, m) && v !in seen
    ensures Clean(Posted(b, f, out, CallsTo(m, seen)), out, f.calls, v)
    ensures (m, v) in Posted(b, f, out, CallsTo(m, seen)).calls
    ensures out !in Posted(b, f, out, CallsTo(m, seen)).calls[(m, v)]
  {
    hide Below, Outflow, Clean;
    CallFacts(f, m, v);
    CleanPosted(f, b, out, CallsTo(m, seen), v);
  }

  lemma {:induction false} CleanCallees(f: Flow, base: Books, out: Event, inn: Event, done: set<FunctionId>,
      u: FunctionId)
    requires f.Valid() && Settling(f.calls, f, base, out, inn, done) && Clean(base, out, f.calls, u) && u in f.calls
    ensures CalleesClean(f, base, out, u)
  {
    hide Reach, Outflow, Component, InclusiveTime, Below;
    BelowSelf(f.calls, u);
    forall v | v in Outflow(f, u)
      ensures Clean(base, out, f.calls, v) && (u, v) in base.calls && out !in base.calls[(u, v)]
    {
      CallFacts(f, u, v);
    }
  }

  lemma {:induction false} MemberCalleeClean(f: Flow, base: Books, out: Event, inn: Event, done: set<FunctionId>,
      u: FunctionId, c: set<FunctionId>, ms: set<FunctionId>, m: FunctionId, v: FunctionId)
    requires f.Valid() && Settling(f.calls, f, base, out, inn, done) && OneComponent(f, c) && u in c
    requires Clean(base, out, f.calls, u) && ms <= c && m in c && m !in ms && v in Outflow(f, m)
    ensures Clean(Posted(base, f, out, Leaving(f, ms)), out, f.calls, v)
    ensures (m, v) in Posted(base, f, out, Leaving(f, ms)).calls
    ensures out !in Posted(base, f, out, Leaving(f, ms)).calls[(m, v)]
  {
    hide Reach, InclusiveTime, Component, Outflow, Recursive;
    BelowShared(f.calls, u, m);
    BelowSelf(f.calls, m);
    CallFacts(f, m, v);
    CleanPosted(f, base, out, Leaving(f, ms), v);
  }

  lemma {:induction false} MembersClean(f: Flow, base: Books, out: Event, inn: Event, done: set<FunctionId>,
      u: FunctionId, c: set<FunctionId>, ms: set<FunctionId>, m: FunctionId)
    requires f.Valid() && Settling(f.calls, f, base, out, inn, done) && OneComponent(f, c) && u in c
    requires Clean(base, out, f.calls, u) && ms <= c && m in c && m !in ms
    ensures CalleesClean(f, Posted(base, f, out, Leaving(f, ms)), out, m)
    ensures Below(f.calls, m) == Below(f.calls, u)
  {
    hide Reach, InclusiveTime, Component, Outflow, Clean, Below, Posted, Leaving, Settling;
    BelowShared(f.calls, u, m);
    forall v | v in Outflow(f, m)
      ensures Clean(Posted(base, f, out, Leaving(f, ms)), out, f.calls, v)
      ensures (m, v) in Posted(base, f, out, Leaving(f, ms)).calls
      ensures out !in Posted(base, f, out, Leaving(f, ms)).calls[(m, v)]
    {
      MemberCalleeClean(f, base, out, inn, done, u, c, ms, m, v);
    }
  }

  lemma {:induction false} LeavingMore(f: Flow, base: Books, out: Event, ms: set<FunctionId>, m: FunctionId)
    requires f.Valid() && m in f.calls
    ensures Posted(Posted(base, f, out, Leaving(f, ms)), f, out, CallsTo(m, Outflow(f, m).Keys)) ==
      Posted(base, f, out, Leaving(f, ms + {m}))
    ensures Posted(base, f, out, Leaving(f, {})) == base
  {
    LeavingUnion(f, ms, m);
    PostedMore(base.calls, f, out, Leaving(f, ms), CallsTo(m, Outflow(f, m).Keys));
  }

  lemma {:induction false} LeavingUnion(f: Flow, ms: set<FunctionId>, m: FunctionId)
    requires f.Valid() && m in f.calls
    ensures Leaving(f, ms) + CallsTo(m, Outflow(f, m).Keys) == Leaving(f, ms + {m})
    ensures Leaving(f, {}) == {}
  {
    hide Reach, InclusiveTime, Component;
  }

  /** What is settled elsewhere leaves the members of `c` alone. */
  lemma {:induction false} SettledElsewhere(f: Flow, base: Books, out: Event, done: set<FunctionId>, c: set<FunctionId>,
      posted: set<Edge>)
    requires f.Valid() && c !! done && done <= f.calls.Keys
    ensures var s := Settled(Posted(base, f, out, posted), f, out, done);
      && s.calls.Keys == base.calls.Keys && s.functions.Keys == base.functions.Keys
      && (forall m :: m in c && m in base.functions ==> s.functions[m] == base.functions[m])
      && (forall e :: e in base.calls && e.0 in c ==> s.calls[e] == PostedCallAt(base.calls[e], f, out, posted, e))
  {
    hide Reach, InclusiveTime, HasCallOut, FunctionOut, PostedCallAt, CallOut;
  }

  lemma {:induction false} LeavingAt(f: Flow, out: Event, c: set<FunctionId>, events: Events, e: Edge)
    requires OneComponent(f, c) && e.0 in c
    ensures PostedCallAt(events, f, out, Leaving(f, c), e) ==
      if e.1 in Outflow(f, e.0) then events[out := Outflow(f, e.0)[e.1]] else events
    ensures e.1 in Outflow(f, e.0) ==> e.1 in f.calls[e.0] && e.1 !in c
  {
    hide Reach, InclusiveTime, Component, Outflow;
    OutflowOutside(f, c);
    assert e == (e.0, e.1);
    if e.1 in Outflow(f, e.0) {
      CallFacts(f, e.0, e.1);
    }
  }

  /** What the books say about a cycle whose members have not been integrated. */
  lemma {:induction false} CleanCycle(f: Flow, base: Books, out: Event, inn: Event, done: set<FunctionId>,
      c: set<FunctionId>, u: FunctionId)
    requires f.Valid() && Settling(f.calls, f, base, out, inn, done) && OneComponent(f, c) && u in c
    requires Clean(base, out, f.calls, u)
    ensures out != inn && out != CallRatio
    ensures forall m :: m in c ==>
      m in base.functions && inn in base.functions[m] && base.functions[m][inn] == f.time[m]
    ensures forall m, v :: m in c && v in f.calls[m] ==> (m, v) in base.calls
    ensures forall m, v :: m in c && v in f.calls[m] && v != m ==>
      (m, v) in f.ratio && CallRatio in base.calls[(m, v)] && base.calls[(m, v)][CallRatio] == f.ratio[(m, v)]
    ensures forall e :: e in base.calls && e.0 in c ==> out !in base.calls[e]
  {
    hide Reach, Component, Below;
    MembersBelow(f, c, u);
  }

  lemma {:induction false} CycleInputsHold(f: Flow, base: Books, out: Event, inn: Event, done0: set<FunctionId>,
      done: set<FunctionId>, c: set<FunctionId>, u: FunctionId, s: Books, time: real)
    requires f.Valid() && Settling(f.calls, f, base, out, inn, done0) && OneComponent(f, c) && u in c
    requires Clean(base, out, f.calls, u) && c !! done && done <= f.calls.Keys
    requires s == Settled(Posted(base, f, out, Leaving(f, c)), f, out, done)
    ensures CycleInputs(CycleBooks(s, out, c, time), f, out, inn, c)
  {
    hide Reach, InclusiveTime, Settled, Posted, PostedCallAt, Leaving, Outflow, Component, Clean, Settling;
    CleanCycle(f, base, out, inn, done0, c, u);
    SettledElsewhere(f, base, out, done, c, Leaving(f, c));
    forall e | e in s.calls && e.0 in c
      ensures e.1 in Outflow(f, e.0) ==> e.1 in f.calls[e.0] && e.1 !in c
      ensures s.calls[e] == if e.1 in Outflow(f, e.0) then base.calls[e][out := Outflow(f, e.0)[e.1]] else base.calls[e]
    {
      LeavingAt(f, out, c, base.calls[e], e);
    }
    forall m, v | m in c && v in Outflow(f, m)
      ensures v in f.calls[m]
    {
      CallFacts(f, m, v);
    }
  }

  lemma {:induction false} MembersBelow(f: Flow, c: set<FunctionId>, u: FunctionId)
    requires OneComponent(f, c) && u in c
    ensures c <= Below(f.calls, u)
  {
    BelowSelf(f.calls, u);
  }

  ghost function Zeroed(b: Books, out: Event, ks: set<FunctionId>): Books {
    b.(functions := map u | u in b.functions :: if u in ks then b.functions[u][out := 0.0] else b.functions[u])
  }

  lemma {:induction false} ZeroedMore(b: Books, out: Event, ks: set<FunctionId>, u: FunctionId)
    requires u in b.functions
    ensures u in Zeroed(b, out, ks).functions
    ensures Zeroed(b, out, ks + {u}) ==
      Zeroed(b, out, ks).(functions := Zeroed(b, out, ks).functions[u := Zeroed(b, out, ks).functions[u][out := 0.0]])
    ensures Zeroed(b, out, {}) == b
  {
    if u in ks {
      assert b.functions[u][out := 0.0][out := 0.0] == b.functions[u][out := 0.0];
    }
  }

  lemma {:induction false} ZeroedIsPassed(b: Books, f: Flow, out: Event, c: set<FunctionId>)
    requires OneComponent(f, c)
    ensures Zeroed(b, out, c) == Passed(b, f, out, c, {})
  {
    hide Reach, Component, PassOf;
    forall u | u in c
      ensures MemberTime(f, {}, u) == 0.0
    {
      SumZero(MemberTimes(f, {}, u));
    }
  }

  // ----- the ratios with which the entries are called -----

  /** Every non-self call carries its ratio. */
  ghost predicate Rated(b: Books, f: Flow) {
    forall u, v :: u in f.calls && v in f.calls[u] && v != u ==>
      (u, v) in b.calls && (u, v) in f.ratio && CallRatio in b.calls[(u, v)] &&
        b.calls[(u, v)][CallRatio] == f.ratio[(u, v)]
  }

  lemma {:induction false} SettledRated(f: Flow, base: Books, out: Event, inn: Event, done: set<FunctionId>, s: Books)
    requires f.Valid() && Settling(f.calls, f, base, out, inn, done)
    requires s.calls == Settled(base, f, out, done).calls
    ensures Rated(s, f)
  {
    forall u, v | u in f.calls && v in f.calls[u] && v != u
      ensures (u, v) in s.calls && (u, v) in f.ratio && CallRatio in s.calls[(u, v)]
      ensures s.calls[(u, v)][CallRatio] == f.ratio[(u, v)]
    {
      CallReads(f, base, out, inn, done, u, v);
    }
  }

  /** The calls from the functions `ms` into the cycle `c` from outside of it. */
  ghost function EntryEdges(g: Graph, c: set<FunctionId>, ms: set<FunctionId>): set<Edge> {
    set m, v | m in ms && m in g && m !in c && v in g[m] && v in c :: (m, v)
  }

  ghost function WeightOf(f: Flow): (FunctionId, FunctionId) -> real {
    (u, v) => Weight(f, u, v)
  }

  lemma {:induction false} EntryCaller(f: Flow, c: set<FunctionId>, v: FunctionId)
    requires OneComponent(f, c)
    ensures Callers(f.calls.Keys, EntryEdges(f.calls, c, f.calls.Keys), v) ==
      (set m | m in f.calls && m !in c && v in f.calls[m] && v in c)
  {
  }

  /** Tallying the calls into the cycle finds the entries and what their callers take over. */
  lemma {:induction false} EntriesTallied(f: Flow, c: set<FunctionId>, sums: map<FunctionId, real>)
    requires OneComponent(f, c)
    requires Tallied(WeightOf(f), f.calls.Keys, EntryEdges(f.calls, c, f.calls.Keys), sums)
    ensures sums.Keys == Entries(f.calls, c)
    ensures forall v :: v in sums ==> sums[v] == Inflow(f, f.calls.Keys, v)
  {
    hide Reach, SumOf, Callers, EntryEdges, OneComponent;
    forall v
      ensures v in sums <==> v in Entries(f.calls, c)
    {
      EntryDefined(f, c, v);
    }
    forall v | v in sums
      ensures sums[v] == Inflow(f, f.calls.Keys, v)
    {
      EntrySum(f, c, v);
    }
  }

  lemma {:induction false} EntryDefined(f: Flow, c: set<FunctionId>, v: FunctionId)
    requires OneComponent(f, c)
    ensures v in Entries(f.calls, c) <==> Callers(f.calls.Keys, EntryEdges(f.calls, c, f.calls.Keys), v) != {}
  {
    hide Callers, Reach;
    EntryCaller(f, c, v);
    var callers := set m | m in f.calls && m !in c && v in f.calls[m] && v in c;
    forall u | u in f.calls && u !in c && v in c && v in f.calls[u]
      ensures u in callers && v in Entries(f.calls, c)
    {
    }
  }

  lemma {:induction false} EntrySum(f: Flow, c: set<FunctionId>, v: FunctionId)
    requires OneComponent(f, c) && v in Entries(f.calls, c)
    ensures EdgeSum(WeightOf(f), f.calls.Keys, EntryEdges(f.calls, c, f.calls.Keys), v) == Inflow(f, f.calls.Keys, v)
  {
    hide Reach, SumOf, Component;
    EntryCaller(f, c, v);
    var a := map m | m in Callers(f.calls.Keys, EntryEdges(f.calls, c, f.calls.Keys), v) :: WeightOf(f)(m, v);
    var b := map m | m in f.calls.Keys :: Weight(f, m, v);
    forall m | m in b
      ensures b[m] == if m in a then a[m] else 0.0
    {
      if m in c {
        CycleMember(f, c, m);
      }
    }
    SumExtend(a, b);
  }

  lemma {:induction false} CycleMember(f: Flow, c: set<FunctionId>, m: FunctionId)
    requires OneComponent(f, c) && m in c
    ensures Component(f.calls, m) == c
  {
  }

  lemma {:induction false} EntryWeight(f: Flow, c: set<FunctionId>, m: FunctionId, v: FunctionId)
    requires OneComponent(f, c) && m in f.calls && m !in c && v in c && v in f.calls[m]
    ensures v != m && (m, v) in f.ratio && Weight(f, m, v) == f.ratio[(m, v)]
  {
    hide Reach;
    if v in Component(f.calls, m) {
      ComponentShared(f.calls, m, v);
      InOwnComponent(f.calls, m);
    }
  }

  lemma {:induction false} EntryEdgesMore(g: Graph, c: set<FunctionId>, ms: set<FunctionId>, m: FunctionId)
    requires m in g && m !in ms
    ensures m in c ==> EntryEdges(g, c, ms + {m}) == EntryEdges(g, c, ms)
    ensures m !in c ==> EntryEdges(g, c, ms + {m}) == EntryEdges(g, c, ms) + CallsTo(m, g[m] * c)
    ensures forall v :: (m, v) !in EntryEdges(g, c, ms)
  {
  }

  // ----- the sums of the uphill ratios -----

  ghost function RatioOf(p: Pass): (FunctionId, FunctionId) -> real {
    (u, v) => p.UphillRatio(u, v)
  }

  lemma {:induction false} UphillFromMore(p: Pass, ks: set<FunctionId>, m: FunctionId)
    ensures UphillFrom(p, ks + {m}) == UphillFrom(p, ks) + CallsTo(m, p.Uphill(m))
    ensures UphillFrom(p, {}) == {}
    ensures m !in ks ==> forall v :: (m, v) !in UphillFrom(p, ks)
  {
  }

  lemma {:induction false} UphillFromUnion(p: Pass, a: set<FunctionId>, b: set<FunctionId>)
    ensures UphillFrom(p, a + b) == UphillFrom(p, a) + UphillFrom(p, b)
  {
  }

  /** Once all members have been gone through, the tally is the sum of the uphill ratios. */
  lemma {:induction false} UphillTallied(p: Pass, sums: map<FunctionId, real>, v: FunctionId)
    requires p.Valid() && Tallied(RatioOf(p), p.Members(), UphillFrom(p, p.Members()), sums)
    ensures v in sums ==> sums[v] == p.RatioSum(v)
    ensures forall m :: v in p.Uphill(m) ==> v in sums
  {
    hide Reach, SumOf, Component;
    MembersRanked(p);
    var callers := Callers(p.Members(), UphillFrom(p, p.Members()), v);
    var a, b := map m | m in callers :: RatioOf(p)(m, v), map m | m in p.ranks :: p.UphillRatio(m, v);
    assert forall m :: m in callers <==> m in p.ranks && v in p.Uphill(m);
    SumExtend(a, b);
    forall m | v in p.Uphill(m)
      ensures v in sums
    {
      assert m in callers;
    }
  }

  /** A call within the cycle leads uphill exactly when the rank of the callee is larger. */
  lemma {:induction false} UphillIff(p: Pass, m: FunctionId, v: FunctionId)
    requires p.Valid() && m in p.Members() && v in p.Members() && v in p.f.calls[m]
    ensures m in p.ranks && v in p.ranks
    ensures v in p.Uphill(m) <==> p.ranks[v] > p.ranks[m]
    ensures v in p.Uphill(m) ==> (m, v) in p.f.ratio && p.UphillRatio(m, v) == p.f.ratio[(m, v)] && v != m
  {
    hide Reach;
    MembersRanked(p);
    if v in p.Uphill(m) {
      UphillSmaller(p, m, v);
    }
  }

  lemma {:induction false} UphillWithin(p: Pass, m: FunctionId)
    requires p.Valid() && m in p.Members()
    ensures p.Uphill(m) <= p.Members() && p.Uphill(m) <= p.f.calls[m] && m !in p.Uphill(m)
  {
    hide Reach;
    MembersRanked(p);
  }

  lemma {:induction false} FreshEdge(p: Pass, edges: set<Edge>, start: set<FunctionId>, visited: set<FunctionId>,
      u: FunctionId, seen: set<FunctionId>, v: FunctionId)
    requires u in start && u !in visited - start && v !in seen
    requires forall e :: e in edges ==> e.0 in start && e.0 != u
    ensures (u, v) !in edges + UphillFrom(p, visited - start) + CallsTo(u, seen)
    ensures forall e :: e in edges + UphillFrom(p, visited - start) + CallsTo(u, seen + {v}) ==> e.0 in visited + start
  {
  }

  // ----- one step of a pass -----

  ghost predicate RatiosKnown(p: Pass, ratios: map<FunctionId, real>) {
    forall m, v :: v in p.Uphill(m) ==> v in ratios && ratios[v] == p.RatioSum(v)
  }

  ghost predicate PartialsKnown(p: Pass, partials: map<FunctionId, real>)
    requires p.Valid()
  {
    forall k :: k in partials ==> k in p.Members() && partials[k] == Partial(p, k)
  }

  /** The calls gone along so far start in finished members, or closer to the entry than `u`. */
  ghost predicate EdgesOf(p: Pass, ks: set<FunctionId>, edges: set<Edge>, u: FunctionId) {
    u in p.ranks && forall e :: e in edges ==> e.0 in ks || (e.0 in p.ranks && p.ranks[e.0] < p.ranks[u])
  }

  /** Members finished on behalf of `u` lie at or above it, and so does all they take time from. */
  ghost predicate NewPartials(p: Pass, ks: set<FunctionId>, ks': set<FunctionId>, u: FunctionId) {
    ks <= ks' && u in p.ranks && forall k :: k in ks' - ks ==>
      k in p.ranks && p.ranks[k] >= p.ranks[u] && p.Uphill(k) <= ks'
  }

  /** The state of a pass while it goes through the calls of `u`; those in `seen` are done. */
  ghost predicate Stepping(p: Pass, ks: set<FunctionId>, edges: set<Edge>, ks': set<FunctionId>, edges': set<Edge>,
      u: FunctionId, seen: set<FunctionId>)
  {
    && ks <= ks' && u !in ks' && u in p.ranks && EdgesOf(p, ks, edges, u)
    && (forall k :: k in ks' - ks ==> k in p.ranks && p.ranks[k] > p.ranks[u] && p.Uphill(k) <= ks')
    && p.Uphill(u) * seen <= ks'
    && edges' == edges + UphillFrom(p, ks' - ks) + CallsTo(u, p.Uphill(u) * seen)
  }

  lemma {:induction false} StepStart(p: Pass, ks: set<FunctionId>, edges: set<Edge>, u: FunctionId)
    requires EdgesOf(p, ks, edges, u) && u !in ks
    ensures Stepping(p, ks, edges, ks, edges, u, {})
  {
  }

  lemma {:induction false} StepOther(p: Pass, ks: set<FunctionId>, edges: set<Edge>, ks': set<FunctionId>,
      edges': set<Edge>, u: FunctionId, seen: set<FunctionId>, v: FunctionId)
    requires Stepping(p, ks, edges, ks', edges', u, seen) && v !in p.Uphill(u)
    ensures Stepping(p, ks, edges, ks', edges', u, seen + {v})
  {
    assert p.Uphill(u) * (seen + {v}) == p.Uphill(u) * seen;
  }

  lemma {:induction false} StepInto(p: Pass, ks: set<FunctionId>, edges: set<Edge>, ks': set<FunctionId>,
      edges': set<Edge>, u: FunctionId, seen: set<FunctionId>, v: FunctionId)
    requires Stepping(p, ks, edges, ks', edges', u, seen) && v in p.Uphill(u) && v !in seen
    ensures EdgesOf(p, ks', edges', v)
    ensures (u, v) !in edges'
  {
  }

  lemma {:induction false} StepBack(p: Pass, ks: set<FunctionId>, edges: set<Edge>, ks': set<FunctionId>,
      edges': set<Edge>, ks'': set<FunctionId>, u: FunctionId, seen: set<FunctionId>, v: FunctionId)
    requires Stepping(p, ks, edges, ks', edges', u, seen) && v in p.Uphill(u) && v !in seen
    requires NewPartials(p, ks', ks'', v) && v in ks''
    ensures (u, v) !in edges' + UphillFrom(p, ks'' - ks')
    ensures Stepping(p, ks, edges, ks'', edges' + UphillFrom(p, ks'' - ks') + {(u, v)}, u, seen + {v})
  {
    hide UphillFrom;
    UphillFromUnion(p, ks' - ks, ks'' - ks');
    assert ks'' - ks == (ks' - ks) + (ks'' - ks');
    assert p.Uphill(u) * (seen + {v}) == p.Uphill(u) * seen + {v};
    CallsToMore(u, p.Uphill(u) * seen, v);
    NotFrom(p, ks'' - ks', u);
    StepInto(p, ks, edges, ks', edges', u, seen, v);
  }

  lemma {:induction false} NotFrom(p: Pass, ks: set<FunctionId>, u: FunctionId)
    requires u !in ks
    ensures forall v :: (u, v) !in UphillFrom(p, ks)
  {
  }

  lemma {:induction false} StepFinish(p: Pass, ks: set<FunctionId>, edges: set<Edge>, ks': set<FunctionId>,
      edges': set<Edge>, u: FunctionId, seen: set<FunctionId>)
    requires Stepping(p, ks, edges, ks', edges', u, seen) && p.Uphill(u) <= seen
    ensures NewPartials(p, ks, ks' + {u}, u)
    ensures edges' == edges + UphillFrom(p, ks' + {u} - ks)
  {
    hide UphillFrom;
    assert p.Uphill(u) * seen == p.Uphill(u);
    assert ks' + {u} - ks == (ks' - ks) + {u};
    UphillFromMore(p, ks' - ks, u);
  }

  lemma {:induction false} NothingNew(p: Pass, ks: set<FunctionId>, edges: set<Edge>, u: FunctionId)
    requires EdgesOf(p, ks, edges, u)
    ensures NewPartials(p, ks, ks, u) && edges == edges + UphillFrom(p, ks - ks)
  {
  }

  lemma {:induction false} PassingKeys(p: Pass, u: FunctionId)
    requires p.Valid() && u in p.Members()
    ensures Passing(p, u).Keys == p.f.calls[u] - {u} && p.Uphill(u) <= p.f.calls[u] - {u} && u in p.f.time
    ensures Partial(p, u) == Times(p.share, p.f.time[u]) + SumOf(Passing(p, u))
  {
    UphillWithin(p, u);
  }

  lemma {:induction false} StepOutside(p: Pass, u: FunctionId, v: FunctionId)
    requires p.Valid() && u in p.Members() && v !in p.Members()
    ensures v !in p.Uphill(u)
  {
    UphillWithin(p, u);
  }

  lemma {:induction false} SteppingFresh(p: Pass, ks: set<FunctionId>, edges: set<Edge>, ks': set<FunctionId>,
      edges': set<Edge>, u: FunctionId, seen: set<FunctionId>)
    requires Stepping(p, ks, edges, ks', edges', u, seen)
    ensures u !in ks' && ks <= ks'
  {
  }

  lemma {:induction false} PartialsMore(p: Pass, partials: map<FunctionId, real>, u: FunctionId)
    requires p.Valid() && PartialsKnown(p, partials) && u in p.Members()
    ensures PartialsKnown(p, partials[u := Partial(p, u)])
  {
  }

  lemma {:induction false} PartialKnown(p: Pass, partials: map<FunctionId, real>, u: FunctionId)
    requires p.Valid() && PartialsKnown(p, partials) && u in partials
    ensures u in p.Members() && partials[u] == Partial(p, u)
  {
  }

  lemma {:induction false} RatioKnown(p: Pass, ratios: map<FunctionId, real>, u: FunctionId, v: FunctionId)
    requires p.Valid() && RatiosKnown(p, ratios) && v in p.Uphill(u)
    ensures v in ratios && v in p.Members() && (u, v) in p.f.ratio
    ensures Moved(p, u, v) == Times(Ratio(p.f.ratio[(u, v)], ratios[v]), Partial(p, v))
  {
    hide Reach, SumOf, Component, Partial, ShortestRanks, Ratio, Times;
    UphillSmaller(p, u, v);
  }

  // ----- one whole pass -----

  lemma {:induction false} PositivePass(f: Flow, e: FunctionId)
    requires f.Valid() && f.Positive() && e in f.calls
    ensures PassOf(f, e).Valid() && UphillPositive(PassOf(f, e))
  {
    hide Reach, RanksOf, Inflow;
    PassValid(f, e);
    forall m, v | v in PassOf(f, e).Uphill(m)
      ensures PassOf(f, e).UphillRatio(m, v) > 0.0
    {
      UphillSmaller(PassOf(f, e), m, v);
    }
  }

  lemma {:induction false} PassedRated(b: Books, f: Flow, out: Event, c: set<FunctionId>, es: set<FunctionId>)
    requires OneComponent(f, c) && es <= c && Rated(b, f) && out != CallRatio
    ensures Rated(Passed(b, f, out, c, es), f)
  {
    hide Reach, Component, PassOf, InnerTime, UphillPasses;
  }

  /** The ranks that the relaxation finds are those of the pass. */
  lemma {:induction false} RanksFound(f: Flow, c: set<FunctionId>, e: FunctionId, ranks: map<FunctionId, nat>)
    requires OneComponent(f, c) && e in c && Ranking.Ranked(Inner(f.calls, c), e, map[], ranks, e, 0)
    ensures PassOf(f, e).Valid() && ranks == PassOf(f, e).ranks
  {
    hide Reach, Walk;
    PassValid(f, e);
    forall m | m in c
      ensures Reach(Inner(f.calls, c), e, m)
    {
      InnerReach(f.calls, e, m);
    }
    Ranking.RankingCorrect(Inner(f.calls, c), e, ranks);
    RanksUnique(Inner(f.calls, c), e, ranks, PassOf(f, e).ranks);
  }

  lemma {:induction false} StartRanks(f: Flow, c: set<FunctionId>, e: FunctionId)
    requires OneComponent(f, c) && e in c
    ensures var h := Inner(f.calls, c);
      Ranking.Sound(h, e, map[]) && Walk(h, 0, e, e) && Ranking.Active(h, map[], {}, 0)
    ensures c == Component(f.calls, e)
  {
  }

  lemma {:induction false} RatiosFound(p: Pass, ratios: map<FunctionId, real>, visited: set<FunctionId>)
    requires p.Valid() && p.entry in visited && visited <= p.Members() && UphillClosed(p, visited)
    requires Tallied(RatioOf(p), p.Members(), UphillFrom(p, visited), ratios)
    ensures RatiosKnown(p, ratios)
  {
    hide Reach, SumOf, Component, Tallied, UphillFrom, ShortestRanks;
    AllVisited(p, visited);
    forall m, v | v in p.Uphill(m)
      ensures v in ratios && ratios[v] == p.RatioSum(v)
    {
      UphillTallied(p, ratios, v);
    }
  }

  lemma {:induction false} AllVisited(p: Pass, visited: set<FunctionId>)
    requires p.Valid() && p.entry in visited && visited <= p.Members() && UphillClosed(p, visited)
    ensures visited == p.Members()
  {
    forall m | m in p.Members()
      ensures m in visited
    {
      UphillReachesAll(p, visited, m);
    }
  }

  lemma {:induction false} PassStart(b: Books, p: Pass, out: Event, none: map<FunctionId, real>)
    requires p.Valid() && none == map[]
    ensures PassBooks(b, p, out, none.Keys, {}) == b
  {
    hide PassFunctions, PassCalls, Pass.Valid;
    assert none.Keys == {};
    NoFunctions(b.functions, p, out);
    NoCalls(b.calls, p, out);
  }

  lemma {:induction false} NoFunctions(m: map<FunctionId, Events>, p: Pass, out: Event)
    requires p.Valid()
    ensures PassFunctions(m, p, out, {}) == m
  {
    hide Reach, Component, Partial, Accumulate, ShortestRanks;
  }

  lemma {:induction false} NoCalls(m: map<Edge, Events>, p: Pass, out: Event)
    requires p.Valid()
    ensures PassCalls(m, p, out, {}) == m
  {
    hide Reach, Component, Moved, Accumulate, ShortestRanks;
  }

  lemma {:induction false} PassEmpty(p: Pass, none: map<FunctionId, real>)
    requires p.Valid() && none == map[]
    ensures PartialsKnown(p, none) && EdgesOf(p, none.Keys, {}, p.entry)
    ensures Tallied(RatioOf(p), p.Members(), {}, none)
  {
    hide Reach, Component, Partial, SumOf;
    MembersRanked(p);
  }

  lemma {:induction false} PassEnd(p: Pass, partials: map<FunctionId, real>, none: map<FunctionId, real>)
    requires p.Valid() && Asserted(p)
    requires PartialsKnown(p, partials) && NewPartials(p, none.Keys, partials.Keys, p.entry) && p.entry in partials
    requires none == map[]
    ensures partials.Keys == p.Members()
    ensures forall k :: k in partials ==> partials[k] <= partials[p.entry]
    ensures InclusiveTime(p.f, p.entry) != 0.0 ==>
      Accepted(partials[p.entry], Times(p.share, InclusiveTime(p.f, p.entry)))
  {
    hide Reach, Component, Partial, InclusiveTime, ShortestRanks, Accepted, Times;
    assert UphillClosed(p, partials.Keys);
    AllVisited(p, partials.Keys);
  }

  lemma {:induction false} EntryInside(f: Flow, c: set<FunctionId>, e: FunctionId)
    requires OneComponent(f, c) && e in Entries(f.calls, c)
    ensures e in c && e in f.calls && c == Component(f.calls, e)
  {
  }

  lemma {:induction false} CycleReadable(b: Books, f: Flow, out: Event, inn: Event, c: set<FunctionId>)
    requires OneComponent(f, c) && CycleInputs(b, f, out, inn, c)
    ensures Readable(b, f, out, inn, c) && out != inn && out != CallRatio
  {
  }

  lemma {:induction false} VisitedAll(p: Pass, ratios: map<FunctionId, real>, visited: set<FunctionId>,
      edges: set<Edge>)
    requires p.Valid() && p.entry in visited && visited <= p.Members()
    requires forall m :: m in visited - {} ==> p.Uphill(m) <= visited
    requires edges == {} + UphillFrom(p, visited - {}) && Tallied(RatioOf(p), p.Members(), edges, ratios)
    ensures RatiosKnown(p, ratios)
  {
    hide UphillFrom, Tallied, RatiosKnown;
    assert visited - {} == visited && edges == UphillFrom(p, visited);
    RatiosFound(p, ratios, visited);
  }

  lemma {:induction false} PassEdges(p: Pass, edges: set<Edge>, ks: set<FunctionId>, none: map<FunctionId, real>)
    requires none == map[] && edges == {} + UphillFrom(p, ks - none.Keys)
    ensures edges == UphillFrom(p, ks)
  {
    hide UphillFrom;
    assert ks - none.Keys == ks;
  }

  lemma {:induction false} CycleBooksIs(s: Books, out: Event, c: set<FunctionId>, time: real, t: Books)
    requires t == s.(cycles := map w | w in s.cycles :: if w in c then s.cycles[w][out := time] else s.cycles[w])
    ensures t == CycleBooks(s, out, c, time) && t.calls == s.calls
  {
  }

  lemma {:induction false} EntriesInside(g: Graph, c: set<FunctionId>)
    ensures Entries(g, c) <= c
  {
  }

  lemma {:induction false} MemoisedCycle(f: Flow, base: Books, out: Event, inn: Event, done: set<FunctionId>,
      u: FunctionId)
    requires f.Valid() && Settling(f.calls, f, base, out, inn, done) && Clean(base, out, f.calls, u) && u in f.calls
    ensures OneComponent(f, Component(f.calls, u))
    ensures u in Settled(base, f, out, done).cycles ==> (out in Settled(base, f, out, done).cycles[u] <==> u in done)
    ensures u in Settled(base, f, out, done).cycles && u in done ==>
      Settled(base, f, out, done).cycles[u][out] == InclusiveTime(f, u)
  {
    hide Reach, InclusiveTime, SettledFunctions, SettledCalls;
    BelowSelf(f.calls, u);
    forall m | m in Component(f.calls, u)
      ensures Component(f.calls, m) == Component(f.calls, u)
    {
      ComponentShared(f.calls, u, m);
    }
  }
}
