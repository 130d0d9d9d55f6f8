/** The profile objects and the call-graph analysis that runs on them. */
module Profiles {
  import opened Graphs
  import opened TarjanInvariant
  import opened Ledger
  import opened Sums
  import opened Inclusive
  import opened CycleFlow
  import opened Settlement
  import opened Passes
  import opened Tallies
  import opened Ratios
  import opened Normalising
  import opened Ranking
  import opened Scaling
  import opened CallTimes
  import opened Deriving
  import opened Pruning
  import opened Callstacks
  import opened Totals

  /** A call between functions; `callerId` records in ghost state that it is owned by one caller. */
  class Call {
    const calleeId: FunctionId
    ghost const callerId: FunctionId
    var events: Events

    constructor (calleeId: FunctionId, ghost callerId: FunctionId)
      ensures this.calleeId == calleeId && this.callerId == callerId && events == map[]
    {
      this.calleeId, this.callerId, events := calleeId, callerId, map[];
    }
  }

  class Function {
    const id: FunctionId
    var events: Events
    var calls: map<FunctionId, Call>
    var cycle: Cycle?

    constructor (id: FunctionId)
      ensures this.id == id && events == map[] && calls == map[] && cycle == null
    {
      this.id, events, calls, cycle := id, map[], map[], null;
    }
  }

  class Cycle {
    var functions: set<Function>
    var events: Events

    constructor ()
      ensures functions == {} && events == map[]
    {
      functions, events := {}, map[];
    }

    /** Takes a function over from whatever cycle it was in.  The guard of the loop asks for the
        function itself, which has just been added, so nothing else is absorbed. */
    method AddFunction(f: Function)
      requires f !in functions
      modifies this`functions, f`cycle
      ensures functions == old(functions) + {f}
      ensures f.cycle == this
    {
      functions := functions + {f};
      if f.cycle != null {
        var others := f.cycle.functions;
        while others != {}
          decreases others
        {
          var other :| other in others;
          others := others - {other};
          if f !in functions {
            assert false;
          }
        }
      }
      f.cycle := this;
    }
  }

  /** Exactly the functions in `c` are labelled with the cycle. */
  ghost predicate CarriedBy(labels: map<FunctionId, Cycle?>, cycle: Cycle, c: set<FunctionId>) {
    forall u :: u in labels ==> (labels[u] == cycle <==> u in c)
  }

  class Profile {
    var functions: map<FunctionId, Function>
    var cycles: seq<Cycle>
    var events: Events

    // ----- shape -----

    /** Every function and call sits under its own id and every callee is defined. */
    ghost predicate Wired()
      reads this`functions, functions.Values`calls
    {
      forall u :: u in functions ==>
        && functions[u].id == u
        && forall v :: v in functions[u].calls ==>
          && v in functions
          && functions[u].calls[v].calleeId == v
          && functions[u].calls[v].callerId == u
    }

    /** Every function and call sits under its own id. */
    ghost predicate Keyed()
      reads this`functions, functions.Values`calls
    {
      forall u :: u in functions ==>
        && functions[u].id == u
        && forall v :: v in functions[u].calls ==>
          functions[u].calls[v].calleeId == v && functions[u].calls[v].callerId == u
    }

    /** The calls to defined functions. */
    ghost function Known(calls: map<FunctionId, Call>): map<FunctionId, Call>
      reads this`functions
    {
      map v | v in calls && v in functions :: calls[v]
    }

    /** Deletes the calls to undefined functions. */
    method Validate()
      requires Keyed()
      modifies functions.Values`calls
      ensures Wired()
      ensures forall u :: u in functions ==> functions[u].calls == Known(old(functions[u].calls))
    {
      hide Known, Keyed, Wired;
      var todo := functions.Keys;
      while todo != {}
        invariant todo <= functions.Keys && Keyed()
        invariant forall u :: u in functions && u in todo ==> functions[u].calls == old(functions[u].calls)
        invariant forall u :: u in functions && u !in todo ==> functions[u].calls == Known(old(functions[u].calls))
        decreases todo
      {
        var u :| u in todo;
        todo := todo - {u};
        KeyedAt(u);
        label before:
        ValidateCalls(functions[u]);
        StillKeyed@before(u);
      }
      AllKnown();
    }

    lemma {:induction false} KeyedAt(u: FunctionId)
      requires Keyed() && u in functions
      ensures forall v :: v in functions[u].calls ==> functions[u].calls[v].calleeId == v
      ensures forall w :: w in functions && w != u ==> functions[w] != functions[u]
    {
    }

    twostate lemma {:induction false} StillKeyed(u: FunctionId)
      requires old(Keyed()) && functions == old(functions) && u in functions
      requires functions[u].calls == Known(old(functions[u].calls))
      requires forall w :: w in functions && w != u ==> functions[w].calls == old(functions[w].calls)
      ensures Keyed()
    {
    }

    twostate lemma {:induction false} AllKnown()
      requires Keyed() && functions == old(functions) && forall u :: u in functions ==>
        functions[u].calls == Known(old(functions[u].calls))
      ensures Wired()
    {
    }

    method ValidateCalls(caller: Function)
      requires forall v :: v in caller.calls ==> caller.calls[v].calleeId == v
      modifies caller`calls
      ensures caller.calls == Known(old(caller.calls))
    {
      var callees := caller.calls.Keys;
      while callees != {}
        invariant callees <= caller.calls.Keys <= old(caller.calls).Keys
        invariant forall v :: v in old(caller.calls) && v !in callees ==> (v in caller.calls <==> v in functions)
        invariant forall v :: v in caller.calls ==> caller.calls[v] == old(caller.calls[v])
        decreases callees
      {
        var v :| v in callees;
        callees := callees - {v};
        assert caller.calls[v].calleeId == v;
        if v !in functions {
          caller.calls := caller.calls - {v};
        }
      }
    }

    ghost function CallGraph(): (g: Graph)
      reads this`functions, functions.Values`calls
      ensures g.Keys == functions.Keys
    {
      map u | u in functions :: functions[u].calls.Keys
    }

    lemma {:induction false} CallsOf(u: FunctionId)
      requires (Wired() || Analysed()) && u in functions
      ensures Closed(CallGraph()) && CallGraph()[u] == functions[u].calls.Keys && CallGraph()[u] <= functions.Keys
      ensures forall v :: v in CallGraph()[u] ==> functions[u].calls[v].calleeId == v
    {
    }

    ghost function CycleObjects(): set<Cycle>
      reads this`functions, functions.Values`cycle
    {
      set f | f in functions.Values && f.cycle != null :: f.cycle
    }

    ghost function Objects(ids: set<FunctionId>): set<Function>
      reads this`functions
    {
      set u | u in ids && u in functions :: functions[u]
    }

    ghost function CycleOf(): (m: map<FunctionId, Cycle?>)
      reads this`functions, functions.Values`cycle
      ensures m.Keys == functions.Keys
    {
      map u | u in functions :: functions[u].cycle
    }

    /** All cycle objects are new, that is, none of those known, and carry no events yet. */
    ghost predicate CyclesNew(known: set<Cycle>)
      reads this`functions, functions.Values`cycle, CycleObjects()`events
    {
      forall u :: u in functions && functions[u].cycle != null ==>
        functions[u].cycle.events == map[] && functions[u].cycle !in known
    }

    twostate lemma {:induction false} StillNew(new members: seq<FunctionId>, known: set<Cycle>, new cycle: Cycle)
      requires functions == old(functions) && cycle.events == map[] && cycle !in known
      requires forall c :: c in old(CycleObjects()) ==> c.events == old(c.events)
      requires forall u :: u in functions ==>
        functions[u].cycle == if u in members then cycle else old(functions[u].cycle)
      ensures old(CyclesNew(known)) ==> CyclesNew(known)
    {
      if old(CyclesNew(known)) {
        forall u | u in functions && functions[u].cycle != null
          ensures functions[u].cycle.events == map[] && functions[u].cycle !in known
        {
          if u !in members {
            assert old(functions[u].cycle) in old(CycleObjects());
          }
        }
      }
    }

    /** If `u` is in `done` and recurses with others, it carries a cycle object that holds exactly
        its component and is shared by all of it; otherwise it carries its label. */
    ghost predicate LabelledAt(labels: map<FunctionId, Cycle?>, done: set<FunctionId>, u: FunctionId)
      requires u in functions
      reads this`functions, functions.Values`calls, functions.Values`cycle, CycleObjects()`functions
    {
      if u in done && Recursive(CallGraph(), u) then
        && functions[u].cycle != null
        && functions[u].cycle.functions == Objects(Component(CallGraph(), u))
        && (forall w :: w in Component(CallGraph(), u) ==> w in functions && functions[w].cycle == functions[u].cycle)
      else
        u in labels && functions[u].cycle == labels[u]
    }

    ghost predicate Labelled(labels: map<FunctionId, Cycle?>, done: set<FunctionId>)
      reads this`functions, functions.Values`calls, functions.Values`cycle, CycleObjects()`functions
    {
      forall u :: u in functions ==> LabelledAt(labels, done, u)
    }

    lemma {:induction false} LabelledMore(labels: map<FunctionId, Cycle?>, done: set<FunctionId>, u: FunctionId)
      requires Labelled(labels, done) && u in CallGraph() && !Recursive(CallGraph(), u)
      ensures Labelled(labels, done + Component(CallGraph(), u))
    {
      forall w | w in functions
        ensures LabelledAt(labels, done + Component(CallGraph(), u), w)
      {
        assert LabelledAt(labels, done, w);
      }
    }

    lemma {:induction false} ObjectsMore(members: seq<FunctionId>, i: nat, more: seq<FunctionId>)
      requires Wired() && i < |members| && forall u :: u in members ==> u in functions
      requires (forall i, j :: 0 <= i < j < |members| ==> members[i] != members[j]) && more == members[..i + 1]
      ensures members[i] in functions && functions[members[i]] !in Objects(set u | u in members[..i])
      ensures Objects(set u | u in more) == Objects(set u | u in members[..i]) + {functions[members[i]]}
      ensures forall u :: u in functions && functions[u] == functions[members[i]] ==> u == members[i]
      ensures forall u :: u in more <==> u in members[..i] || u == members[i]
    {
      assert more == members[..i] + [members[i]];
      assert forall u :: u in functions ==> functions[u].id == u;
    }

    /** Gathers `members` in a new cycle object. */
    method MakeCycle(members: seq<FunctionId>) returns (cycle: Cycle)
      requires Wired() && forall u :: u in members ==> u in functions
      requires forall i, j :: 0 <= i < j < |members| ==> members[i] != members[j]
      modifies functions.Values`cycle
      ensures Wired() && CallGraph() == old(CallGraph())
      ensures fresh(cycle) && cycle.functions == Objects(set u | u in members) && cycle.events == map[]
      ensures forall u :: u in functions ==>
        functions[u].cycle == if u in members then cycle else old(functions[u].cycle)
    {
      hide Wired, CallGraph, Objects;
      cycle := new Cycle();
      NoObjects();
      var i := 0;
      while i < |members|
        invariant 0 <= i <= |members|
        invariant cycle.functions == Objects(set u | u in members[..i]) && cycle.events == map[]
        invariant forall u :: u in functions ==>
          functions[u].cycle == if u in members[..i] then cycle else old(functions[u].cycle)
      {
        ObjectsMore(members, i, members[..i + 1]);
        cycle.AddFunction(functions[members[i]]);
        i := i + 1;
      }
      assert members[..i] == members;
    }

    lemma {:induction false} NoObjects()
      ensures Objects(set u | u in []) == {}
    {
    }

    /** A new cycle object for the component of `u` completes the labels of that component. */
    twostate lemma {:induction false} LabelledComponent(labels: map<FunctionId, Cycle?>, new done: set<FunctionId>,
        new u: FunctionId, new cycle: Cycle)
      requires functions == old(functions) && CallGraph() == old(CallGraph()) && u in functions
      requires old(Labelled(labels, done)) && Component(CallGraph(), u) !! done && Recursive(CallGraph(), u)
      requires forall c :: c in old(CycleObjects()) ==> c.functions == old(c.functions)
      requires cycle.functions == Objects(Component(CallGraph(), u))
      requires forall w :: w in functions ==>
        functions[w].cycle == if w in Component(CallGraph(), u) then cycle else old(functions[w].cycle)
      ensures Labelled(labels, done + Component(CallGraph(), u))
    {
      hide Reach;
      var g := CallGraph();
      forall w | w in functions
        ensures LabelledAt(labels, done + Component(g, u), w)
      {
        if w in Component(g, u) {
          ComponentShared(g, u, w);
        } else {
          assert old(LabelledAt(labels, done, w));
          if w in done && Recursive(g, w) {
            InOwnComponent(g, w);
            ComponentsDisjoint(g, w, u);
            assert functions[w].cycle in old(CycleObjects());
          }
        }
      }
    }

    /** Gives the members of the component of `u` a cycle object of their own. */
    method LabelComponent(members: seq<FunctionId>, ghost labels: map<FunctionId, Cycle?>, ghost known: set<Cycle>,
        ghost done: set<FunctionId>, ghost u: FunctionId)
      requires Wired() && u in functions && (set w | w in members) == Component(CallGraph(), u)
      requires forall i, j :: 0 <= i < j < |members| ==> members[i] != members[j]
      requires Labelled(labels, done)
      requires Component(CallGraph(), u) !! done && Recursive(CallGraph(), u)
      modifies functions.Values`cycle
      ensures Wired() && CallGraph() == old(CallGraph())
      ensures Labelled(labels, done + Component(CallGraph(), u))
      ensures old(CyclesNew(known)) ==> CyclesNew(known)
    {
      hide Reach, Labelled, CyclesNew;
      assert forall w :: w in members ==> w in Component(CallGraph(), u);
      var cycle := MakeCycle(members);
      LabelledComponent(labels, done, u, cycle);
      StillNew(members, known, cycle);
    }

    /** Explores `f` and everything newly discovered below it; `grays` are the open calls.  The
        stack and the dictionaries that the recursive calls share are threaded through as `s`. */
    method Tarjan(f: FunctionId, order: nat, s0: State, ghost grays: set<FunctionId>,
        ghost labels: map<FunctionId, Cycle?>, ghost known: set<Cycle>)
      returns (order': nat, s: State)
      requires Wired() && f in functions && f !in s0.orders
      requires Ready(CallGraph(), s0, grays, order)
      requires forall u :: u in grays ==> Reach(CallGraph(), u, f)
      requires Labelled(labels, Done(s0.orders, s0.stack))
      modifies functions.Values`cycle
      ensures Wired() && CallGraph() == old(CallGraph())
      ensures order < order' && Explored(CallGraph(), s0, s, f, grays, order, order')
      ensures Labelled(labels, Done(s.orders, s.stack))
      ensures old(CyclesNew(known)) ==> CyclesNew(known)
      decreases functions.Keys - s0.orders.Keys
    {
      hide CyclesNew, Exploring, Explored, Ready, Labelled, Reach, Component, Done, Wired, CallGraph;
      ghost var g := CallGraph();
      CallsOf(f);
      GraysStacked(g, s0, grays, order);
      Enter(g, s0, f, grays, order);
      s := State(s0.stack + [f], s0.orders[f := order], s0.lowlinks[f := order], s0.visited + {f});
      order' := order + 1;
      var pos := |s0.stack|;
      var todo := functions[f].calls.Keys;
      assert g[f] - todo == {};
      while todo != {}
        invariant todo <= g[f] && Wired() && CallGraph() == g
        invariant order < order' && Exploring(g, s0, s, f, grays, order, order', g[f] - todo)
        invariant Labelled(labels, Done(s.orders, s.stack)) && (old(CyclesNew(known)) ==> CyclesNew(known))
        decreases todo
      {
        ghost var tried := g[f] - todo;
        ExploringKeys(g, s0, s, f, grays, order, order', tried);
        var callee: FunctionId :| callee in todo;
        todo := todo - {callee};
        ReachCall(g, f, callee);
        if callee !in s.orders {
          ReachedFromGrays(g, grays, f, callee);
          ghost var before, order0 := s, order';
          order', s := Tarjan(callee, order', s, grays + {f}, labels, known);
          AfterCall(g, s0, before, s, f, callee, grays, order, order0, order', tried);
          s := s.(lowlinks := s.lowlinks[f := Min(s.lowlinks[f], s.lowlinks[callee])]);
        } else if callee in s.stack {
          AfterStacked(g, s0, s, f, callee, grays, order, order', tried);
          s := s.(lowlinks := s.lowlinks[f := Min(s.lowlinks[f], s.orders[callee])]);
        } else {
          AfterDone(g, s0, s, f, callee, grays, order, order', tried);
        }
        assert g[f] - todo == tried + {callee};
      }
      assert g[f] - todo == g[f];
      s := CompleteComponent(f, pos, s, s0, grays, order, order', labels, known);
    }

    /** The end of the search for `f`: if its low link is its own number, everything stacked since is
        one strongly connected component, which is popped and, if it has several members, labelled. */
    method CompleteComponent(f: FunctionId, pos: nat, s: State, ghost s0: State, ghost grays: set<FunctionId>,
        ghost order: nat, ghost order': nat, ghost labels: map<FunctionId, Cycle?>, ghost known: set<Cycle>)
      returns (s': State)
      requires Wired() && f in functions && pos == |s0.stack|
      requires Exploring(CallGraph(), s0, s, f, grays, order, order', CallGraph()[f])
      requires forall u :: u in grays ==> u in s0.stack
      requires Labelled(labels, Done(s.orders, s.stack))
      modifies functions.Values`cycle
      ensures Wired() && CallGraph() == old(CallGraph())
      ensures Explored(CallGraph(), s0, s', f, grays, order, order')
      ensures Labelled(labels, Done(s'.orders, s'.stack))
      ensures old(CyclesNew(known)) ==> CyclesNew(known)
    {
      hide CyclesNew, Exploring, Explored, Ready, Labelled, Reach, Component, Done, Wired, CallGraph;
      ghost var g := CallGraph();
      ExploringKeys(g, s0, s, f, grays, order, order', g[f]);
      Finish(g, s0, s, f, grays, order, order');
      s' := s;
      if s.lowlinks[f] == s.orders[f] {
        var members := s.stack[pos..];
        assert members[0] == f && s.stack[..pos] == s0.stack;
        if |members| > 1 {
          assert members[1] in Component(g, f) && members[1] != f;
          LabelComponent(members, labels, known, Done(s.orders, s.stack), f);
        } else {
          assert members == [f];
          LabelledMore(labels, Done(s.orders, s.stack), f);
        }
        s' := s.(stack := s.stack[..pos]);
      }
    }

    /** The labels of a later run take precedence; those of an earlier run stay where it did not go. */
    twostate lemma {:induction false} LabelledTwice(labels: map<FunctionId, Cycle?>, new visited: set<FunctionId>,
        new explored: set<FunctionId>)
      requires functions == old(functions) && CallGraph() == old(CallGraph()) && Closed(CallGraph())
      requires old(Labelled(labels, visited)) && Labelled(old(CycleOf()), explored)
      requires ClosedUnder(CallGraph(), explored)
      requires forall c :: c in old(CycleObjects()) ==> c.functions == old(c.functions)
      ensures Labelled(labels, visited + explored)
    {
      var g := CallGraph();
      forall u | u in functions
        ensures LabelledAt(labels, visited + explored, u)
      {
        assert old(LabelledAt(labels, visited, u)) && LabelledAt(old(CycleOf()), explored, u);
        if u !in explored && u in visited && Recursive(g, u) {
          assert functions[u].cycle in old(CycleObjects());
          forall w | w in Component(g, u)
            ensures w in functions && functions[w].cycle == functions[u].cycle
          {
            if w in explored {
              ReachStaysIn(g, explored, w, u);
            }
            assert LabelledAt(old(CycleOf()), explored, w);
          }
        }
      }
    }

    /** One run, from a function that has not been visited. */
    method FindFrom(f: FunctionId, visited: set<FunctionId>, ghost labels: map<FunctionId, Cycle?>,
        ghost known: set<Cycle>)
      returns (visited': set<FunctionId>)
      requires Wired() && f in functions && f !in visited && visited <= functions.Keys && Labelled(labels, visited)
      modifies functions.Values`cycle
      ensures Wired() && CallGraph() == old(CallGraph())
      ensures visited + {f} <= visited' <= functions.Keys && Labelled(labels, visited')
      ensures old(CyclesNew(known)) ==> CyclesNew(known)
    {
      hide CyclesNew, Explored, Ready, Labelled, Done, Wired, CallGraph, ClosedUnder;
      ghost var g, labels1 := CallGraph(), CycleOf();
      WiredClosed();
      FreshReady(g, visited);
      NothingLabelled();
      var order, s := Tarjan(f, 0, State([], map[], map[], visited), {}, labels1, known);
      RunComplete(g, visited, s, f, order);
      LabelledTwice(labels, visited, Done(s.orders, s.stack));
      visited' := s.visited;
    }

    /** Every function that recurses with others carries a cycle object holding exactly its strongly
        connected component, shared by all of it; every other function keeps what it carried. */
    method FindCycles(ghost known: set<Cycle>)
      requires Wired()
      modifies this`cycles, functions.Values`cycle
      ensures Wired() && CallGraph() == old(CallGraph())
      ensures Labelled(old(CycleOf()), functions.Keys)
      ensures CyclesListed()
      ensures old(CyclesNew(known)) ==> CyclesNew(known)
    {
      hide CyclesNew, Labelled, Wired, CallGraph;
      ghost var g, labels := CallGraph(), CycleOf();
      var visited: set<FunctionId> := {};
      NothingLabelled();
      var todo := functions.Keys;
      while todo != {}
        invariant todo <= functions.Keys && Wired() && CallGraph() == g
        invariant functions.Keys - todo <= visited <= functions.Keys
        invariant Labelled(labels, visited) && (old(CyclesNew(known)) ==> CyclesNew(known))
        decreases todo
      {
        var f :| f in todo;
        todo := todo - {f};
        if f !in visited {
          visited := FindFrom(f, visited, labels, known);
        }
      }
      assert visited == functions.Keys;
      ListCycles();
    }

    lemma {:induction false} WiredClosed()
      requires Wired()
      ensures Closed(CallGraph())
    {
    }

    lemma {:induction false} NothingLabelled()
      ensures Labelled(CycleOf(), {})
    {
    }

    /** The list holds every cycle object in use exactly once. */
    ghost predicate CyclesListed()
      reads this`functions, this`cycles, functions.Values`cycle
    {
      && (forall i, j :: 0 <= i < j < |cycles| ==> cycles[i] != cycles[j])
      && (set c | c in cycles) == CycleObjects()
    }

    method ListCycles()
      modifies this`cycles
      ensures CyclesListed()
    {
      var found: seq<Cycle> := [];
      var todo := functions.Keys;
      while todo != {}
        invariant todo <= functions.Keys
        invariant forall i, j :: 0 <= i < j < |found| ==> found[i] != found[j]
        invariant forall c :: c in found ==> exists u :: u in functions.Keys - todo && functions[u].cycle == c
        invariant forall u :: u in functions.Keys - todo && functions[u].cycle != null ==> functions[u].cycle in found
        decreases todo
      {
        var f :| f in todo;
        todo := todo - {f};
        if functions[f].cycle != null && functions[f].cycle !in found {
          found := found + [functions[f].cycle];
        }
      }
      cycles := found;
    }

    // ----- the events stored in the objects -----

    ghost function CallObjects(): set<Call>
      reads this`functions, functions.Values`calls
    {
      set u, v | u in functions && v in functions[u].calls :: functions[u].calls[v]
    }

    ghost function FunctionEvents(): (m: map<FunctionId, Events>)
      reads this`functions, functions.Values`events
      ensures m.Keys == functions.Keys
    {
      map u | u in functions :: functions[u].events
    }

    ghost function CallEvents(): map<(FunctionId, FunctionId), Events>
      reads this`functions, functions.Values`calls, CallObjects()`events
    {
      map u, v | u in functions && v in functions[u].calls :: (u, v) := functions[u].calls[v].events
    }

    /** The events of the cycles, under the ids of their members. */
    ghost function CycleEvents(): map<FunctionId, Events>
      reads this`functions, functions.Values`cycle, CycleObjects()`events
    {
      map u | u in functions && functions[u].cycle != null :: functions[u].cycle.events
    }

    ghost function Snapshot(): Books
      reads this`functions, functions.Values`calls, functions.Values`cycle, functions.Values`events,
          CallObjects()`events, CycleObjects()`events
    {
      Books(FunctionEvents(), CallEvents(), CycleEvents())
    }

    ghost function NoLabels(): map<FunctionId, Cycle?>
      reads this`functions
    {
      map u | u in functions :: null
    }

    /** The profile is well wired and its cycles are those that `FindCycles` leaves in a profile
        that had none. */
    ghost predicate Analysed()
      reads this`functions, this`cycles, functions.Values`calls, functions.Values`cycle, CycleObjects()`functions
    {
      Wired() && Labelled(NoLabels(), functions.Keys) && CyclesListed()
    }

    /** Nothing but events has changed. */
    twostate predicate SameShape()
      reads this`functions, this`cycles, functions.Values`calls, functions.Values`cycle, CycleObjects()`functions
    {
      && functions == old(functions) && cycles == old(cycles) && Analysed()
      && CallGraph() == old(CallGraph()) && CycleOf() == old(CycleOf())
      && CallObjects() == old(CallObjects()) && CycleObjects() == old(CycleObjects())
    }

    twostate lemma {:induction false} EventsOnly()
      requires old(Analysed()) && functions == old(functions) && cycles == old(cycles)
      requires forall u :: u in functions ==>
        functions[u].calls == old(functions[u].calls) && functions[u].cycle == old(functions[u].cycle)
      requires forall u :: u in functions && functions[u].cycle != null ==>
        functions[u].cycle.functions == old(functions[u].cycle.functions)
      ensures SameShape()
    {
      hide Reach;
      assert CallGraph() == old(CallGraph()) && CycleOf() == old(CycleOf()) && CycleObjects() == old(CycleObjects());
      forall u | u in functions
        ensures LabelledAt(NoLabels(), functions.Keys, u)
      {
        assert old(LabelledAt(NoLabels(), functions.Keys, u));
      }
      assert Labelled(NoLabels(), functions.Keys);
    }

    twostate predicate SameLinks()
      reads this`functions, this`cycles, functions.Values`calls, functions.Values`cycle, CycleObjects()`functions
    {
      && functions == old(functions) && cycles == old(cycles)
      && (forall u :: u in functions ==>
        functions[u].calls == old(functions[u].calls) && functions[u].cycle == old(functions[u].cycle))
      && (forall u :: u in functions && functions[u].cycle != null ==>
        functions[u].cycle.functions == old(functions[u].cycle.functions))
    }

    twostate predicate SameFunctionEvents()
      reads this`functions, functions.Values`events
    {
      functions == old(functions) && forall u :: u in functions ==> functions[u].events == old(functions[u].events)
    }

    twostate predicate SameCallEvents()
      reads this`functions, functions.Values`calls, CallObjects()`events
    {
      && functions == old(functions)
      && forall u, v :: u in functions && v in functions[u].calls ==>
        v in old(functions[u].calls) && functions[u].calls[v].events == old(functions[u].calls[v].events)
    }

    twostate predicate SameCycleEvents()
      reads this`functions, functions.Values`cycle, CycleObjects()`events
    {
      && functions == old(functions)
      && forall u :: u in functions && functions[u].cycle != null ==>
        old(functions[u].cycle) != null && functions[u].cycle.events == old(functions[u].cycle.events)
    }

    twostate lemma {:induction false} SameEvents()
      requires SameLinks()
      ensures SameFunctionEvents() ==> FunctionEvents() == old(FunctionEvents())
      ensures SameCallEvents() ==> CallEvents() == old(CallEvents())
      ensures SameCycleEvents() ==> CycleEvents() == old(CycleEvents())
    {
    }

    /** Sets an event of one function, in a profile whose cycles need not be known. */
    method PutFunction(u: FunctionId, event: Event, value: real)
      requires Keyed() && u in functions
      modifies functions.Values`events
      ensures u in old(FunctionEvents())
      ensures FunctionEvents() == old(FunctionEvents())[u := old(FunctionEvents())[u][event := value]]
      ensures CallEvents() == old(CallEvents())
    {
      hide CallEvents;
      DistinctFunctions(u);
      functions[u].events := functions[u].events[event := value];
      assert SameLinks() && SameCallEvents();
      SameEvents();
      assert FunctionEvents() == old(FunctionEvents())[u := old(FunctionEvents())[u][event := value]];
    }

    method SetFunction(u: FunctionId, event: Event, value: real)
      requires Analysed() && u in functions
      modifies functions.Values`events
      ensures SameShape()
      ensures u in old(Snapshot()).functions
      ensures Snapshot() ==
        old(Snapshot()).(functions := old(Snapshot()).functions[u := old(Snapshot()).functions[u][event := value]])
    {
      hide Analysed, Keyed, Wired, Labelled, Reach, SameShape, FunctionEvents, CallEvents, CycleEvents, CallObjects,
        CycleObjects;
      AnalysedWired();
      PutFunction(u, event, value);
      assert CycleEvents() == old(CycleEvents()) by {
        assert SameLinks() && SameCycleEvents();
        SameEvents();
      }
      assert SameShape() by {
        EventsOnly();
      }
    }

    lemma {:induction false} DistinctFunctions(u: FunctionId)
      requires Keyed() && u in functions
      ensures forall w :: w in functions && w != u ==> functions[w] != functions[u]
    {
    }

    /** Sets an event of one call, in a profile whose cycles need not be known. */
    method PutCall(u: FunctionId, v: FunctionId, event: Event, value: real)
      requires Keyed() && u in functions && v in functions[u].calls
      modifies CallObjects()`events
      ensures (u, v) in old(CallEvents())
      ensures CallEvents() == old(CallEvents())[(u, v) := old(CallEvents())[(u, v)][event := value]]
      ensures FunctionEvents() == old(FunctionEvents())
    {
      hide FunctionEvents;
      DistinctCalls(u, v);
      var call := functions[u].calls[v];
      call.events := call.events[event := value];
      assert SameLinks() && SameFunctionEvents();
      SameEvents();
      OneCall(u, v, event, value);
    }

    method SetCall(u: FunctionId, v: FunctionId, event: Event, value: real)
      requires Analysed() && u in functions && v in functions[u].calls
      modifies CallObjects()`events
      ensures SameShape()
      ensures (u, v) in old(Snapshot()).calls
      ensures Snapshot() ==
        old(Snapshot()).(calls := old(Snapshot()).calls[(u, v) := old(Snapshot()).calls[(u, v)][event := value]])
    {
      hide Analysed, Keyed, Wired, Labelled, Reach, SameShape, FunctionEvents, CallEvents, CycleEvents, CallObjects,
        CycleObjects;
      AnalysedWired();
      PutCall(u, v, event, value);
      assert CycleEvents() == old(CycleEvents()) by {
        assert SameLinks() && SameCycleEvents();
        SameEvents();
      }
      assert SameShape() by {
        EventsOnly();
      }
    }

    twostate lemma {:induction false} OneCall(u: FunctionId, new v: FunctionId, new event: Event, new value: real)
      requires SameLinks() && u in functions && v in functions[u].calls
      requires functions[u].calls[v].events == old(functions[u].calls[v].events)[event := value]
      requires forall w, x :: w in functions && x in functions[w].calls && (w, x) != (u, v) ==>
        functions[w].calls[x].events == old(functions[w].calls[x].events)
      ensures (u, v) in old(CallEvents())
      ensures CallEvents() == old(CallEvents())[(u, v) := old(CallEvents())[(u, v)][event := value]]
    {
    }

    lemma {:induction false} DistinctCalls(u: FunctionId, v: FunctionId)
      requires Keyed() && u in functions && v in functions[u].calls
      ensures forall w, x :: w in functions && x in functions[w].calls && (w, x) != (u, v) ==>
        functions[w].calls[x] != functions[u].calls[v]
    {
    }

    method SetCycle(u: FunctionId, event: Event, value: real)
      requires Analysed() && u in functions && functions[u].cycle != null
      modifies CycleObjects()`events
      ensures SameShape()
      ensures Snapshot() == old(Snapshot()).(cycles := map w | w in old(Snapshot()).cycles ::
        if w in Component(CallGraph(), u) then old(Snapshot()).cycles[w][event := value] else old(Snapshot()).cycles[w])
    {
      hide Analysed, Labelled, Reach, SameShape, FunctionEvents, CallEvents, CycleEvents, Component, CallGraph;
      SharedCycles(u);
      var cycle := functions[u].cycle;
      cycle.events := cycle.events[event := value];
      assert SameLinks() && SameFunctionEvents() && SameCallEvents();
      EventsOnly();
      SameEvents();
      OneCycle(u, Component(CallGraph(), u), event, value);
    }

    twostate lemma {:induction false} OneCycle(u: FunctionId, new component: set<FunctionId>, new event: Event,
        new value: real)
      requires SameLinks() && u in functions && functions[u].cycle != null
      requires forall w :: w in functions ==> (functions[w].cycle == functions[u].cycle <==> w in component)
      requires functions[u].cycle.events == old(functions[u].cycle.events)[event := value]
      requires forall w :: w in functions && functions[w].cycle != null && functions[w].cycle != functions[u].cycle ==>
        functions[w].cycle.events == old(functions[w].cycle.events)
      ensures CycleEvents() == map w | w in old(CycleEvents()) ::
        if w in component then old(CycleEvents())[w][event := value] else old(CycleEvents())[w]
    {
    }

    /** The functions in `c` and no others carry the cycle object. */
    ghost predicate Carried(cycle: Cycle, c: set<FunctionId>)
      reads this`functions, functions.Values`cycle
    {
      CarriedBy(CycleOf(), cycle, c)
    }

    lemma {:induction false} CarriedByAll(u: FunctionId)
      requires Analysed() && u in functions && functions[u].cycle != null
      ensures Carried(functions[u].cycle, Component(CallGraph(), u))
    {
      hide Analysed;
      SharedCycles(u);
    }

    lemma {:induction false} CarriedAt(cycle: Cycle, c: set<FunctionId>, u: FunctionId)
      requires Carried(cycle, c) && u in functions
      ensures functions[u].cycle == cycle <==> u in c
    {
    }

    /** The cycle object of `u` is carried by the members of its component and by nobody else. */
    lemma {:induction false} SharedCycles(u: FunctionId)
      requires Analysed() && u in functions && functions[u].cycle != null
      ensures forall w :: w in functions ==>
        (functions[w].cycle == functions[u].cycle <==> w in Component(CallGraph(), u))
    {
      hide Reach;
      assert LabelledAt(NoLabels(), functions.Keys, u);
      forall w | w in functions && functions[w].cycle == functions[u].cycle
        ensures w in Component(CallGraph(), u)
      {
        assert LabelledAt(NoLabels(), functions.Keys, w);
        InOwnComponent(CallGraph(), w);
        assert functions[w] in Objects(Component(CallGraph(), u));
      }
    }

    /** Two functions carry the same cycle object exactly when each reaches the other by calls. */
    lemma {:induction false} CyclesAreComponents(u: FunctionId, v: FunctionId)
      requires Analysed() && u in functions && v in functions && u != v
      ensures functions[u].cycle != null && functions[u].cycle == functions[v].cycle <==>
        Reach(CallGraph(), u, v) && Reach(CallGraph(), v, u)
    {
      hide Reach, LabelledAt;
      CycleIffRecursive(u);
      if functions[u].cycle != null {
        SharedCycles(u);
      } else {
        assert Component(CallGraph(), u) == {u} && v !in Component(CallGraph(), u);
      }
    }

    /** A function without a cycle object is alone in its component, whether it calls itself or not. */
    lemma {:induction false} LoneFunctions(u: FunctionId)
      requires Analysed() && u in functions
      ensures functions[u].cycle == null <==>
        forall v :: v in functions && Reach(CallGraph(), u, v) && Reach(CallGraph(), v, u) ==> v == u
    {
      hide Reach, LabelledAt;
      CycleIffRecursive(u);
      InOwnComponent(CallGraph(), u);
      forall v | v in functions && Reach(CallGraph(), u, v) && Reach(CallGraph(), v, u)
        ensures v in Component(CallGraph(), u)
      {
      }
      assert Component(CallGraph(), u) != {u} ==> exists v :: v in Component(CallGraph(), u) && v != u;
    }

    /** The list of cycles holds each component of several functions once, as the set of its members. */
    lemma {:induction false} CyclesAreListed(u: FunctionId)
      requires Analysed() && u in functions && Component(CallGraph(), u) != {u}
      ensures exists i ::
        && 0 <= i < |cycles| && cycles[i] == functions[u].cycle
        && cycles[i].functions == Objects(Component(CallGraph(), u))
      ensures forall i, j :: 0 <= i < |cycles| && 0 <= j < |cycles| && cycles[i].functions == cycles[j].functions ==>
        i == j
    {
      hide Reach;
      assert LabelledAt(NoLabels(), functions.Keys, u);
      assert functions[u].cycle in CycleObjects();
      assert functions[u].cycle in (set c | c in cycles);
      forall i, j | 0 <= i < |cycles| && 0 <= j < |cycles| && cycles[i].functions == cycles[j].functions
        ensures i == j
      {
        MembersDetermineCycle(cycles[i], cycles[j]);
      }
    }

    lemma {:induction false} MembersDetermineCycle(c: Cycle, d: Cycle)
      requires Analysed() && c in cycles && d in cycles && c.functions == d.functions
      ensures c == d
    {
      hide Reach;
      assert c in (set x | x in cycles) && d in (set x | x in cycles);
      assert c in CycleObjects() && d in CycleObjects();
      var u :| u in functions && functions[u].cycle == c;
      var v :| v in functions && functions[v].cycle == d;
      CycleIffRecursive(u);
      CycleIffRecursive(v);
      assert LabelledAt(NoLabels(), functions.Keys, u) && LabelledAt(NoLabels(), functions.Keys, v);
      InOwnComponent(CallGraph(), u);
      assert functions[u] in Objects(Component(CallGraph(), v));
      SharedCycles(v);
    }

    // ----- call ratios -----

    ghost predicate CycleTotals(k: Counts, edges: set<Edge>, totals: map<Cycle, real>)
      reads this`functions, functions.Values`cycle
    {
      forall u :: u in functions && functions[u].cycle != null ==>
        functions[u].cycle in totals && totals[functions[u].cycle] == EntryTotal(k, edges, Component(k.calls, u))
    }

    /** Divides every callee's time among its callers by the counts under `event`: calls from outside
        into a cycle by the total of such calls, all others by the total of their callee. */
    method CallRatios(event: Event)
      requires Analysed() && event != CallRatio
      requires forall e :: e in CallEvents() ==>
        CallRatio !in CallEvents()[e] && (e.0 != e.1 ==> event in CallEvents()[e])
      modifies CallObjects()`events
      ensures SameShape()
      ensures Snapshot() ==
        RatedBooks(old(Snapshot()), CountsIn(CallGraph(), old(Snapshot()), event),
            CallsFrom(CallGraph(), functions.Keys))
    {
      hide Analysed, Snapshot, Wired, CallGraph, CycleOf, CallObjects, CycleObjects, Reach, Component, CountsIn,
        CallsFrom, FunctionTotal, CrossTotal, RatedBooks, CallEvents;
      ghost var b, k := Snapshot(), CountsIn(CallGraph(), Snapshot(), event);
      CountsGraph(CallGraph(), b, event);
      CallsUnrated(event);
      var functionTotals, cycleTotals := TotalCalls(event);
      CallsFromNone(k.calls);
      RatedNone(b, k);
      var todo := functions.Keys;
      ghost var seen: set<FunctionId> := {};
      while todo != {}
        invariant SameShape() && todo <= functions.Keys && seen == functions.Keys - todo
        invariant Snapshot() == RatedBooks(b, k, CallsFrom(k.calls, seen))
        decreases todo
      {
        var u :| u in todo;
        SeenMore(functions.Keys, todo, u);
        todo := todo - {u};
        CallsFromMore(k.calls, seen, u);
        RateCallsOf(u, event, functionTotals, cycleTotals, k, b, CallsFrom(k.calls, seen));
        seen := seen + {u};
      }
      assert seen == functions.Keys;
    }

    lemma {:induction false} CallsUnrated(event: Event)
      requires Analysed()
      requires forall e :: e in CallEvents() ==>
        CallRatio !in CallEvents()[e] && (e.0 != e.1 ==> event in CallEvents()[e])
      ensures CountsReady(CallGraph(), Snapshot(), event)
    {
    }

    /** The totals that the counts are divided by. */
    ghost predicate TotalsKnown(k: Counts, functionTotals: map<FunctionId, real>, cycleTotals: map<Cycle, real>)
      reads this`functions, functions.Values`cycle
    {
      && (forall v :: v in functions ==> v in functionTotals && functionTotals[v] == FunctionTotal(k, v))
      && (forall v :: v in functions && functions[v].cycle != null ==>
        functions[v].cycle in cycleTotals && cycleTotals[functions[v].cycle] == CrossTotal(k, Component(k.calls, v)))
    }

    method RateCallsOf(u: FunctionId, event: Event, functionTotals: map<FunctionId, real>,
        cycleTotals: map<Cycle, real>, ghost k: Counts, ghost b: Books, ghost edges: set<Edge>)
      requires Analysed() && u in functions && event != CallRatio
      requires k == CountsIn(CallGraph(), b, event) && k.calls == CallGraph() && CountsReady(k.calls, b, event)
      requires TotalsKnown(k, functionTotals, cycleTotals)
      requires Snapshot() == RatedBooks(b, k, edges) && forall v :: (u, v) !in edges
      modifies CallObjects()`events
      ensures SameShape() && TotalsKnown(k, functionTotals, cycleTotals)
      ensures Snapshot() == RatedBooks(b, k, edges + CallsTo(u, k.calls[u]))
    {
      hide Analysed, Snapshot, Wired, CallGraph, CycleOf, CallObjects, CycleObjects, CountsIn, RatedBooks, CallsTo,
        CountsReady, TotalsKnown;
      CallsOf(u);
      CallsToMore(u, {}, u);
      assert edges + CallsTo(u, {}) == edges;
      var todo := functions[u].calls.Keys;
      ghost var seen: set<FunctionId> := {};
      while todo != {}
        invariant SameShape() && todo <= k.calls[u] && seen == k.calls[u] - todo
        invariant Snapshot() == RatedBooks(b, k, edges + CallsTo(u, seen))
        invariant TotalsKnown(k, functionTotals, cycleTotals)
        decreases todo
      {
        var v :| v in todo;
        SeenMore(k.calls[u], todo, v);
        todo := todo - {v};
        CallsToMore(u, seen, v);
        ghost var edges0 := edges + CallsTo(u, seen);
        ghost var edges1 := edges + CallsTo(u, seen + {v});
        assert edges1 == edges0 + {(u, v)};
        RateCall(u, v, event, functionTotals, cycleTotals, k, b, edges0, edges1);
        seen := seen + {v};
      }
      assert seen == k.calls[u];
    }

    /** One call gets its ratio, unless it is a self call. */
    method RateCall(u: FunctionId, v: FunctionId, event: Event, functionTotals: map<FunctionId, real>,
        cycleTotals: map<Cycle, real>, ghost k: Counts, ghost b: Books, ghost edges: set<Edge>, ghost edges': set<Edge>)
      requires Analysed() && u in functions && event != CallRatio
      requires k == CountsIn(CallGraph(), b, event) && k.calls == CallGraph() && CountsReady(k.calls, b, event)
      requires v in k.calls[u]
      requires TotalsKnown(k, functionTotals, cycleTotals)
      requires Snapshot() == RatedBooks(b, k, edges) && (u, v) !in edges && edges' == edges + {(u, v)}
      modifies CallObjects()`events
      ensures SameShape() && TotalsKnown(k, functionTotals, cycleTotals)
      ensures Snapshot() == RatedBooks(b, k, edges')
    {
      hide Analysed, Snapshot, Wired, CallGraph, CycleOf, CallObjects, CycleObjects, Reach, Component, CountsIn,
        FunctionTotal, CrossTotal, RatedBooks, CallsTo, RatioTotal, CallRatioOf, Ratio, CallCount, CountsReady;
      CallsOf(u);
      AnalysedWired();
      SnapshotReads(u);
      RatedReads(b, k, edges, event, u, v);
      assert CallRatio !in functions[u].calls[v].events;
      if v != u {
        RatioTotalIs(u, v, k);
        var total := if functions[v].cycle != null && functions[v].cycle != functions[u].cycle
          then cycleTotals[functions[v].cycle]
          else functionTotals[v];
        var ratio := Ratio(functions[u].calls[v].events[event], total);
        assert ratio == CallRatioOf(k, u, v);
        ghost var before := Snapshot();
        SetCall(u, v, CallRatio, ratio);
        RatedMore(b, k, edges, edges', u, v, ratio, before, Snapshot());
      } else {
        RatedSelf(b, k, edges, edges', u);
      }
    }

    lemma {:induction false} RatioTotalIs(u: FunctionId, v: FunctionId, k: Counts)
      requires Analysed() && k.calls == CallGraph() && u in functions && v in k.calls[u]
      ensures v in functions
      ensures RatioTotal(k, u, v) == if functions[v].cycle != null &&
        functions[v].cycle != functions[u].cycle then CrossTotal(k, Component(k.calls, v)) else FunctionTotal(k, v)
      ensures CallRatioOf(k, u, v) == Ratio(CallCount(k, u, v), RatioTotal(k, u, v))
    {
      hide Reach, FunctionTotal, CrossTotal, Ratio;
      CallsOf(u);
      CycleIffRecursive(v);
      if functions[v].cycle != null {
        SharedCycles(v);
        SameComponent(k.calls, u, v);
      }
    }

    /** The first half of `CallRatios`: the totals of the incoming calls. */
    method TotalCalls(event: Event) returns (functionTotals: map<FunctionId, real>, cycleTotals: map<Cycle, real>)
      requires Analysed() && event != CallRatio
      requires forall e :: e in CallEvents() && e.0 != e.1 ==> event in CallEvents()[e]
      ensures Untouched()
      ensures functionTotals.Keys == functions.Keys
      ensures forall v :: v in functions ==>
        functionTotals[v] == FunctionTotal(CountsIn(CallGraph(), Snapshot(), event), v)
      ensures forall v :: v in functions && functions[v].cycle != null ==>
        functions[v].cycle in cycleTotals &&
          cycleTotals[functions[v].cycle] ==
            CrossTotal(CountsIn(CallGraph(), Snapshot(), event), Component(CallGraph(), v))
    {
      hide Analysed, Snapshot, Wired, CallGraph, CycleOf, CallObjects, CycleObjects, Reach, SumOf, Component, CountsIn,
        FunctionTotals, CycleTotals, CallsFrom, EntryTotal, FunctionTotal, CrossTotal;
      ghost var k := CountsIn(CallGraph(), Snapshot(), event);
      CountsGraph(CallGraph(), Snapshot(), event);
      cycleTotals := map[];
      var i := 0;
      while i < |cycles|
        invariant 0 <= i <= |cycles| && Untouched()
        invariant forall j :: 0 <= j < i ==> cycles[j] in cycleTotals && cycleTotals[cycles[j]] == 0.0
      {
        cycleTotals := cycleTotals[cycles[i] := 0.0];
        i := i + 1;
      }
      functionTotals := map u | u in functions :: 0.0;
      CycleTotalsStart(k, functionTotals, cycleTotals);
      CallsFromNone(k.calls);
      var todo := functions.Keys;
      ghost var seen: set<FunctionId> := {};
      while todo != {}
        invariant Untouched() && todo <= functions.Keys && seen == functions.Keys - todo
        invariant FunctionTotals(k, CallsFrom(k.calls, seen), functionTotals)
        invariant CycleTotals(k, CallsFrom(k.calls, seen), cycleTotals)
        decreases todo
      {
        var u :| u in todo;
        SeenMore(functions.Keys, todo, u);
        todo := todo - {u};
        CallsFromMore(k.calls, seen, u);
        functionTotals, cycleTotals := TotalCallsOf(u, event, functionTotals, cycleTotals, k, CallsFrom(k.calls, seen));
        seen := seen + {u};
      }
      assert seen == k.calls.Keys;
      FinishTotals(k, functionTotals, cycleTotals);
    }

    method TotalCallsOf(u: FunctionId, event: Event, functionTotals: map<FunctionId, real>,
        cycleTotals: map<Cycle, real>, ghost k: Counts, ghost edges: set<Edge>)
      returns (functionTotals': map<FunctionId, real>, cycleTotals': map<Cycle, real>)
      requires Analysed() && u in functions && event != CallRatio
      requires forall e :: e in CallEvents() && e.0 != e.1 ==> event in CallEvents()[e]
      requires k == CountsIn(CallGraph(), Snapshot(), event) && k.calls == CallGraph()
      requires FunctionTotals(k, edges, functionTotals) && CycleTotals(k, edges, cycleTotals)
      requires forall v :: (u, v) !in edges
      ensures Untouched()
      ensures FunctionTotals(k, edges + CallsTo(u, k.calls[u]), functionTotals')
      ensures CycleTotals(k, edges + CallsTo(u, k.calls[u]), cycleTotals')
    {
      hide Analysed, Snapshot, Wired, CallGraph, CycleOf, CallObjects, CycleObjects, Reach, SumOf, Component, CountsIn,
        FunctionTotals, CycleTotals, CallsTo, EntryTotal, CallCount, CrossCount, Callers, EdgeSum, EdgeSums;
      functionTotals', cycleTotals' := functionTotals, cycleTotals;
      CallsOf(u);
      CallsToMore(u, {}, u);
      assert edges + CallsTo(u, {}) == edges;
      var todo := functions[u].calls.Keys;
      ghost var seen: set<FunctionId> := {};
      while todo != {}
        invariant Untouched() && todo <= k.calls[u] && seen == k.calls[u] - todo
        invariant FunctionTotals(k, edges + CallsTo(u, seen), functionTotals')
        invariant CycleTotals(k, edges + CallsTo(u, seen), cycleTotals')
        decreases todo
      {
        var v :| v in todo;
        SeenMore(k.calls[u], todo, v);
        todo := todo - {v};
        OneCallMore(edges, u, seen, v);
        functionTotals', cycleTotals' := TotalCall(u, v, event, functionTotals', cycleTotals', k,
            edges + CallsTo(u, seen), edges + CallsTo(u, seen + {v}));
        seen := seen + {v};
      }
      assert seen == k.calls[u];
    }

    method TotalCall(u: FunctionId, v: FunctionId, event: Event, functionTotals: map<FunctionId, real>,
        cycleTotals: map<Cycle, real>, ghost k: Counts, ghost edges: set<Edge>, ghost edges': set<Edge>)
      returns (functionTotals': map<FunctionId, real>, cycleTotals': map<Cycle, real>)
      requires Analysed() && u in functions && v in functions[u].calls && event != CallRatio
      requires forall e :: e in CallEvents() && e.0 != e.1 ==> event in CallEvents()[e]
      requires k == CountsIn(CallGraph(), Snapshot(), event) && k.calls == CallGraph() && v in k.calls[u]
      requires FunctionTotals(k, edges, functionTotals) && CycleTotals(k, edges, cycleTotals)
      requires (u, v) !in edges && edges' == edges + {(u, v)}
      ensures Untouched()
      ensures FunctionTotals(k, edges', functionTotals') && CycleTotals(k, edges', cycleTotals')
    {
      hide Analysed, Snapshot, Wired, CallGraph, CycleOf, CallObjects, CycleObjects, Reach, SumOf, Component, CountsIn,
        FunctionTotals, CycleTotals, CallsTo, EntryTotal, CallCount, CrossCount, Callers, EdgeSum, EdgeSums;
      functionTotals', cycleTotals' := functionTotals, cycleTotals;
      CallsOf(u);
      FunctionTotalsDefined(k, edges, functionTotals, v);
      CycleTotalsDefined(k, edges, cycleTotals, v);
      if v != u {
        CountRead(u, v, event, k);
        var count := functions[u].calls[v].events[event];
        var total := functionTotals[v] + count;
        FunctionTotalsMore(k, edges, edges', functionTotals, u, v, total);
        functionTotals' := functionTotals[v := total];
        CycleTotalsMore(k, edges, edges', cycleTotals, u, v, count);
        if functions[v].cycle != null && functions[v].cycle != functions[u].cycle {
          cycleTotals' := cycleTotals[functions[v].cycle := cycleTotals[functions[v].cycle] + count];
        }
      } else {
        SelfCount(k, u);
        FunctionTotalsMore(k, edges, edges', functionTotals, u, v, functionTotals[v]);
        CycleTotalsMore(k, edges, edges', cycleTotals, u, v, 0.0);
        assert functionTotals[v := functionTotals[v]] == functionTotals;
      }
    }

    lemma {:induction false} CycleTotalsDefined(k: Counts, edges: set<Edge>, totals: map<Cycle, real>, v: FunctionId)
      requires CycleTotals(k, edges, totals) && v in functions
      ensures functions[v].cycle != null ==> functions[v].cycle in totals
    {
    }

    lemma {:induction false} CycleTotalsMore(k: Counts, edges: set<Edge>, edges': set<Edge>, totals: map<Cycle, real>,
        u: FunctionId, v: FunctionId, count: real)
      requires Analysed() && k.calls == CallGraph() && CycleTotals(k, edges, totals) && u in functions
      requires v in k.calls[u] && (u, v) !in edges
      requires edges' == edges + {(u, v)} && v in functions
      requires (v != u ==> (u, v) in k.count && count == k.count[(u, v)])
      ensures functions[v].cycle != null && functions[v].cycle != functions[u].cycle ==>
        functions[v].cycle in totals &&
          CycleTotals(k, edges', totals[functions[v].cycle := totals[functions[v].cycle] + count])
      ensures !(functions[v].cycle != null && functions[v].cycle != functions[u].cycle) ==>
        CycleTotals(k, edges', totals)
    {
      hide Reach, SumOf, EntryTotal, CountsIn;
      CallsOf(u);
      forall w | w in functions && functions[w].cycle != null
        ensures EntryTotal(k, edges + {(u, v)}, Component(k.calls, w)) ==
          EntryTotal(k, edges, Component(k.calls, w)) + if v in Component(k.calls, w) then CrossCount(k, u, v) else 0.0
        ensures v in Component(k.calls, w) <==> functions[v].cycle == functions[w].cycle
      {
        SharedCycles(w);
        EntryTotalMore(k, edges, Component(k.calls, w), u, v);
      }
      if functions[v].cycle != null {
        SharedCycles(v);
        SameComponent(k.calls, u, v);
      }
    }

    lemma {:induction false} CycleTotalsStart(k: Counts, functionTotals: map<FunctionId, real>,
        cycleTotals: map<Cycle, real>)
      requires Analysed() && k.calls == CallGraph()
      requires functionTotals.Keys == functions.Keys && forall v :: v in functionTotals ==> functionTotals[v] == 0.0
      requires forall j :: 0 <= j < |cycles| ==> cycles[j] in cycleTotals && cycleTotals[cycles[j]] == 0.0
      ensures FunctionTotals(k, {}, functionTotals) && CycleTotals(k, {}, cycleTotals)
    {
      hide Reach, SumOf, EntryTotal, FunctionTotals;
      forall u | u in functions && functions[u].cycle != null
        ensures functions[u].cycle in cycleTotals
        ensures cycleTotals[functions[u].cycle] == EntryTotal(k, {}, Component(k.calls, u))
      {
        NothingTotalled(k, functionTotals, Component(k.calls, u));
        assert functions[u].cycle in CycleObjects();
        assert functions[u].cycle in (set c | c in cycles);
      }
      NothingTotalled(k, functionTotals, {});
    }

    lemma {:induction false} FinishTotals(k: Counts, functionTotals: map<FunctionId, real>,
        cycleTotals: map<Cycle, real>)
      requires k.calls.Keys == functions.Keys
      requires FunctionTotals(k, CallsFrom(k.calls, k.calls.Keys), functionTotals)
      requires CycleTotals(k, CallsFrom(k.calls, k.calls.Keys), cycleTotals)
      ensures functionTotals.Keys == functions.Keys
      ensures forall v :: v in functions ==> functionTotals[v] == FunctionTotal(k, v)
      ensures forall v :: v in functions && functions[v].cycle != null ==>
        functions[v].cycle in cycleTotals && cycleTotals[functions[v].cycle] == CrossTotal(k, Component(k.calls, v))
    {
      hide Reach, SumOf, EntryTotal, FunctionTotal, CrossTotal, CallsFrom;
      forall v | v in functions
        ensures v in functionTotals && functionTotals[v] == FunctionTotal(k, v)
      {
        AllTotalled(k, functionTotals, v);
      }
      forall v | v in functions
        ensures EntryTotal(k, CallsFrom(k.calls, k.calls.Keys), Component(k.calls, v)) ==
          CrossTotal(k, Component(k.calls, v))
      {
        AllEntryTotals(k, Component(k.calls, v));
      }
    }

    lemma {:induction false} CountRead(u: FunctionId, v: FunctionId, event: Event, k: Counts)
      requires Analysed() && u in functions && v in CallGraph()[u] && v != u
      requires forall e :: e in CallEvents() && e.0 != e.1 ==> event in CallEvents()[e]
      requires k == CountsIn(CallGraph(), Snapshot(), event)
      ensures v in functions[u].calls && event in functions[u].calls[v].events && (u, v) in k.count
      ensures functions[u].calls[v].events[event] == CallCount(k, u, v) == k.count[(u, v)]
    {
    }

    // ----- integration along the call graph -----

    /** Looking up the events of one function, call or cycle in a snapshot. */
    lemma {:induction false} SnapshotReads(u: FunctionId)
      requires Wired() && u in functions
      ensures u in Snapshot().functions && Snapshot().functions[u] == functions[u].events
      ensures CallGraph()[u] <= functions.Keys
      ensures functions[u].cycle != null ==> u in Snapshot().cycles && Snapshot().cycles[u] == functions[u].cycle.events
      ensures u in Snapshot().cycles ==> functions[u].cycle != null
      ensures forall v :: v in functions[u].calls ==>
        (u, v) in Snapshot().calls && Snapshot().calls[(u, v)] == functions[u].calls[v].events
    {
    }

    lemma {:induction false} CycleIffRecursive(u: FunctionId)
      requires Analysed() && u in functions
      ensures functions[u].cycle != null <==> Recursive(CallGraph(), u)
    {
      assert LabelledAt(NoLabels(), functions.Keys, u);
    }

    lemma {:induction false} AnalysedWired()
      requires Analysed()
      ensures Wired() && Keyed()
    {
    }

    method IntegrateFunction(u: FunctionId, out: Event, inn: Event, ghost f: Flow, ghost base: Books,
        ghost done: set<FunctionId>)
      returns (time: real, ghost done': set<FunctionId>)
      requires Analysed() && Settling(CallGraph(), f, base, out, inn, done) && Snapshot() == Settled(base, f, out, done)
      requires u in functions && Clean(base, out, f.calls, u)
      modifies functions.Values`events, CallObjects()`events, CycleObjects()`events
      ensures SameShape()
      ensures Settling(CallGraph(), f, base, out, inn, done') && Snapshot() == Settled(base, f, out, done')
      ensures done + Component(f.calls, u) <= done' <= done + Below(f.calls, u)
      ensures time == InclusiveTime(f, u)
      decreases Below(CallGraph(), u), 8
    {
      hide Flow.Valid, PassesAsserted, Analysed, Settling, Settled, Clean, Snapshot, Wired, InclusiveTime, Component,
        Below, CallGraph, CycleOf, CallObjects, CycleObjects;
      SettlingValid(CallGraph(), f, base, out, inn, done);
      BelowSelf(f.calls, u);
      if functions[u].cycle != null {
        time, done' := IntegrateCycle(u, out, inn, f, base, done);
      } else {
        FunctionKnown(u, out, inn, f, base, done);
        done' := done;
        if out !in functions[u].events {
          done' := IntegrateLone(u, out, inn, f, base, done);
          SettlingValid(CallGraph(), f, base, out, inn, done');
          FunctionKnown(u, out, inn, f, base, done');
        }
        time := functions[u].events[out];
      }
    }

    /** A function without a cycle carries its time exactly when it has been settled. */
    lemma {:induction false} FunctionKnown(u: FunctionId, out: Event, inn: Event, f: Flow, base: Books,
        done: set<FunctionId>)
      requires Analysed() && Settling(CallGraph(), f, base, out, inn, done) && Snapshot() == Settled(base, f, out, done)
      requires u in functions && Clean(base, out, f.calls, u) && functions[u].cycle == null
      ensures out in functions[u].events <==> u in done
      ensures u in done ==> functions[u].events[out] == InclusiveTime(f, u) && Component(f.calls, u) <= done
    {
      hide Analysed, Settling, Settled, Clean, Snapshot, Wired, InclusiveTime, Component, Reach, CallGraph;
      AnalysedWired();
      CycleIffRecursive(u);
      SettlingValid(CallGraph(), f, base, out, inn, done);
      SnapshotReads(u);
      MemoisedLone(f, base, out, inn, done, u);
      if u in done {
        ComponentWhole(f, base, out, inn, done, u);
      }
    }

    /** One more call of `u` that leaves its component; the calls to `seen` have been integrated. */
    method IntegrateNext(u: FunctionId, v: FunctionId, total: real, out: Event, inn: Event, ghost f: Flow,
        ghost base: Books, ghost done0: set<FunctionId>, ghost done: set<FunctionId>, ghost seen: set<FunctionId>)
      returns (total': real, ghost done': set<FunctionId>)
      requires Analysed() && f.Valid() && u in functions && u in f.calls
      requires Progress(f, u, total, done0, done, seen) && CalleesClean(f, base, out, u)
      requires v in functions[u].calls && v in Outflow(f, u) && v !in seen
      requires Settling(CallGraph(), f, Posted(base, f, out, CallsTo(u, seen)), out, inn, done)
      requires Snapshot() == Settled(Posted(base, f, out, CallsTo(u, seen)), f, out, done)
      modifies functions.Values`events, CallObjects()`events, CycleObjects()`events
      ensures SameShape()
      ensures done' <= f.calls.Keys
      ensures Settling(CallGraph(), f, Posted(base, f, out, CallsTo(u, seen + {v})), out, inn, done')
      ensures Snapshot() == Settled(Posted(base, f, out, CallsTo(u, seen + {v})), f, out, done')
      ensures Progress(f, u, total', done0, done', seen + {v})
      decreases Below(CallGraph(), u), 0
    {
      hide SumOf, Restrict, Progress, Flow.Valid, PassesAsserted, Analysed, Settling, Settled, Clean, CalleesClean,
        Snapshot, Wired, Outflow, InclusiveTime, Component, Recursive, Below, CallGraph, CycleOf, CallObjects,
        CycleObjects, Reach, Posted, CallsTo;
      SettlingValid(CallGraph(), f, Posted(base, f, out, CallsTo(u, seen)), out, inn, done);
      CallFacts(f, u, v);
      CalleeClean(f, base, out, u, seen, v);
      NotDone(f, u, total, done0, done, seen);
      var time: real;
      time, done' := IntegrateCall(u, v, out, inn, f, Posted(base, f, out, CallsTo(u, seen)), done);
      SettlingValid(CallGraph(), f, Posted(Posted(base, f, out, CallsTo(u, seen)), f, out, {(u, v)}), out, inn, done');
      PostedMoreCalls(base, f, out, u, seen, v);
      total' := total + time;
      ProgressMore(f, u, total, done0, done, seen, v, total', done');
    }

    /** The part of `IntegrateFunction` that fills in the time of a function without a cycle. */
    method IntegrateLone(u: FunctionId, out: Event, inn: Event, ghost f: Flow, ghost base: Books,
        ghost done: set<FunctionId>)
      returns (ghost done': set<FunctionId>)
      requires Analysed() && Settling(CallGraph(), f, base, out, inn, done) && Snapshot() == Settled(base, f, out, done)
      requires u in functions && Clean(base, out, f.calls, u)
      requires functions[u].cycle == null && u !in done
      modifies functions.Values`events, CallObjects()`events, CycleObjects()`events
      ensures SameShape()
      ensures Settling(CallGraph(), f, base, out, inn, done') && Snapshot() == Settled(base, f, out, done')
      ensures done + Component(f.calls, u) <= done' <= done + Below(f.calls, u)
      decreases Below(CallGraph(), u), 2
    {
      hide Flow.Valid, PassesAsserted, CalleesClean, Analysed, Settling, Settled, Clean, Snapshot, Wired, Outflow,
        InclusiveTime, Component, Recursive, Below, CallGraph, CycleOf, CallObjects, CycleObjects, Reach, Posted, SumOf,
        Restrict, CallsTo;
      SettlingValid(CallGraph(), f, base, out, inn, done);
      CycleIffRecursive(u);
      CleanCallees(f, base, out, inn, done, u);
      LoneOutflow(f, u);
      BelowSelf(f.calls, u);
      MemoisedLone(f, base, out, inn, done, u);
      var total: real;
      total, done' := IntegrateCalls(u, out, inn, f, base, done);
      ghost var before := Snapshot();
      SetFunction(u, out, total);
      SettleLone(f, base, out, inn, done, done', u, before, Snapshot());
      done' := done' + {u};
    }

    /** The loop over the calls of a function without a cycle. */
    method IntegrateCalls(u: FunctionId, out: Event, inn: Event, ghost f: Flow, ghost base: Books,
        ghost done: set<FunctionId>)
      returns (total: real, ghost done': set<FunctionId>)
      requires Analysed() && Settling(CallGraph(), f, base, out, inn, done) && Snapshot() == Settled(base, f, out, done)
      requires u in functions && functions[u].cycle == null && u !in done && CalleesClean(f, base, out, u)
      modifies functions.Values`events, CallObjects()`events, CycleObjects()`events
      ensures SameShape()
      ensures Settling(CallGraph(), f, Posted(base, f, out, CallsTo(u, Outflow(f, u).Keys)), out, inn, done')
      ensures Snapshot() == Settled(Posted(base, f, out, CallsTo(u, Outflow(f, u).Keys)), f, out, done')
      ensures Deepened(f.calls, u, done, done') && u !in done'
      ensures total == Share(f, u)
      decreases Below(CallGraph(), u), 1
    {
      hide SumOf, Restrict, Progress, Deepened, Flow.Valid, PassesAsserted, CalleesClean, Analysed, Settling, Settled,
        Clean, Snapshot, Wired, Outflow, Share, InclusiveTime, Component, Recursive, Below, CallGraph, CycleOf,
        CallObjects, CycleObjects, Reach, Posted, CallsTo;
      SettlingValid(CallGraph(), f, base, out, inn, done);
      AnalysedWired();
      CycleIffRecursive(u);
      LoneOutflow(f, u);
      SnapshotReads(u);
      FunctionReads(f, base, out, inn, done, u);
      CallsOf(u);
      PostedNone(base, f, out, u);
      ProgressNone(f, u, done);
      total := functions[u].events[inn];
      var todo := functions[u].calls.Keys;
      ghost var seen: set<FunctionId> := {};
      done' := done;
      while todo != {}
        invariant SameShape() && todo <= f.calls[u]
        invariant seen == Outflow(f, u).Keys - todo
        invariant done' <= f.calls.Keys
        invariant Settling(CallGraph(), f, Posted(base, f, out, CallsTo(u, seen)), out, inn, done')
        invariant Snapshot() == Settled(Posted(base, f, out, CallsTo(u, seen)), f, out, done')
        invariant Progress(f, u, total, done, done', seen)
        decreases todo
      {
        var v :| v in todo;
        SeenMore(Outflow(f, u).Keys, todo, v);
        todo := todo - {v};
        CallsOf(u);
        if v != u {
          total, done' := IntegrateNext(u, v, total, out, inn, f, base, done, done', seen);
          seen := seen + {v};
        }
      }
      assert seen == Outflow(f, u).Keys;
      ProgressAll(f, u, total, done, done', seen);
    }

    method IntegrateCycle(u: FunctionId, out: Event, inn: Event, ghost f: Flow, ghost base: Books,
        ghost done: set<FunctionId>)
      returns (time: real, ghost done': set<FunctionId>)
      requires Analysed() && Settling(CallGraph(), f, base, out, inn, done) && Snapshot() == Settled(base, f, out, done)
      requires u in functions && Clean(base, out, f.calls, u) && functions[u].cycle != null
      modifies functions.Values`events, CallObjects()`events, CycleObjects()`events
      ensures SameShape()
      ensures Settling(CallGraph(), f, base, out, inn, done') && Snapshot() == Settled(base, f, out, done')
      ensures done + Component(f.calls, u) <= done' <= done + Below(f.calls, u)
      ensures time == InclusiveTime(f, u)
      decreases Below(CallGraph(), u), 7
    {
      hide Flow.Valid, PassesAsserted, Analysed, Settling, Settled, Clean, Snapshot, Wired, InclusiveTime, Component,
        Below, CallGraph, CycleOf, CallObjects, CycleObjects, OneComponent;
      SettlingValid(CallGraph(), f, base, out, inn, done);
      BelowSelf(f.calls, u);
      CycleKnown(u, out, inn, f, base, done);
      if out !in functions[u].cycle.events {
        time, done' := FillCycle(u, out, inn, f, base, done);
      } else {
        time, done' := functions[u].cycle.events[out], done;
      }
    }

    /** The part of `IntegrateCycle` that fills in the time of a cycle. */
    method FillCycle(u: FunctionId, out: Event, inn: Event, ghost f: Flow, ghost base: Books,
        ghost done: set<FunctionId>)
      returns (time: real, ghost done': set<FunctionId>)
      requires Analysed() && Settling(CallGraph(), f, base, out, inn, done) && Snapshot() == Settled(base, f, out, done)
      requires u in functions && Clean(base, out, f.calls, u) && functions[u].cycle != null && u !in done
      requires OneComponent(f, Component(f.calls, u))
      modifies functions.Values`events, CallObjects()`events, CycleObjects()`events
      ensures SameShape()
      ensures Settling(CallGraph(), f, base, out, inn, done') && Snapshot() == Settled(base, f, out, done')
      ensures done + Component(f.calls, u) <= done' <= done + Below(f.calls, u)
      ensures time == InclusiveTime(f, u)
      decreases Below(CallGraph(), u), 6
    {
      hide Flow.Valid, PassesAsserted, Analysed, Settling, Settled, Clean, Snapshot, Wired, InclusiveTime, Component,
        Below, CallGraph, CycleOf, CallObjects, CycleObjects, OneComponent;
      SettlingValid(CallGraph(), f, base, out, inn, done);
      BelowSelf(f.calls, u);
      done' := IntegrateNewCycle(u, out, inn, f, base, done);
      SettlingValid(CallGraph(), f, base, out, inn, done');
      CycleKnown(u, out, inn, f, base, done');
      time := functions[u].cycle.events[out];
    }

    /** A cycle carries its time exactly when it has been settled. */
    lemma {:induction false} CycleKnown(u: FunctionId, out: Event, inn: Event, f: Flow, base: Books,
        done: set<FunctionId>)
      requires Analysed() && Settling(CallGraph(), f, base, out, inn, done) && Snapshot() == Settled(base, f, out, done)
      requires u in functions && Clean(base, out, f.calls, u) && functions[u].cycle != null
      ensures OneComponent(f, Component(f.calls, u)) && (out in functions[u].cycle.events <==> u in done)
      ensures u in done ==> functions[u].cycle.events[out] == InclusiveTime(f, u) && Component(f.calls, u) <= done
    {
      hide Analysed, Settling, Settled, Clean, Snapshot, Wired, InclusiveTime, Component, Reach, CallGraph,
        OneComponent;
      AnalysedWired();
      SettlingValid(CallGraph(), f, base, out, inn, done);
      SnapshotReads(u);
      MemoisedCycle(f, base, out, inn, done, u);
      if u in done {
        ComponentWhole(f, base, out, inn, done, u);
      }
    }

    lemma {:induction false} ComponentOf(u: FunctionId)
      requires Analysed() && u in functions
      ensures Closed(CallGraph()) && u in Component(CallGraph(), u) && Component(CallGraph(), u) <= functions.Keys
      ensures forall m :: m in Component(CallGraph(), u) ==>
        Component(CallGraph(), m) == Component(CallGraph(), u) && functions[m].cycle == functions[u].cycle
    {
      InOwnComponent(CallGraph(), u);
      forall m | m in Component(CallGraph(), u)
        ensures Component(CallGraph(), m) == Component(CallGraph(), u)
        ensures functions[m].cycle == functions[u].cycle
      {
        ComponentShared(CallGraph(), u, m);
        CycleIffRecursive(u);
        CycleIffRecursive(m);
        assert LabelledAt(NoLabels(), functions.Keys, u);
      }
    }

    /** A call of a cycle member leaves the cycle exactly when it leaves the component. */
    lemma {:induction false} LeavesCycle(cycle: Cycle, m: FunctionId, v: FunctionId, f: Flow)
      requires Analysed() && m in functions && f.calls == CallGraph() && f.Valid() && v in f.calls[m]
      requires Carried(cycle, Component(f.calls, m))
      ensures v in functions && v in functions[m].calls
      ensures functions[v].cycle != cycle <==> v in Outflow(f, m)
    {
      hide Reach, InclusiveTime, Analysed, Outflow, Carried, CallGraph;
      CallsOf(m);
      CarriedAt(cycle, Component(f.calls, m), v);
      OutflowKeys(f, m);
    }

    /** One call of the cycle member `m`: it is integrated if it leaves the cycle. */
    method IntegrateIfLeaving(cycle: Cycle, m: FunctionId, v: FunctionId, subtotal: real, out: Event, inn: Event,
        ghost f: Flow, ghost base: Books, ghost done0: set<FunctionId>, ghost done: set<FunctionId>,
        ghost seen: set<FunctionId>)
      returns (subtotal': real, ghost done': set<FunctionId>, ghost seen': set<FunctionId>)
      requires Analysed() && f.Valid() && m in functions && m in f.calls && Carried(cycle, Component(f.calls, m))
      requires Progress(f, m, subtotal, done0, done, seen) && CalleesClean(f, base, out, m)
      requires v in f.calls[m] && v !in seen
      requires Settling(CallGraph(), f, Posted(base, f, out, CallsTo(m, seen)), out, inn, done)
      requires Snapshot() == Settled(Posted(base, f, out, CallsTo(m, seen)), f, out, done)
      modifies functions.Values`events, CallObjects()`events, CycleObjects()`events
      ensures SameShape() && Carried(cycle, Component(f.calls, m))
      ensures seen' == if v in Outflow(f, m) then seen + {v} else seen
      ensures done' <= f.calls.Keys
      ensures Settling(CallGraph(), f, Posted(base, f, out, CallsTo(m, seen')), out, inn, done')
      ensures Snapshot() == Settled(Posted(base, f, out, CallsTo(m, seen')), f, out, done')
      ensures Progress(f, m, subtotal', done0, done', seen')
      decreases Below(CallGraph(), m), 1
    {
      hide CarriedBy, SumOf, Restrict, Progress, Flow.Valid, PassesAsserted, Analysed, Settling, Settled, Clean,
        CalleesClean, Snapshot, Wired, Outflow, InclusiveTime, Component, Recursive, Below, CallGraph, CycleOf,
        CallObjects, CycleObjects, Reach, Posted, CallsTo;
      SettlingValid(CallGraph(), f, Posted(base, f, out, CallsTo(m, seen)), out, inn, done);
      LeavesCycle(cycle, m, v, f);
      if functions[v].cycle == cycle {
        return subtotal, done, seen;
      }
      subtotal', done' := IntegrateNext(m, v, subtotal, out, inn, f, base, done0, done, seen);
      seen' := seen + {v};
    }

    /** The loop over the calls of the cycle member `m`. */
    method IntegrateLeaving(cycle: Cycle, m: FunctionId, out: Event, inn: Event, ghost f: Flow, ghost base: Books,
        ghost done: set<FunctionId>)
      returns (subtotal: real, ghost done': set<FunctionId>)
      requires Analysed() && Settling(CallGraph(), f, base, out, inn, done) && Snapshot() == Settled(base, f, out, done)
      requires m in functions && Carried(cycle, Component(f.calls, m)) && m !in done && CalleesClean(f, base, out, m)
      modifies functions.Values`events, CallObjects()`events, CycleObjects()`events
      ensures SameShape()
      ensures Settling(CallGraph(), f, Posted(base, f, out, CallsTo(m, Outflow(f, m).Keys)), out, inn, done')
      ensures Snapshot() == Settled(Posted(base, f, out, CallsTo(m, Outflow(f, m).Keys)), f, out, done')
      ensures Deepened(f.calls, m, done, done')
      ensures subtotal == Share(f, m)
      decreases Below(CallGraph(), m), 2
    {
      hide Carried, SumOf, Restrict, Progress, Deepened, Flow.Valid, PassesAsserted, Analysed, Settling, Settled, Clean,
        CalleesClean, Snapshot, Wired, Outflow, Share, InclusiveTime, Component, Recursive, Below, CallGraph, CycleOf,
        CallObjects, CycleObjects, Reach, Posted, CallsTo;
      SettlingValid(CallGraph(), f, base, out, inn, done);
      AnalysedWired();
      SnapshotReads(m);
      FunctionReads(f, base, out, inn, done, m);
      CallsOf(m);
      PostedNone(base, f, out, m);
      OutflowKeys(f, m);
      ProgressNone(f, m, done);
      subtotal := functions[m].events[inn];
      var todo := functions[m].calls.Keys;
      ghost var seen: set<FunctionId> := {};
      done' := done;
      while todo != {}
        invariant SameShape() && Carried(cycle, Component(f.calls, m)) && todo <= f.calls[m]
        invariant seen == Outflow(f, m).Keys - todo
        invariant done' <= f.calls.Keys
        invariant Settling(CallGraph(), f, Posted(base, f, out, CallsTo(m, seen)), out, inn, done')
        invariant Snapshot() == Settled(Posted(base, f, out, CallsTo(m, seen)), f, out, done')
        invariant Progress(f, m, subtotal, done, done', seen)
        decreases todo
      {
        var v :| v in todo;
        SeenMore(Outflow(f, m).Keys, todo, v);
        todo := todo - {v};
        subtotal, done', seen := IntegrateIfLeaving(cycle, m, v, subtotal, out, inn, f, base, done, done', seen);
      }
      assert seen == Outflow(f, m).Keys;
      ProgressAll(f, m, subtotal, done, done', seen);
    }

    /** One member of the cycle of `u`; the members `ms` have been gone through. */
    method IntegrateMember(cycle: Cycle, u: FunctionId, m: FunctionId, out: Event, inn: Event, ghost f: Flow,
        ghost base: Books, ghost done0: set<FunctionId>, ghost done: set<FunctionId>, ghost c: set<FunctionId>,
        ghost ms: set<FunctionId>)
      returns (subtotal: real, ghost done': set<FunctionId>)
      requires Analysed() && f.Valid() && Settling(CallGraph(), f, base, out, inn, done0) && OneComponent(f, c)
      requires u in c && m in c && ms <= c && m !in ms && Carried(cycle, c)
      requires Clean(base, out, f.calls, u) && m in functions
      requires Settling(CallGraph(), f, Posted(base, f, out, Leaving(f, ms)), out, inn, done) && c !! done
      requires Snapshot() == Settled(Posted(base, f, out, Leaving(f, ms)), f, out, done)
      modifies functions.Values`events, CallObjects()`events, CycleObjects()`events
      ensures SameShape() && Carried(cycle, c)
      ensures done' <= f.calls.Keys
      ensures Settling(CallGraph(), f, Posted(base, f, out, Leaving(f, ms + {m})), out, inn, done')
      ensures Snapshot() == Settled(Posted(base, f, out, Leaving(f, ms + {m})), f, out, done')
      ensures done <= done' <= done + Below(f.calls, u) && c !! done'
      ensures subtotal == Share(f, m)
      decreases Below(CallGraph(), u), 3
    {
      hide Carried, Flow.Valid, PassesAsserted, Analysed, Settling, Settled, Clean, CalleesClean, Snapshot, Wired,
        Outflow, InclusiveTime, Component, Recursive, Below, CallGraph, CycleOf, CallObjects, CycleObjects, Reach,
        Posted, Leaving, CallsTo, Share, OneComponent;
      SettlingValid(CallGraph(), f, base, out, inn, done0);
      SettlingValid(CallGraph(), f, Posted(base, f, out, Leaving(f, ms)), out, inn, done);
      CycleMember(f, c, m);
      MembersClean(f, base, out, inn, done0, u, c, ms, m);
      subtotal, done' := IntegrateLeaving(cycle, m, out, inn, f, Posted(base, f, out, Leaving(f, ms)), done);
      SettlingValid(CallGraph(), f,
          Posted(Posted(base, f, out, Leaving(f, ms)), f, out, CallsTo(m, Outflow(f, m).Keys)), out, inn, done');
      LeavingMore(f, base, out, ms, m);
    }

    /** The outer loop of `IntegrateCycle`: what the calls that leave the cycle and the members
        themselves add up to. */
    method IntegrateMembers(u: FunctionId, out: Event, inn: Event, ghost f: Flow, ghost base: Books,
        ghost done: set<FunctionId>)
      returns (total: real, ghost done': set<FunctionId>)
      requires Analysed() && Settling(CallGraph(), f, base, out, inn, done) && Snapshot() == Settled(base, f, out, done)
      requires u in functions && Clean(base, out, f.calls, u) && functions[u].cycle != null && u !in done
      requires OneComponent(f, Component(f.calls, u))
      modifies functions.Values`events, CallObjects()`events, CycleObjects()`events
      ensures SameShape()
      ensures Settling(CallGraph(), f, Posted(base, f, out, Leaving(f, Component(f.calls, u))), out, inn, done')
      ensures Snapshot() == Settled(Posted(base, f, out, Leaving(f, Component(f.calls, u))), f, out, done')
      ensures done <= done' <= done + Below(f.calls, u) && Component(f.calls, u) !! done'
      ensures total == InclusiveTime(f, u)
      decreases Below(CallGraph(), u), 4
    {
      hide Carried, Flow.Valid, PassesAsserted, Analysed, Settling, Settled, Clean, CalleesClean, Snapshot, Wired,
        Outflow, InclusiveTime, Component, Recursive, Below, CallGraph, CycleOf, CallObjects, CycleObjects, Reach,
        Posted, SumOf, Restrict, Leaving, CallsTo, Shares, Share, OneComponent;
      SettlingValid(CallGraph(), f, base, out, inn, done);
      var cycle := functions[u].cycle;
      ghost var c := Component(f.calls, u);
      ComponentOf(u);
      CarriedByAll(u);
      DoneDisjoint(f, base, out, inn, done, u);
      MemberIds(u);
      LeavingMore(f, base, out, {}, u);
      SharesNone(f);
      total := 0.0;
      done' := done;
      var todo := set m | m in cycle.functions :: m.id;
      ghost var ms: set<FunctionId> := {};
      while todo != {}
        invariant SameShape() && Carried(cycle, c) && todo <= c && ms == c - todo
        invariant done' <= f.calls.Keys && ms <= f.calls.Keys
        invariant Settling(CallGraph(), f, Posted(base, f, out, Leaving(f, ms)), out, inn, done')
        invariant Snapshot() == Settled(Posted(base, f, out, Leaving(f, ms)), f, out, done')
        invariant done <= done' <= done + Below(f.calls, u) && c !! done'
        invariant total == SumOf(Shares(f, ms))
        decreases todo
      {
        var m :| m in todo;
        SeenMore(c, todo, m);
        todo := todo - {m};
        var subtotal: real;
        subtotal, done' := IntegrateMember(cycle, u, m, out, inn, f, base, done, done', c, ms);
        total := total + subtotal;
        SharesMore(f, ms, m);
        ms := ms + {m};
      }
      assert ms == c;
      InclusiveIsSumOfShares(f, u);
    }

    /** The ids of the members of the cycle of `u` are its component. */
    lemma {:induction false} MemberIds(u: FunctionId)
      requires Analysed() && u in functions && functions[u].cycle != null
      ensures (set m | m in functions[u].cycle.functions :: m.id) == Component(CallGraph(), u)
    {
      hide Reach;
      assert LabelledAt(NoLabels(), functions.Keys, u);
      CycleIffRecursive(u);
      forall w | w in Component(CallGraph(), u)
        ensures w in (set m | m in functions[u].cycle.functions :: m.id)
      {
        assert functions[w] in functions[u].cycle.functions;
      }
    }

    /** The entries of the cycle of `u` with the ratios with which they are called from outside. */
    method EntryRatios(u: FunctionId, ghost f: Flow) returns (callees: map<FunctionId, real>)
      requires Analysed() && u in functions && functions[u].cycle != null
      requires f.Valid() && f.calls == CallGraph() && Rated(Snapshot(), f) && OneComponent(f, Component(f.calls, u))
      ensures Untouched()
      ensures callees.Keys == Entries(f.calls, Component(f.calls, u))
      ensures forall v :: v in callees ==> callees[v] == Inflow(f, f.calls.Keys, v)
    {
      hide Carried, Analysed, Snapshot, Wired, Component, CallGraph, CycleOf, CallObjects, CycleObjects, Reach, SumOf,
        OneComponent, Tallied, EntryEdges, Entries, Weight, CallsTo, Rated;
      var cycle := functions[u].cycle;
      ghost var c := Component(f.calls, u);
      CarriedByAll(u);
      callees := map[];
      TallyNone(WeightOf(f), f.calls.Keys);
      NoEntryEdges(f.calls, c);
      var todo := functions.Keys;
      while todo != {}
        invariant todo <= functions.Keys && Untouched()
        invariant Tallied(WeightOf(f), f.calls.Keys, EntryEdges(f.calls, c, functions.Keys - todo), callees)
        decreases todo
      {
        var m :| m in todo;
        ghost var ms := functions.Keys - todo;
        todo := todo - {m};
        assert functions.Keys - todo == ms + {m};
        EntryEdgesMore(f.calls, c, ms, m);
        CarriedAt(cycle, c, m);
        if functions[m].cycle != cycle {
          callees := EntryRatiosOf(m, cycle, callees, f, c, ms);
        }
      }
      assert functions.Keys - todo == f.calls.Keys;
      EntriesTallied(f, c, callees);
    }

    method EntryRatiosOf(m: FunctionId, cycle: Cycle, callees: map<FunctionId, real>, ghost f: Flow,
        ghost c: set<FunctionId>, ghost ms: set<FunctionId>)
      returns (callees': map<FunctionId, real>)
      requires Analysed() && m in functions && m !in ms && m !in c
      requires f.Valid() && f.calls == CallGraph() && Rated(Snapshot(), f) && OneComponent(f, c)
      requires Carried(cycle, c)
      requires Tallied(WeightOf(f), f.calls.Keys, EntryEdges(f.calls, c, ms), callees)
      ensures Tallied(WeightOf(f), f.calls.Keys, EntryEdges(f.calls, c, ms) + CallsTo(m, f.calls[m] * c), callees')
      ensures Untouched()
    {
      hide Flow.Valid, Carried, Analysed, Snapshot, Wired, Component, CallGraph, CycleOf, CallObjects, CycleObjects,
        Reach, SumOf, OneComponent, Tallied, EntryEdges, Weight, CallsTo;
      CallsOf(m);
      EntryEdgesMore(f.calls, c, ms, m);
      CallsToMore(m, {}, m);
      callees' := callees;
      var todo := functions[m].calls.Keys;
      ghost var seen: set<FunctionId> := {};
      ghost var edges := EntryEdges(f.calls, c, ms);
      assert edges + CallsTo(m, {}) == edges;
      while todo != {}
        invariant todo <= f.calls[m] && seen == (f.calls[m] - todo) * c
        invariant Untouched()
        invariant Tallied(WeightOf(f), f.calls.Keys, edges + CallsTo(m, seen), callees')
        decreases todo
      {
        var v :| v in todo;
        ghost var todo0 := todo;
        todo := todo - {v};
        CallsOf(m);
        CarriedAt(cycle, c, v);
        if functions[v].cycle == cycle {
          EntryWeight(f, c, m, v);
          CallsToMore(m, seen, v);
          SnapshotRatio(m, v, f);
          TallyOne(WeightOf(f), f.calls.Keys, edges + CallsTo(m, seen), callees', m, v);
          var ratio := functions[m].calls[v].events[CallRatio];
          callees' := callees'[v := (if v in callees' then callees'[v] else 0.0) + ratio];
          assert edges + CallsTo(m, seen) + {(m, v)} == edges + CallsTo(m, seen + {v});
          seen := seen + {v};
        }
        assert seen == (f.calls[m] - todo) * c;
      }
      assert seen == f.calls[m] * c;
    }

    lemma {:induction false} NoEntryEdges(g: Graph, c: set<FunctionId>)
      ensures EntryEdges(g, c, functions.Keys - functions.Keys) == {}
    {
    }

    /** Nothing has changed since. */
    twostate predicate Untouched()
      reads this`functions, this`cycles, functions.Values`calls, functions.Values`cycle, functions.Values`events,
          CallObjects()`events, CycleObjects()`events, CycleObjects()`functions
    {
      SameShape() && Snapshot() == old(Snapshot())
    }

    /** Ranks `u` and, through its calls, every member of the cycle that this brings closer to the
        entry `e`.  `active` are the members whose ranking is under way. */
    method RankCycleFunction(cycle: Cycle, u: FunctionId, rank: nat, ranks: Ranks, ghost h: Graph, ghost e: FunctionId,
        ghost active: set<FunctionId>)
      returns (ranks': Ranks)
      requires Analysed() && u in functions && functions[u].cycle == cycle
      requires h == Inner(CallGraph(), Component(CallGraph(), u))
      requires Sound(h, e, ranks) && Walk(h, rank, e, u) && Active(h, ranks, active, rank)
      ensures Untouched()
      ensures Ranked(h, e, ranks, ranks', u, rank)
      decreases Slack(h, ranks)
    {
      hide Analysed, CallGraph, Snapshot, Wired, Component, Reach, Walk, Sound, Ranked, RankingCallees, Active, Slack,
        Inner;
      SharedCycles(u);
      ComponentOf(u);
      CallsOf(u);
      InnerCalls(CallGraph(), u);
      ranks' := ranks;
      if u !in ranks || ranks[u] > rank {
        RankBelowSize(h, ranks, active, u, rank);
        StartRanking(h, e, ranks, u, rank);
        ranks' := ranks'[u := rank];
        var todo := functions[u].calls.Keys;
        ghost var left := h[u];
        while todo != {}
          invariant Untouched() && todo <= functions[u].calls.Keys
          invariant left == h[u] * todo
          invariant RankingCallees(h, e, ranks, ranks', u, rank, left)
          decreases todo
        {
          var v :| v in todo;
          todo := todo - {v};
          if v != u {
            if functions[v].cycle == cycle {
              RankingFacts(h, e, ranks, ranks', active, u, rank, left, v);
              ghost var before := ranks';
              ranks' := RankCycleFunction(cycle, v, rank + 1, ranks', h, e, active + {u});
              AfterCallee(h, e, ranks, before, ranks', u, rank, left, v);
              left := left - {v};
            }
          }
          assert left == h[u] * todo;
        }
        assert left == {};
        FinishRanking(h, e, ranks, ranks', u, rank);
      } else {
        NothingToRank(h, e, ranks, u, rank);
      }
    }

    /** Sums, for every member, the ratios of the calls that lead to it uphill; `edges` are the calls
        added up so far. */
    method CallRatiosCycle(cycle: Cycle, u: FunctionId, ranks: Ranks, ratios: map<FunctionId, real>,
        visited: set<FunctionId>, ghost p: Pass, ghost edges: set<Edge>)
      returns (ratios': map<FunctionId, real>, visited': set<FunctionId>, ghost edges': set<Edge>)
      requires Analysed() && p.Valid() && p.f.calls == CallGraph() && p.ranks == ranks && Rated(Snapshot(), p.f)
      requires u in p.Members() && u in functions && Carried(cycle, p.Members())
      requires visited <= p.Members() && Tallied(RatioOf(p), p.Members(), edges, ratios)
      requires forall e :: e in edges ==> e.0 in visited
      ensures Untouched()
      ensures visited + {u} <= visited' <= p.Members()
      ensures forall m :: m in visited' - visited ==> p.Uphill(m) <= visited'
      ensures edges' == edges + UphillFrom(p, visited' - visited)
      ensures Tallied(RatioOf(p), p.Members(), edges', ratios')
      decreases p.Members() - visited
    {
      hide Pass.Members, Flow.Valid, Pass.Valid, Rated, Carried, Analysed, Snapshot, Wired, Component, CallGraph, Reach,
        SumOf, Tallied, CallsTo, UphillFrom, ShortestRanks;
      ratios', visited', edges' := ratios, visited, edges;
      UphillFromMore(p, {}, u);
      assert visited' - visited == {};
      if u !in visited {
        UphillWithin(p, u);
        CallsOf(u);
        visited' := visited + {u};
        ghost var start := visited';
        ghost var seen: set<FunctionId> := {};
        CallsToMore(u, {}, u);
        assert visited' - start == {};
        var todo := functions[u].calls.Keys;
        while todo != {}
          invariant Untouched() && todo <= functions[u].calls.Keys
          invariant start <= visited' <= p.Members()
          invariant seen == p.Uphill(u) - todo && seen <= visited'
          invariant forall m :: m in visited' - start ==> p.Uphill(m) <= visited'
          invariant edges' == edges + UphillFrom(p, visited' - start) + CallsTo(u, seen)
          invariant Tallied(RatioOf(p), p.Members(), edges', ratios')
          decreases todo
        {
          var v :| v in todo;
          SeenMore(p.Uphill(u), todo, v);
          todo := todo - {v};
          if v != u {
            CarriedAt(cycle, p.Members(), v);
            if functions[v].cycle == cycle {
              UphillIff(p, u, v);
              if ranks[v] > ranks[u] {
                CallsToMore(u, seen, v);
                FreshEdge(p, edges, start, visited', u, seen, v);
                TallyOne(RatioOf(p), p.Members(), edges', ratios', u, v);
                SnapshotRatio(u, v, p.f);
                var ratio := functions[u].calls[v].events[CallRatio];
                ratios' := ratios'[v := (if v in ratios' then ratios'[v] else 0.0) + ratio];
                edges' := edges' + {(u, v)};
                ghost var before := visited';
                ratios', visited', edges' := CallRatiosCycle(cycle, v, ranks, ratios', visited', p, edges');
                UphillFromUnion(p, before - start, visited' - before);
                assert visited' - start == (before - start) + (visited' - before);
                seen := seen + {v};
              }
            } else {
              UphillWithin(p, u);
            }
          }
        }
        assert seen == p.Uphill(u);
        UphillFromMore(p, visited' - start, u);
        assert visited' - visited == (visited' - start) + {u};
      }
    }

    /** Adds one pass's part of the time of the cycle to `u` and to everything uphill of it;
        `partials` remembers the members that are finished. */
    method IntegrateCycleFunction(cycle: Cycle, u: FunctionId, share: real, partials: map<FunctionId, real>,
        ranks: Ranks, ratios: map<FunctionId, real>, out: Event, inn: Event, ghost p: Pass, ghost b: Books,
        ghost edges: set<Edge>)
      returns (partial: real, partials': map<FunctionId, real>, ghost edges': set<Edge>)
      requires Analysed() && p.Valid() && p.f.calls == CallGraph() && p.ranks == ranks && p.share == share
      requires u in p.Members() && u in functions && Carried(cycle, p.Members())
      requires PassInputs(b, p, out, inn) && Snapshot() == PassBooks(b, p, out, partials.Keys, edges)
      requires RatiosKnown(p, ratios) && PartialsKnown(p, partials) && EdgesOf(p, partials.Keys, edges, u)
      modifies functions.Values`events, CallObjects()`events
      ensures SameShape()
      ensures partials.Keys + {u} <= partials'.Keys && PartialsKnown(p, partials')
      ensures NewPartials(p, partials.Keys, partials'.Keys, u)
      ensures edges' == edges + UphillFrom(p, partials'.Keys - partials.Keys)
      ensures Snapshot() == PassBooks(b, p, out, partials'.Keys, edges')
      ensures partial == Partial(p, u)
      decreases p.Above(u), 3
    {
      hide Carried, Analysed, Snapshot, Wired, Component, CallGraph, CycleOf, CallObjects, CycleObjects, Reach, SumOf,
        CallsTo, UphillFrom, ShortestRanks, PassBooks, PassInputs, Partial, Passing, Outflow, Restrict, Moved,
        Accumulate, Times, Ratio, Stepping, EdgesOf, NewPartials, RatiosKnown, PartialsKnown, Pass.Uphill, Pass.Above,
        Pass.Valid;
      partials', edges' := partials, edges;
      NothingNew(p, partials.Keys, edges, u);
      if u !in partials {
        partial, partials', edges' :=
          IntegrateMemberCalls(cycle, u, share, partials, ranks, ratios, out, inn, p, b, edges);
        PassingKeys(p, u);
        StepFinish(p, partials.Keys, edges, partials'.Keys, edges', u, Passing(p, u).Keys);
        SteppingFresh(p, partials.Keys, edges, partials'.Keys, edges', u, Passing(p, u).Keys);
        RecordPartial(u, partial, out, inn, p, b, partials'.Keys, edges');
        ghost var ks := partials'.Keys;
        PartialsMore(p, partials', u);
        partials' := partials'[u := partial];
        assert partials'.Keys == ks + {u};
      }
      PartialKnown(p, partials', u);
      partial := partials'[u];
    }

    /** The loop over the calls of `u` in `IntegrateCycleFunction`. */
    method IntegrateMemberCalls(cycle: Cycle, u: FunctionId, share: real, partials: map<FunctionId, real>, ranks: Ranks,
        ratios: map<FunctionId, real>, out: Event, inn: Event, ghost p: Pass, ghost b: Books, ghost edges: set<Edge>)
      returns (partial: real, partials': map<FunctionId, real>, ghost edges': set<Edge>)
      requires Analysed() && p.Valid() && p.f.calls == CallGraph() && p.ranks == ranks && p.share == share
      requires u in p.Members() && u in functions && Carried(cycle, p.Members())
      requires PassInputs(b, p, out, inn) && Snapshot() == PassBooks(b, p, out, partials.Keys, edges)
      requires RatiosKnown(p, ratios) && PartialsKnown(p, partials) && EdgesOf(p, partials.Keys, edges, u)
      requires u !in partials
      modifies functions.Values`events, CallObjects()`events
      ensures SameShape()
      ensures PartialsKnown(p, partials')
      ensures Stepping(p, partials.Keys, edges, partials'.Keys, edges', u, Passing(p, u).Keys)
      ensures Snapshot() == PassBooks(b, p, out, partials'.Keys, edges')
      ensures partial == Partial(p, u)
      decreases p.Above(u), 2
    {
      hide Pass.Members, Flow.Valid, Carried, Analysed, Snapshot, Wired, Component, CallGraph, CycleOf, CallObjects,
        CycleObjects, Reach, SumOf, CallsTo, UphillFrom, ShortestRanks, PassBooks, PassInputs, Partial, Passing,
        Outflow, Restrict, Moved, Accumulate, Times, Ratio, Stepping, EdgesOf, NewPartials, RatiosKnown, PartialsKnown,
        Pass.Uphill, Pass.Above, Pass.Valid;
      partials', edges' := partials, edges;
      CallsOf(u);
      StepStart(p, partials.Keys, edges, u);
      PassingKeys(p, u);
      RestrictNone(Passing(p, u));
      partial := OwnPart(u, share, inn, out, p, b, partials.Keys, edges);
      var todo := functions[u].calls.Keys;
      ghost var seen: set<FunctionId> := {};
      while todo != {}
        invariant SameShape() && Carried(cycle, p.Members()) && todo <= p.f.calls[u]
        invariant seen == Passing(p, u).Keys - todo
        invariant PartialsKnown(p, partials') && Stepping(p, partials.Keys, edges, partials'.Keys, edges', u, seen)
        invariant Snapshot() == PassBooks(b, p, out, partials'.Keys, edges')
        invariant partial == Times(p.share, p.f.time[u]) + SumOf(Restrict(Passing(p, u), seen))
        decreases todo
      {
        var v :| v in todo;
        SeenMore(Passing(p, u).Keys, todo, v);
        todo := todo - {v};
        CallsOf(u);
        if v != u {
          RestrictMore(Passing(p, u), seen, v);
          var part: real;
          part, partials', edges' := IntegrateMemberCall(cycle, u, v, share, partials', ranks, ratios, out, inn, p, b,
              edges', partials.Keys, edges, seen);
          partial := partial + part;
          seen := seen + {v};
        }
      }
      assert seen == Passing(p, u).Keys;
      RestrictAll(Passing(p, u));
    }

    /** The part of its own time that `u` hands on. */
    method OwnPart(u: FunctionId, share: real, inn: Event, ghost out: Event, ghost p: Pass, ghost b: Books,
        ghost ks: set<FunctionId>, ghost edges: set<Edge>)
      returns (part: real)
      requires Analysed() && p.Valid() && u in p.Members() && u in functions && share == p.share
      requires PassInputs(b, p, out, inn) && Snapshot() == PassBooks(b, p, out, ks, edges)
      ensures Untouched() && u in p.f.time && part == Times(p.share, p.f.time[u])
    {
      hide Analysed, Snapshot, Wired, Component, Reach, PassBooks, PassInputs, Times, Pass.Valid, Pass.Members;
      AnalysedWired();
      SnapshotReads(u);
      PassFunctionReads(b, p, out, inn, ks, edges, u);
      part := Times(share, functions[u].events[inn]);
    }

    /** The step of a pass along one call of `u`: a call that leaves the cycle hands on its share, a
        call uphill what the pass moves along it, any other call nothing. */
    method IntegrateMemberCall(cycle: Cycle, u: FunctionId, v: FunctionId, share: real, partials: map<FunctionId, real>,
        ranks: Ranks, ratios: map<FunctionId, real>, out: Event, inn: Event, ghost p: Pass, ghost b: Books,
        ghost edges: set<Edge>, ghost ks0: set<FunctionId>, ghost edges0: set<Edge>, ghost seen: set<FunctionId>)
      returns (part: real, partials': map<FunctionId, real>, ghost edges': set<Edge>)
      requires Analysed() && p.Valid() && p.f.calls == CallGraph() && p.ranks == ranks && p.share == share
      requires u in p.Members() && u in functions && Carried(cycle, p.Members())
      requires v in p.f.calls[u] && v in functions[u].calls && v != u && v !in seen && PassInputs(b, p, out, inn)
      requires Snapshot() == PassBooks(b, p, out, partials.Keys, edges)
      requires RatiosKnown(p, ratios) && PartialsKnown(p, partials)
      requires Stepping(p, ks0, edges0, partials.Keys, edges, u, seen)
      modifies functions.Values`events, CallObjects()`events
      ensures SameShape() && Carried(cycle, p.Members())
      ensures PartialsKnown(p, partials') && Stepping(p, ks0, edges0, partials'.Keys, edges', u, seen + {v})
      ensures Snapshot() == PassBooks(b, p, out, partials'.Keys, edges')
      ensures v in Passing(p, u) && part == Passing(p, u)[v]
      decreases p.Above(u), 1
    {
      hide Carried, Analysed, Snapshot, Wired, Component, CallGraph, CycleOf, CallObjects, CycleObjects, Reach, SumOf,
        CallsTo, UphillFrom, ShortestRanks, PassBooks, PassInputs, Partial, Passing, Outflow, Restrict, Moved,
        Accumulate, Times, Ratio, Stepping, EdgesOf, NewPartials, RatiosKnown, PartialsKnown, Pass.Uphill, Pass.Above,
        Pass.Valid;
      part, partials', edges' := 0.0, partials, edges;
      AnalysedWired();
      SnapshotReads(u);
      CallsOf(u);
      PassCallReads(b, p, out, inn, partials.Keys, edges, u, v);
      PassingReads(p, u, v);
      CarriedAt(cycle, p.Members(), v);
      if functions[v].cycle != cycle {
        StepOutside(p, u, v);
        StepOther(p, ks0, edges0, partials.Keys, edges, u, seen, v);
        assert out in functions[u].calls[v].events;
        part := Times(share, functions[u].calls[v].events[out]);
      } else {
        UphillIff(p, u, v);
        if ranks[v] > ranks[u] {
          part, partials', edges' :=
            IntegrateUphill(cycle, u, v, share, partials, ranks, ratios, out, inn, p, b, edges, ks0, edges0, seen);
        } else {
          StepOther(p, ks0, edges0, partials.Keys, edges, u, seen, v);
        }
      }
    }

    /** Adds the finished partial time of `u` to its time over all passes. */
    method RecordPartial(u: FunctionId, partial: real, out: Event, inn: Event, ghost p: Pass, ghost b: Books,
        ghost ks: set<FunctionId>, ghost edges: set<Edge>)
      requires Analysed() && p.Valid() && u in p.Members() && u in functions && u !in ks
      requires PassInputs(b, p, out, inn) && Snapshot() == PassBooks(b, p, out, ks, edges) && partial == Partial(p, u)
      modifies functions.Values`events, CallObjects()`events
      ensures SameShape() && Snapshot() == PassBooks(b, p, out, ks + {u}, edges)
    {
      hide Analysed, Snapshot, Wired, Component, CallGraph, CycleOf, CallObjects, CycleObjects, Reach, SumOf,
        ShortestRanks, PassBooks, PassInputs, Partial, Passing, Accumulate;
      AnalysedWired();
      SnapshotReads(u);
      PassFunctionReads(b, p, out, inn, ks, edges, u);
      ghost var before := Snapshot();
      SetFunction(u, out, Accumulate(functions[u].events, out, partial));
      PassMember(b, p, out, ks, edges, u, before, Snapshot());
    }

    /** The step of a pass along one uphill call. */
    method IntegrateUphill(cycle: Cycle, u: FunctionId, v: FunctionId, share: real, partials: map<FunctionId, real>,
        ranks: Ranks, ratios: map<FunctionId, real>, out: Event, inn: Event, ghost p: Pass, ghost b: Books,
        ghost edges: set<Edge>, ghost ks0: set<FunctionId>, ghost edges0: set<Edge>, ghost seen: set<FunctionId>)
      returns (part: real, partials': map<FunctionId, real>, ghost edges': set<Edge>)
      requires Analysed() && p.Valid() && p.f.calls == CallGraph() && p.ranks == ranks && p.share == share
      requires u in p.Members() && u in functions && Carried(cycle, p.Members())
      requires v in p.Uphill(u) && v !in seen && PassInputs(b, p, out, inn)
      requires Snapshot() == PassBooks(b, p, out, partials.Keys, edges)
      requires RatiosKnown(p, ratios) && PartialsKnown(p, partials)
      requires Stepping(p, ks0, edges0, partials.Keys, edges, u, seen)
      modifies functions.Values`events, CallObjects()`events
      ensures SameShape()
      ensures PartialsKnown(p, partials') && Stepping(p, ks0, edges0, partials'.Keys, edges', u, seen + {v})
      ensures Snapshot() == PassBooks(b, p, out, partials'.Keys, edges')
      ensures part == Moved(p, u, v)
      decreases p.Above(u), 0
    {
      hide Carried, Analysed, Snapshot, Wired, Component, CallGraph, CycleOf, CallObjects, CycleObjects, Reach, SumOf,
        CallsTo, UphillFrom, ShortestRanks, PassBooks, PassInputs, Partial, Passing, Outflow, Moved, Accumulate, Times,
        Ratio, Stepping, EdgesOf, NewPartials, PartialsKnown;
      UphillSmaller(p, u, v);
      AboveShrinks(p, u, v);
      CallsOf(u);
      StepInto(p, ks0, edges0, partials.Keys, edges, u, seen, v);
      var calleePartial: real;
      calleePartial, partials', edges' :=
        IntegrateCycleFunction(cycle, v, share, partials, ranks, ratios, out, inn, p, b, edges);
      StepBack(p, ks0, edges0, partials.Keys, edges, partials'.Keys, u, seen, v);
      AnalysedWired();
      SnapshotReads(u);
      CallsOf(u);
      PassCallReads(b, p, out, inn, partials'.Keys, edges', u, v);
      RatioKnown(p, ratios, u, v);
      var ratio := Ratio(functions[u].calls[v].events[CallRatio], ratios[v]);
      part := Times(ratio, calleePartial);
      assert part == Moved(p, u, v);
      ghost var before := Snapshot();
      SetCall(u, v, out, Accumulate(functions[u].calls[v].events, out, part));
      PassCall(b, p, out, partials'.Keys, edges', u, v, before, Snapshot());
      edges' := edges' + {(u, v)};
    }

    /** One pass: ranks the members from the entry `e`, sums up the uphill ratios, and passes the
        entry's share of the time of the cycle on to the members. */
    method IntegratePass(cycle: Cycle, e: FunctionId, share: real, total: real, out: Event, inn: Event, ghost f: Flow,
        ghost b: Books, ghost c: set<FunctionId>, ghost es: set<FunctionId>, ghost es': set<FunctionId>)
      requires Analysed() && f.Valid() && f.calls == CallGraph() && OneComponent(f, c) && PassesAsserted(f)
      requires e in Entries(f.calls, c) && es <= es' <= c && es' == es + {e} && e !in es && e in functions
      requires functions[e].cycle == cycle
      requires Carried(cycle, c)
      requires CycleInputs(b, f, out, inn, c) && Rated(b, f) && Snapshot() == Passed(b, f, out, c, es)
      requires share == Inflow(f, f.calls.Keys, e) && total == InclusiveTime(f, e)
      modifies functions.Values`events, CallObjects()`events
      ensures SameShape()
      ensures Snapshot() == Passed(b, f, out, c, es')
    {
      hide Carried, Flow.Valid, PassesAsserted, Analysed, Snapshot, Wired, Component, CallGraph, CycleOf, CallObjects,
        CycleObjects, Reach, Walk, SumOf, UphillFrom, PassBooks, Passed, Partial, InclusiveTime, Inflow, Outflow, Times,
        RanksOf, Entries, CycleInputs, OneComponent, Tallied, ShortestRanks, PassInputs, Rated, RatiosKnown,
        PartialsKnown, EdgesOf, NewPartials, Inner;
      EntryInside(f, c, e);
      EntryAsserted(f, c, e);
      ghost var h, p := Inner(f.calls, c), PassOf(f, e);
      var none: map<FunctionId, real> := map[];
      StartRanks(f, c, e);
      CycleReadable(b, f, out, inn, c);
      PassedRated(b, f, out, c, es);
      var ranks := RankCycleFunction(cycle, e, 0, map[], h, e, {});
      RanksFound(f, c, e, ranks);
      PassInputsHold(b, f, out, inn, c, es, e);
      PassEmpty(p, none);
      PassStart(Passed(b, f, out, c, es), p, out, none);
      UphillFromMore(p, {}, e);
      var ratios, visited;
      ghost var edges;
      ratios, visited, edges := CallRatiosCycle(cycle, e, ranks, none, {}, p, {});
      VisitedAll(p, ratios, visited, edges);
      var partial, partials;
      partial, partials, edges :=
        IntegrateCycleFunction(cycle, e, share, none, ranks, ratios, out, inn, p, Passed(b, f, out, c, es), {});
      PassEnd(p, partials, none);
      PartialKnown(p, partials, e);
      assert partial in partials.Values && forall k :: k in partials ==> partials[k] <= partial;
      if total != 0.0 {
        assert Accepted(partial, Times(share, total));
      }
      MorePasses(b, f, out, inn, c, es, e);
      PassEdges(p, edges, partials.Keys, none);
    }

    lemma {:induction false} EntryAsserted(f: Flow, c: set<FunctionId>, e: FunctionId)
      requires Analysed() && f.Valid() && f.calls == CallGraph() && OneComponent(f, c) && PassesAsserted(f)
      requires e in Entries(f.calls, c) && e in functions && functions[e].cycle != null
      ensures PassOf(f, e).Valid() && Asserted(PassOf(f, e))
    {
      hide Reach, Asserted, Component, Wired;
      CycleIffRecursive(e);
      EntryInside(f, c, e);
    }

    method ZeroMembers(u: FunctionId, out: Event, ghost c: set<FunctionId>)
      requires Analysed() && u in functions && functions[u].cycle != null && c == Component(CallGraph(), u)
      modifies functions.Values`events
      ensures SameShape()
      ensures Snapshot() == Zeroed(old(Snapshot()), out, c)
    {
      hide Analysed, Snapshot, Wired, Component, CallGraph, CycleOf, CallObjects, CycleObjects, Reach, Zeroed;
      ghost var b := Snapshot();
      MemberIds(u);
      ComponentOf(u);
      AnalysedWired();
      SnapshotReads(u);
      ZeroedMore(b, out, {}, u);
      var todo := set m | m in functions[u].cycle.functions :: m.id;
      ghost var done: set<FunctionId> := {};
      while todo != {}
        invariant SameShape() && todo <= c && done == c - todo
        invariant Snapshot() == Zeroed(b, out, done)
        decreases todo
      {
        var m :| m in todo;
        SeenMore(c, todo, m);
        todo := todo - {m};
        InSnapshot(b, m);
        ZeroedMore(b, out, done, m);
        SetFunction(m, out, 0.0);
        done := done + {m};
      }
      assert done == c;
    }

    twostate lemma {:induction false} InSnapshot(b: Books, new m: FunctionId)
      requires b == old(Snapshot()) && functions == old(functions) && m in functions
      ensures m in b.functions
    {
    }

    /** Computes the times of a whole cycle, unless that has been done already. */
    method IntegrateNewCycle(u: FunctionId, out: Event, inn: Event, ghost f: Flow, ghost base: Books,
        ghost done: set<FunctionId>)
      returns (ghost done': set<FunctionId>)
      requires Analysed() && Settling(CallGraph(), f, base, out, inn, done) && Snapshot() == Settled(base, f, out, done)
      requires u in functions && Clean(base, out, f.calls, u) && functions[u].cycle != null && u !in done
      requires OneComponent(f, Component(f.calls, u))
      modifies functions.Values`events, CallObjects()`events, CycleObjects()`events
      ensures SameShape()
      ensures Settling(CallGraph(), f, base, out, inn, done') && Snapshot() == Settled(base, f, out, done')
      ensures done + Component(f.calls, u) <= done' <= done + Below(f.calls, u)
      decreases Below(CallGraph(), u), 5
    {
      hide Analysed, Settling, Settled, Clean, Snapshot, Wired, Outflow, InclusiveTime, Component, Recursive, Below,
        CallGraph, CycleOf, CallObjects, CycleObjects, Reach, Posted, Leaving, OneComponent, CycleBooks, CycleInputs,
        Rated, Entries, Passed, Zeroed, Inflow;
      SettlingValid(CallGraph(), f, base, out, inn, done);
      ghost var c := Component(f.calls, u);
      var total;
      total, done' := IntegrateMembers(u, out, inn, f, base, done);
      ghost var base1, s := Posted(base, f, out, Leaving(f, c)), Snapshot();
      SettlingValid(CallGraph(), f, base1, out, inn, done');
      ComponentOf(u);
      SetCycle(u, out, total);
      CycleBooksIs(s, out, c, total, Snapshot());
      CycleInputsHold(f, base, out, inn, done, done', c, u, s, total);
      SettledRated(f, base1, out, inn, done', Snapshot());
      ghost var b := Snapshot();
      var callees := EntryRatios(u, f);
      ZeroMembers(u, out, c);
      ZeroedIsPassed(b, f, out, c);
      RunPasses(u, callees, total, out, inn, f, b, c);
      CycleRecursive(u);
      EntriesInside(f.calls, c);
      SettleCycle(f, base, out, inn, done, done', c, u, s);
      done' := done' + c;
      BelowSelf(f.calls, u);
    }

    lemma {:induction false} CycleRecursive(u: FunctionId)
      requires Analysed() && u in functions && functions[u].cycle != null
      ensures forall m :: m in Component(CallGraph(), u) ==> Recursive(CallGraph(), m)
    {
      forall m | m in Component(CallGraph(), u)
        ensures Recursive(CallGraph(), m)
      {
        ComponentOf(u);
        CycleIffRecursive(m);
      }
    }

    /** The passes for all entries of the cycle of `u`, in any order. */
    method RunPasses(u: FunctionId, callees: map<FunctionId, real>, total: real, out: Event, inn: Event, ghost f: Flow,
        ghost b: Books, ghost c: set<FunctionId>)
      requires Analysed() && f.Valid() && f.calls == CallGraph() && OneComponent(f, c) && PassesAsserted(f)
      requires u in functions && functions[u].cycle != null && c == Component(f.calls, u)
      requires callees.Keys == Entries(f.calls, c) && forall e :: e in callees ==>
        callees[e] == Inflow(f, f.calls.Keys, e)
      requires CycleInputs(b, f, out, inn, c) && Rated(b, f) && Snapshot() == Passed(b, f, out, c, {})
      requires total == InclusiveTime(f, u)
      modifies functions.Values`events, CallObjects()`events
      ensures SameShape() && Entries(f.calls, c) <= c
      ensures Snapshot() == Passed(b, f, out, c, Entries(f.calls, c))
    {
      hide Analysed, Snapshot, Wired, InclusiveTime, Component, CallGraph, CycleOf, CallObjects, CycleObjects, Reach,
        OneComponent, CycleInputs, Rated, Entries, Passed, Inflow;
      var cycle := functions[u].cycle;
      CarriedByAll(u);
      EntriesInside(f.calls, c);
      ComponentOf(u);
      var todo := callees.Keys;
      ghost var es: set<FunctionId> := {};
      while todo != {}
        invariant SameShape() && todo <= callees.Keys && es == callees.Keys - todo
        invariant Snapshot() == Passed(b, f, out, c, es)
        decreases todo
      {
        var e :| e in todo;
        SeenMore(callees.Keys, todo, e);
        todo := todo - {e};
        InclusiveShared(f, u, e);
        IntegratePass(cycle, e, callees[e], total, out, inn, f, b, c, es, es + {e});
        es := es + {e};
      }
      assert es == Entries(f.calls, c);
    }

    lemma {:induction false} SnapshotRatio(u: FunctionId, v: FunctionId, f: Flow)
      requires Analysed() && f.calls == CallGraph() && Rated(Snapshot(), f) && u in functions && v in f.calls[u]
      requires v != u
      ensures v in functions[u].calls && (u, v) in f.ratio
      ensures CallRatio in functions[u].calls[v].events && functions[u].calls[v].events[CallRatio] == f.ratio[(u, v)]
    {
    }

    method IntegrateCall(u: FunctionId, v: FunctionId, out: Event, inn: Event, ghost f: Flow, ghost base: Books,
        ghost done: set<FunctionId>)
      returns (time: real, ghost done': set<FunctionId>)
      requires Analysed() && Settling(CallGraph(), f, base, out, inn, done) && Snapshot() == Settled(base, f, out, done)
      requires u in functions && u !in done && v in functions[u].calls && v in Outflow(f, u)
      requires Clean(base, out, f.calls, v) && (u, v) in base.calls && out !in base.calls[(u, v)]
      modifies functions.Values`events, CallObjects()`events, CycleObjects()`events
      ensures SameShape()
      ensures Settling(CallGraph(), f, Posted(base, f, out, {(u, v)}), out, inn, done')
      ensures Snapshot() == Settled(Posted(base, f, out, {(u, v)}), f, out, done')
      ensures done + Component(f.calls, v) <= done' <= done + Below(f.calls, v)
      ensures time == Outflow(f, u)[v]
      decreases Below(CallGraph(), v), 9
    {
      hide Flow.Valid, PassesAsserted, Analysed, Settling, Settled, Clean, Snapshot, Wired, Outflow, InclusiveTime,
        Component, Below, CallGraph, CycleOf, CallObjects, CycleObjects, Reach, Posted, Times;
      SettlingValid(CallGraph(), f, base, out, inn, done);
      AnalysedWired();
      CallFacts(f, u, v);
      var t: real;
      t, done' := IntegrateFunction(v, out, inn, f, base, done);
      assert v in functions[u].calls && out !in functions[u].calls[v].events && (u, v) in f.ratio
        && CallRatio in functions[u].calls[v].events && functions[u].calls[v].events[CallRatio] == f.ratio[(u, v)] by {
        AnalysedWired();
        SettlingValid(CallGraph(), f, base, out, inn, done');
        CallReads(f, base, out, inn, done', u, v);
        CallsOf(u);
        SnapshotReads(u);
      }
      var ratio := functions[u].calls[v].events[CallRatio];
      time := Times(ratio, t);
      assert ratio == f.ratio[(u, v)] && t == InclusiveTime(f, v);
      assert time == Outflow(f, u)[v];
      ghost var before := Snapshot();
      SetCall(u, v, out, time);
      PostOneSettled(f, base, out, inn, done', u, v, before, Snapshot());
    }

    /** The call flow that the events of the objects describe. */
    ghost function FlowOf(inn: Event): Flow
      reads this`functions, functions.Values`calls, functions.Values`cycle, functions.Values`events,
          CallObjects()`events, CycleObjects()`events
    {
      FlowIn(CallGraph(), Snapshot(), inn)
    }

    lemma {:induction false} AnalysedClosed()
      requires Analysed()
      ensures Wired() && Covering(CallGraph(), Snapshot()) && CallGraph().Keys == functions.Keys
    {
      hide Reach;
      forall u | u in functions
        ensures u in Snapshot().cycles <==> Recursive(CallGraph(), u)
      {
        CycleIffRecursive(u);
      }
    }

    // ----- ratios of the profile's totals -----

    /** Expresses the event `inn` of all functions and calls as a ratio of the profile's own. */
    method RatioEvents(out: Event, inn: Event)
      requires Keyed() && out != inn && out !in events && inn in events
      requires forall u :: u in FunctionEvents() ==> out !in FunctionEvents()[u] && inn in FunctionEvents()[u]
      requires forall e :: e in CallEvents() ==> out !in CallEvents()[e]
      modifies this`events, functions.Values`events, CallObjects()`events
      ensures FunctionEvents() == Scaled(old(FunctionEvents()), functions.Keys, out, inn, old(events[inn]))
      ensures CallEvents() ==
        Scaled(old(CallEvents()), CallsFrom(CallGraph(), functions.Keys), out, inn, old(events[inn]))
      ensures events == old(events)[out := 1.0]
      ensures CycleEvents() == old(CycleEvents()) && (old(Analysed()) ==> SameShape())
    {
      hide Analysed, CycleOf, CycleEvents, CycleObjects, Keyed, FunctionEvents, CallEvents, Scaled, CallGraph,
        CallObjects, CallsFrom, Ratio;
      ghost var events0 := events;
      ScaleEvents(out, inn, events[inn]);
      assert events == events0;
      PutOwn(out, 1.0);
    }

    method PutOwn(event: Event, value: real)
      modifies this`events
      ensures events == old(events)[event := value]
      ensures FunctionEvents() == old(FunctionEvents()) && CallEvents() == old(CallEvents())
      ensures CycleEvents() == old(CycleEvents()) && CallGraph() == old(CallGraph())
      ensures old(Analysed()) ==> SameShape()
    {
      hide FunctionEvents, CallEvents, CycleEvents, CallGraph, CallObjects, CycleObjects, CycleOf, Analysed;
      events := events[event := value];
    }

    method ScaleEvents(out: Event, inn: Event, total: real)
      requires Keyed() && out != inn
      requires forall u :: u in FunctionEvents() ==> out !in FunctionEvents()[u] && inn in FunctionEvents()[u]
      requires forall e :: e in CallEvents() ==> out !in CallEvents()[e]
      modifies functions.Values`events, CallObjects()`events
      ensures FunctionEvents() == Scaled(old(FunctionEvents()), functions.Keys, out, inn, total)
      ensures CallEvents() == Scaled(old(CallEvents()), CallsFrom(CallGraph(), functions.Keys), out, inn, total)
      ensures CycleEvents() == old(CycleEvents()) && (old(Analysed()) ==> SameShape())
    {
      hide Analysed, SameShape, CycleEvents, CycleObjects, Keyed, FunctionEvents, CallEvents, Scaled, CallGraph,
        CallObjects, CallsFrom, Ratio;
      ScaleAll(out, inn, total);
      OnlyRatios();
    }

    twostate lemma {:induction false} OnlyRatios()
      requires SameLinks() && SameCycleEvents()
      ensures CycleEvents() == old(CycleEvents()) && (old(Analysed()) ==> SameShape())
    {
      hide Analysed, CallGraph, CallEvents, FunctionEvents, CycleEvents;
      if old(Analysed()) {
        EventsOnly();
      }
      SameEvents();
    }

    method ScaleAll(out: Event, inn: Event, total: real)
      requires Keyed() && out != inn
      requires forall u :: u in FunctionEvents() ==> out !in FunctionEvents()[u] && inn in FunctionEvents()[u]
      requires forall e :: e in CallEvents() ==> out !in CallEvents()[e]
      modifies functions.Values`events, CallObjects()`events
      ensures FunctionEvents() == Scaled(old(FunctionEvents()), functions.Keys, out, inn, total)
      ensures CallEvents() == Scaled(old(CallEvents()), CallsFrom(CallGraph(), functions.Keys), out, inn, total)
    {
      hide Keyed, FunctionEvents, CallEvents, Scaled, CallGraph, CallObjects, CallsFrom, Ratio;
      ghost var functions0, calls0, g := FunctionEvents(), CallEvents(), CallGraph();
      CallsFromNone(g);
      ScaledNone(functions0, out, inn, total);
      ScaledNone(calls0, out, inn, total);
      var todo := functions.Keys;
      ghost var done: set<FunctionId> := {};
      while todo != {}
        invariant todo <= functions.Keys && done == functions.Keys - todo
        invariant FunctionEvents() == Scaled(functions0, done, out, inn, total)
        invariant CallEvents() == Scaled(calls0, CallsFrom(g, done), out, inn, total)
        decreases todo
      {
        var u :| u in todo;
        SeenMore(functions.Keys, todo, u);
        todo := todo - {u};
        CallsFromMore(g, done, u);
        ScaleFunction(u, out, inn, total, functions0, done, calls0, CallsFrom(g, done), CallsFrom(g, done + {u}));
        done := done + {u};
      }
      assert done == functions.Keys;
    }

    method ScaleFunction(u: FunctionId, out: Event, inn: Event, total: real, ghost functions0: map<FunctionId, Events>,
        ghost done: set<FunctionId>, ghost calls0: map<Edge, Events>, ghost edges: set<Edge>,
        ghost edges': set<Edge>)
      requires Keyed() && u in functions && out != inn && functions0.Keys == functions.Keys
      requires out !in functions0[u] && inn in functions0[u] && forall e :: e in calls0 ==> out !in calls0[e]
      requires u !in done && forall v :: (u, v) !in edges
      requires FunctionEvents() == Scaled(functions0, done, out, inn, total)
      requires CallEvents() == Scaled(calls0, edges, out, inn, total)
      requires edges' == edges + CallsTo(u, CallGraph()[u])
      modifies functions.Values`events, CallObjects()`events
      ensures FunctionEvents() == Scaled(functions0, done + {u}, out, inn, total)
      ensures CallEvents() == Scaled(calls0, edges', out, inn, total)
    {
      hide Keyed, FunctionEvents, CallEvents, Scaled, CallGraph, CallObjects, CallsTo, Ratio;
      ScaledMore(functions0, done, u, out, inn, total);
      EventsAt(u);
      assert out !in functions[u].events;
      PutFunction(u, out, Ratio(functions[u].events[inn], total));
      ScaleCalls(u, out, inn, total, calls0, edges, edges');
    }

    method ScaleCalls(u: FunctionId, out: Event, inn: Event, total: real, ghost calls0: map<Edge, Events>,
        ghost edges: set<Edge>, ghost edges': set<Edge>)
      requires Keyed() && u in functions && out != inn && edges' == edges + CallsTo(u, CallGraph()[u])
      requires (forall v :: (u, v) !in edges) && CallEvents() == Scaled(calls0, edges, out, inn, total) && forall e ::
        e in calls0 ==> out !in calls0[e]
      modifies CallObjects()`events
      ensures CallEvents() == Scaled(calls0, edges', out, inn, total)
      ensures FunctionEvents() == old(FunctionEvents())
    {
      hide Keyed, FunctionEvents, CallEvents, Scaled, CallGraph, CallObjects, CallsTo, Ratio;
      EventsAt(u);
      CallsToMore(u, {}, u);
      assert edges + CallsTo(u, {}) == edges;
      ghost var callees := CallGraph()[u];
      var todo := functions[u].calls.Keys;
      ghost var seen: set<FunctionId> := {};
      while todo != {}
        invariant todo <= callees && seen == callees - todo && FunctionEvents() == old(FunctionEvents())
        invariant CallEvents() == Scaled(calls0, edges + CallsTo(u, seen), out, inn, total)
        decreases todo
      {
        var v :| v in todo;
        SeenMore(callees, todo, v);
        todo := todo - {v};
        CallsToMore(u, seen, v);
        assert edges + CallsTo(u, seen + {v}) == edges + CallsTo(u, seen) + {(u, v)};
        ScaleCall(u, v, out, inn, total, calls0, edges + CallsTo(u, seen));
        seen := seen + {v};
      }
      assert seen == callees;
    }

    method ScaleCall(u: FunctionId, v: FunctionId, out: Event, inn: Event, total: real, ghost calls0: map<Edge, Events>,
        ghost edges: set<Edge>)
      requires Keyed() && u in functions && v in functions[u].calls && out != inn
      requires (u, v) !in edges && CallEvents() == Scaled(calls0, edges, out, inn, total) && forall e :: e in calls0 ==>
        out !in calls0[e]
      modifies CallObjects()`events
      ensures CallEvents() == Scaled(calls0, edges + {(u, v)}, out, inn, total)
      ensures FunctionEvents() == old(FunctionEvents())
    {
      hide Keyed, FunctionEvents, CallEvents, Scaled, CallGraph, CallObjects, Ratio;
      EventsAt(u);
      ScaledKeys(calls0, edges, out, inn, total);
      ScaledMore(calls0, edges, (u, v), out, inn, total);
      assert out !in functions[u].calls[v].events;
      if inn in functions[u].calls[v].events {
        PutCall(u, v, out, Ratio(functions[u].calls[v].events[inn], total));
      }
    }

    lemma {:induction false} EventsAt(u: FunctionId)
      requires u in functions
      ensures FunctionEvents()[u] == functions[u].events && CallGraph()[u] == functions[u].calls.Keys
      ensures forall v :: v in functions[u].calls ==>
        (u, v) in CallEvents() && CallEvents()[(u, v)] == functions[u].calls[v].events
    {
    }

    /** The total of an event over all functions. */
    method Aggregate(inn: Event, ghost f: Flow, ghost b: Books, ghost out: Event) returns (total: real)
      requires Analysed() && f.Valid() && f.calls == CallGraph() && b == Snapshot()
      requires Settling(f.calls, f, b, out, inn, {}) && Settled(b, f, out, {}) == b
      ensures Untouched()
      ensures total == SumOf(f.time)
    {
      hide Analysed, Snapshot, Wired, CallGraph, CycleOf, CallObjects, CycleObjects, Reach, SumOf, Settling, Settled,
        Restrict;
      total := 0.0;
      var todo := functions.Keys;
      ghost var seen: set<FunctionId> := {};
      RestrictNone(f.time);
      while todo != {}
        invariant Untouched() && todo <= functions.Keys && seen == functions.Keys - todo
        invariant total == SumOf(Restrict(f.time, seen))
        decreases todo
      {
        var u :| u in todo;
        SeenMore(functions.Keys, todo, u);
        todo := todo - {u};
        AnalysedWired();
        SnapshotReads(u);
        FunctionReads(f, b, out, inn, {}, u);
        RestrictMore(f.time, seen, u);
        total := total + functions[u].events[inn];
        seen := seen + {u};
      }
      assert seen == f.time.Keys;
      RestrictAll(f.time);
    }

    /** One round of the main loop: the self time of `u`, and the integration of everything below it. */
    method IntegrateFrom(u: FunctionId, out: Event, inn: Event, ghost f: Flow, ghost base: Books,
        ghost done: set<FunctionId>)
      returns (own: real, ghost done': set<FunctionId>)
      requires Analysed() && Settling(CallGraph(), f, base, out, inn, done) && Snapshot() == Settled(base, f, out, done)
      requires u in functions && Unintegrated(CallGraph(), base, out, inn) && u in f.time
      modifies functions.Values`events, CallObjects()`events, CycleObjects()`events
      ensures SameShape()
      ensures done' <= f.calls.Keys && Settling(CallGraph(), f, base, out, inn, done')
      ensures Snapshot() == Settled(base, f, out, done')
      ensures done + {u} <= done' && own == f.time[u]
    {
      hide Flow.Valid, PassesAsserted, Analysed, Snapshot, Wired, InclusiveTime, Component, CallGraph, CycleOf,
        CallObjects, CycleObjects, Reach, SumOf, Settling, Settled, Clean, Unintegrated, Below;
      SettlingValid(CallGraph(), f, base, out, inn, done);
      AnalysedWired();
      SnapshotReads(u);
      FunctionReads(f, base, out, inn, done, u);
      CleanAt(CallGraph(), base, out, inn, u);
      BelowSelf(f.calls, u);
      own := functions[u].events[inn];
      var time;
      time, done' := IntegrateFunction(u, out, inn, f, base, done);
      SettlingValid(CallGraph(), f, base, out, inn, done');
    }

    /** The main loop: integrates from every function, adding up all self times. */
    method IntegrateAll(out: Event, inn: Event, ghost f: Flow, ghost base: Books)
      returns (total: real, ghost done: set<FunctionId>)
      requires Analysed() && Settling(CallGraph(), f, base, out, inn, {})
      requires Snapshot() == base == Settled(base, f, out, {})
      requires Unintegrated(CallGraph(), base, out, inn)
      modifies functions.Values`events, CallObjects()`events, CycleObjects()`events
      ensures SameShape()
      ensures done == functions.Keys == f.calls.Keys && Settling(CallGraph(), f, base, out, inn, done)
      ensures Snapshot() == Settled(base, f, out, done)
      ensures total == SumOf(f.time)
    {
      hide Flow.Valid, PassesAsserted, Analysed, Snapshot, Wired, InclusiveTime, Component, CallGraph, CycleOf,
        CallObjects, CycleObjects, Reach, SumOf, Settling, Settled, Clean, Unintegrated, FlowIn, Restrict;
      SettlingKeys(CallGraph(), f, base, out, inn);
      total := 0.0;
      var todo := functions.Keys;
      ghost var seen: set<FunctionId> := {};
      done := {};
      RestrictNone(f.time);
      while todo != {}
        invariant SameShape() && todo <= functions.Keys && seen == functions.Keys - todo && seen <= done
        invariant Settling(CallGraph(), f, base, out, inn, done) && done <= f.calls.Keys
        invariant Snapshot() == Settled(base, f, out, done)
        invariant total == SumOf(Restrict(f.time, seen))
        decreases todo
      {
        var u :| u in todo;
        SeenMore(functions.Keys, todo, u);
        todo := todo - {u};
        RestrictMore(f.time, seen, u);
        var own: real;
        own, done := IntegrateFrom(u, out, inn, f, base, done);
        total := total + own;
        seen := seen + {u};
      }
      assert seen == f.time.Keys && done == functions.Keys;
      RestrictAll(f.time);
    }

    /** The first loop of `Integrate`: one total of the whole profile per cycle. */
    method AggregateCycles(inn: Event, ghost f: Flow, ghost b: Books, ghost out: Event)
      requires Analysed() && f.Valid() && f.calls == CallGraph() && b == Snapshot()
      requires Settling(f.calls, f, b, out, inn, {}) && Settled(b, f, out, {}) == b
      modifies this`events
      ensures Untouched()
      ensures events == if cycles == [] then old(events) else old(events)[inn := SumOf(f.time)]
    {
      hide Flow.Valid, Analysed, Snapshot, Wired, CallGraph, CycleOf, CallObjects, CycleObjects, Reach, SumOf, Settling,
        Settled;
      var i := 0;
      while i < |cycles|
        invariant 0 <= i <= |cycles| && Untouched()
        invariant events == if i == 0 then old(events) else old(events)[inn := SumOf(f.time)]
      {
        var sum := Aggregate(inn, f, b, out);
        events := events[inn := sum];
        i := i + 1;
      }
    }

    /** Propagates the event `inn` along the call graph into the event `out`.  The first loop
        leaves the total of the whole profile under `inn`, once per cycle. */
    method Integrate(out: Event, inn: Event)
      requires Analysed() && out != inn && out != CallRatio
      requires out !in events && Unintegrated(CallGraph(), Snapshot(), out, inn)
      requires PassesAsserted(FlowOf(inn))
      modifies this`events, functions.Values`events, CallObjects()`events, CycleObjects()`events
      ensures SameShape()
      ensures FlowOf(inn) == old(FlowOf(inn)) && old(FlowOf(inn)).Valid() && old(FlowOf(inn)).calls == CallGraph()
      ensures Snapshot() == Settled(old(Snapshot()), old(FlowOf(inn)), out, functions.Keys)
      ensures var total := SumOf(old(FlowOf(inn)).time);
        events == (if cycles == [] then old(events) else old(events)[inn := total])[out := total]
    {
      hide Flow.Valid, PassesAsserted, Analysed, Snapshot, Wired, InclusiveTime, Component, CallGraph, CycleOf,
        CallObjects, CycleObjects, Reach, SumOf, Settling, Settled, Clean, Unintegrated, FlowIn, Restrict;
      ghost var f, base, g := FlowOf(inn), Snapshot(), CallGraph();
      AnalysedClosed();
      StartIntegration(g, base, out, inn);
      AggregateCycles(inn, f, base, out);
      ghost var events0 := events;
      var total: real;
      ghost var done;
      total, done := IntegrateAll(out, inn, f, base);
      assert events == events0;
      events := events[out := total];
      FlowSettled(f, base, out, inn, done);
    }

    // ----- the derived events of a sampled profile -----

    lemma {:induction false} NewCycles()
      requires CyclesNew({})
      ensures forall u :: u in Snapshot().cycles ==> Snapshot().cycles[u] == map[]
    {
    }

    lemma {:induction false} CallEdges()
      ensures forall e :: e in CallEvents() ==> e.0 in CallGraph() && e.1 in CallGraph()[e.0]
      ensures Snapshot() == Books(FunctionEvents(), CallEvents(), CycleEvents())
    {
    }

    /** Every function, call and cycle carries its integrated time. */
    ghost predicate Integrated(f: Flow, out: Event)
      reads this`functions, functions.Values`calls, functions.Values`cycle
      reads functions.Values`events, CallObjects()`events, CycleObjects()`events
    {
      && f.Valid() && f.calls == CallGraph()
      && (forall u, v :: u in functions && v in functions[u].calls ==>
        && (out in functions[u].calls[v].events <==> HasCallOut(f, u, v))
        && (out in functions[u].calls[v].events ==> functions[u].calls[v].events[out] == CallTime(f, u, v)))
      && forall u :: u in functions ==>
        && out in functions[u].events && functions[u].events[out] == FunctionOut(f, u)
        && (functions[u].cycle != null ==>
          out in functions[u].cycle.events && functions[u].cycle.events[out] == InclusiveTime(f, u))
    }

    lemma {:induction false} SettledIntegrated(b: Books, f: Flow, out: Event)
      requires f.Valid() && f.calls == CallGraph() && Snapshot() == Settled(b, f, out, functions.Keys)
      requires forall e :: e in b.calls ==> out !in b.calls[e]
      ensures Integrated(f, out)
    {
      hide Reach, FunctionOut, CallTime, HasCallOut, InclusiveTime, Settled, Snapshot, CallObjects, CycleObjects;
      forall u, v | u in functions && v in functions[u].calls
        ensures out in functions[u].calls[v].events <==> HasCallOut(f, u, v)
        ensures out in functions[u].calls[v].events ==> functions[u].calls[v].events[out] == CallTime(f, u, v)
      {
        CallIntegrated(b, f, out, u, v);
      }
      forall u | u in functions
        ensures out in functions[u].events && functions[u].events[out] == FunctionOut(f, u)
        ensures functions[u].cycle != null ==>
          out in functions[u].cycle.events && functions[u].cycle.events[out] == InclusiveTime(f, u)
      {
        FunctionIntegrated(b, f, out, u);
      }
    }

    lemma {:induction false} FunctionIntegrated(b: Books, f: Flow, out: Event, u: FunctionId)
      requires f.Valid() && f.calls == CallGraph() && Snapshot() == Settled(b, f, out, functions.Keys) && u in functions
      ensures out in functions[u].events && functions[u].events[out] == FunctionOut(f, u)
      ensures functions[u].cycle != null ==>
        out in functions[u].cycle.events && functions[u].cycle.events[out] == InclusiveTime(f, u)
    {
      hide Reach, FunctionOut, InclusiveTime, SettledCalls;
      assert Snapshot().functions[u] == functions[u].events;
      assert functions[u].cycle != null ==> u in Snapshot().cycles && Snapshot().cycles[u] == functions[u].cycle.events;
    }

    lemma {:induction false} CallIntegrated(b: Books, f: Flow, out: Event, u: FunctionId, v: FunctionId)
      requires f.Valid() && f.calls == CallGraph() && Snapshot() == Settled(b, f, out, functions.Keys)
      requires (forall e :: e in b.calls ==> out !in b.calls[e]) && u in functions && v in functions[u].calls
      ensures out in functions[u].calls[v].events <==> HasCallOut(f, u, v)
      ensures out in functions[u].calls[v].events ==> functions[u].calls[v].events[out] == CallTime(f, u, v)
    {
      hide Reach, CallOut, HasCallOut, SettledFunctions, SettledCycles, FunctionEvents, CycleEvents;
      EventsAt(u);
      assert (u, v) in b.calls && Snapshot().calls[(u, v)] == functions[u].calls[v].events;
    }

    /** Time ratios from samples. */
    method DeriveTimeRatios(count: Event)
      requires Analysed() && CyclesNew({})
      requires Samples in events && TimeRatio !in events
      requires Sampled(FunctionEvents(), CallEvents(), count, events[Samples])
      modifies this`events, functions.Values`events, CallObjects()`events
      ensures SameShape() && Timed(CallGraph(), Snapshot(), count) && events == old(events)[TimeRatio := 1.0]
      ensures Snapshot().functions == Scaled(old(FunctionEvents()), CallGraph().Keys, TimeRatio, Samples,
          old(events[Samples]))
      ensures Snapshot().calls ==
        Scaled(old(CallEvents()), CallsFrom(CallGraph(), CallGraph().Keys), TimeRatio, Samples,
          old(events[Samples]))
    {
      hide Analysed, Snapshot, CyclesNew, CallGraph, CycleOf, CallObjects, CycleObjects, FunctionEvents, CallEvents,
        CycleEvents, Sampled, Scaled, Timed, Covering, SumOf, CallsFrom;
      ghost var functions0, calls0, total, g := FunctionEvents(), CallEvents(), events[Samples], CallGraph();
      SampledReady(functions0, calls0, count, total);
      EventsAtAll();
      CallEdges();
      NewCycles();
      AnalysedWired();
      RatioEvents(TimeRatio, Samples);
      AnalysedClosed();
      CallEdges();
      SampledTimed(g, functions0, calls0, CallsFrom(g, g.Keys), count, total, Snapshot());
    }

    /** Time ratios from samples and call ratios from counts: what the integration starts from. */
    method DeriveRatios(count: Event)
      requires Analysed() && CyclesNew({})
      requires Samples in events && TimeRatio !in events && TotalTimeRatio !in events
      requires Sampled(FunctionEvents(), CallEvents(), count, events[Samples])
      modifies this`events, functions.Values`events, CallObjects()`events
      ensures SameShape() && TotalTimeRatio !in events
      ensures Agree(old(FunctionEvents()), FunctionEvents()) && Agree(old(CallEvents()), CallEvents())
      ensures Samples in events && events[Samples] == old(events[Samples])
      ensures Unintegrated(CallGraph(), Snapshot(), TotalTimeRatio, TimeRatio)
      ensures FlowOf(TimeRatio) == old(DerivedFlow(CallGraph(), FunctionEvents(), CallEvents(), count, events[Samples]))
      ensures FlowOf(TimeRatio).Nonnegative()
      ensures old(PositiveCounts(CallEvents(), count)) ==> FlowOf(TimeRatio).Positive() && Balanced(FlowOf(TimeRatio))
      ensures FlowOf(TimeRatio).time ==
        TimeRatios(Scaled(old(FunctionEvents()), functions.Keys, TimeRatio, Samples, old(events[Samples])))
    {
      hide Analysed, Snapshot, CyclesNew, CallGraph, CycleOf, CallObjects, CycleObjects, FunctionEvents, CallEvents,
        CycleEvents, Sampled, Scaled, TimeRatios, Timed, Reach, Recursive, SumOf, CallsFrom, CountsIn, RatedBooks,
            FlowIn,
        Unintegrated, Balanced, Normalised, Flow.Valid, Flow.Nonnegative, Flow.Positive, PositiveCounts, CountsOf,
            Agree;
      ghost var functions0, calls0, total, g := FunctionEvents(), CallEvents(), events[Samples], CallGraph();
      SampledCount(functions0, calls0, count, total);
      GraphKeys();
      DeriveTimeRatios(count);
      ghost var b := Snapshot();
      TimedReady(g, b, count);
      CallEdges();
      CallRatios(count);
      CallEdges();
      TimedFlow(g, b, count);
      CountsKept(g, functions0, calls0, CallsFrom(g, g.Keys), count, total, b);
      RatiosAgree(functions0, calls0, g.Keys, CallsFrom(g, g.Keys), total, b, CountsIn(g, b, count));
    }

    lemma {:induction false} GraphKeys()
      ensures CallGraph().Keys == FunctionEvents().Keys == functions.Keys
    {
    }

    /** Time ratios from samples, call ratios from counts, total time ratios from both. */
    method DeriveTimes(count: Event)
      requires Analysed() && CyclesNew({})
      requires Samples in events && TimeRatio !in events && TotalTimeRatio !in events
      requires Sampled(FunctionEvents(), CallEvents(), count, events[Samples])
      requires PassesAsserted(DerivedFlow(CallGraph(), FunctionEvents(), CallEvents(), count, events[Samples]))
      modifies this`events, functions.Values`events, CallObjects()`events, CycleObjects()`events
      ensures SameShape() && FlowOf(TimeRatio).Valid() && FlowOf(TimeRatio).calls == CallGraph()
      ensures Agree(old(FunctionEvents()), FunctionEvents()) && Agree(old(CallEvents()), CallEvents())
      ensures Samples in events && events[Samples] == old(events[Samples])
      ensures FlowOf(TimeRatio) == old(DerivedFlow(CallGraph(), FunctionEvents(), CallEvents(), count, events[Samples]))
      ensures FlowOf(TimeRatio).Nonnegative()
      ensures old(PositiveCounts(CallEvents(), count)) ==> FlowOf(TimeRatio).Positive() && Balanced(FlowOf(TimeRatio))
      ensures FlowOf(TimeRatio).time ==
        TimeRatios(Scaled(old(FunctionEvents()), functions.Keys, TimeRatio, Samples, old(events[Samples])))
      ensures Integrated(FlowOf(TimeRatio), TotalTimeRatio)
      ensures TotalTimeRatio in events && events[TotalTimeRatio] == SumOf(FlowOf(TimeRatio).time)
    {
      hide Analysed, Snapshot, CyclesNew, CallGraph, CycleOf, CallObjects, CycleObjects, FunctionEvents, CallEvents,
        CycleEvents, Sampled, Scaled, TimeRatios, Reach, SumOf, FlowIn, Unintegrated, Settled, Balanced, Flow.Valid,
        Flow.Nonnegative, Flow.Positive, Integrated, PassesAsserted, PositiveCounts, DerivedFlow, Agree;
      ghost var functions0, calls0 := FunctionEvents(), CallEvents();
      DeriveRatios(count);
      CallEdges();
      ghost var g, f, rated := CallGraph(), FlowOf(TimeRatio), Snapshot();
      Integrate(TotalTimeRatio, TimeRatio);
      CallEdges();
      SettledAgree(rated, f, functions.Keys);
      AgreeTransitive(functions0, rated.functions, FunctionEvents());
      AgreeTransitive(calls0, rated.calls, CallEvents());
      UnintegratedCalls(g, rated, TotalTimeRatio, TimeRatio);
      SettledIntegrated(rated, f, TotalTimeRatio);
    }

    /** The events of the calls to defined functions. */
    ghost function KnownCallEvents(): map<Edge, Events>
      reads this`functions, functions.Values`calls, CallObjects()`events
    {
      map u, v | u in functions && v in functions[u].calls && v in functions :: (u, v) := functions[u].calls[v].events
    }

    /** The calls to defined functions. */
    ghost function KnownGraph(): Graph
      reads this`functions, functions.Values`calls
    {
      map u | u in functions :: functions[u].calls.Keys * functions.Keys
    }

    twostate lemma {:induction false} Validated()
      requires functions == old(functions) && forall u :: u in functions ==>
        functions[u].calls == Known(old(functions[u].calls))
      requires forall u, v :: u in functions && v in old(functions[u].calls) ==>
        old(functions[u].calls[v]).events == old(functions[u].calls[v].events)
      ensures CallEvents() == old(KnownCallEvents()) && CallObjects() <= old(CallObjects())
    {
      forall u, v | u in functions && v in functions[u].calls
        ensures functions[u].calls[v] in old(CallObjects()) && functions[u].calls[v] == old(functions[u].calls[v])
      {
        assert v in old(functions[u].calls);
      }
    }

    twostate lemma {:induction false} ValidatedGraph()
      requires functions == old(functions) && forall u :: u in functions ==>
        functions[u].calls == Known(old(functions[u].calls))
      ensures CallGraph() == old(KnownGraph())
    {
      forall u | u in functions
        ensures CallGraph()[u] == old(KnownGraph())[u]
      {
      }
    }

    /** No share is negative or exceeds one, and no call carries more than its callee. */
    ghost predicate SharesBounded(f: Flow)
      reads this`functions, functions.Values`calls, functions.Values`events, CallObjects()`events
    {
      && f.Valid() && f.calls.Keys == functions.Keys
      && (forall u :: u in functions ==>
        && TotalTimeRatio in functions[u].events
        && 0.0 <= functions[u].events[TotalTimeRatio] <= InclusiveTime(f, u) <= 1.0)
      && (forall u, v :: u in functions && v in functions[u].calls && TotalTimeRatio in functions[u].calls[v].events ==>
        v in functions && 0.0 <= functions[u].calls[v].events[TotalTimeRatio] <= functions[v].events[TotalTimeRatio])
    }

    /** Every function, call and cycle carries its share of the total time. */
    ghost predicate SharesKnown()
      reads this`functions, this`events, functions.Values`calls, functions.Values`cycle
      reads functions.Values`events, CallObjects()`events, CycleObjects()`events
    {
      && Integrated(FlowOf(TimeRatio), TotalTimeRatio) && SharesBounded(FlowOf(TimeRatio))
      && SumOf(FlowOf(TimeRatio).time) == SumOf(ComponentTimes(FlowOf(TimeRatio), Roots(CallGraph()))) == 1.0
      && TotalTimeRatio in events && events[TotalTimeRatio] == 1.0
    }

    method DeriveShares(count: Event)
      requires Analysed() && CyclesNew({})
      requires Samples in events && TimeRatio !in events && TotalTimeRatio !in events
      requires Sampled(FunctionEvents(), CallEvents(), count, events[Samples])
      requires PassesAsserted(DerivedFlow(CallGraph(), FunctionEvents(), CallEvents(), count, events[Samples]))
      modifies this`events, functions.Values`events, CallObjects()`events, CycleObjects()`events
      ensures SameShape() && Integrated(FlowOf(TimeRatio), TotalTimeRatio)
      ensures Agree(old(FunctionEvents()), FunctionEvents()) && Agree(old(CallEvents()), CallEvents())
      ensures Samples in events && events[Samples] == old(events[Samples])
      ensures FlowOf(TimeRatio) == old(DerivedFlow(CallGraph(), FunctionEvents(), CallEvents(), count, events[Samples]))
      ensures TotalTimeRatio in events && events[TotalTimeRatio] == SumOf(FlowOf(TimeRatio).time)
      ensures old(NonnegativeSamples(FunctionEvents())) ==>
        (events[TotalTimeRatio] == 1.0 <==> old(events[Samples]) > 0.0 || |functions| == 1)
      ensures old(NonnegativeSamples(FunctionEvents()) && events[Samples] > 0.0) ==>
        old(PositiveCounts(CallEvents(), count)) ==>
        SharesKnown() && FlowOf(TimeRatio).time == SharesOf(old(FunctionEvents()), old(events[Samples]))
    {
      hide Analysed, SameShape, Snapshot, CallGraph, CallObjects, CycleObjects, FunctionEvents, CallEvents, Sampled,
        Scaled, TimeRatios, Reach, SumOf, FlowIn, Balanced, Flow.Valid, Flow.Nonnegative, Flow.Positive, Integrated,
        CyclesNew, SharesKnown, DerivedFlow, PassesAsserted, NonnegativeSamples, PositiveCounts, Agree;
      ghost var functions0, calls0, total := FunctionEvents(), CallEvents(), events[Samples];
      EventsAtAll();
      DeriveTimes(count);
      IntegratedReads(FlowOf(TimeRatio), TotalTimeRatio);
      SameSize(functions0);
      if NonnegativeSamples(functions0) {
        SampledTotalIff(functions0, calls0, count, total,
            Scaled(functions0, functions.Keys, TimeRatio, Samples, total));
        if PositiveCounts(calls0, count) && total > 0.0 {
          SharesFollow(functions0, calls0, count, total);
        }
      }
    }

    lemma {:induction false} SharesFollow(functions0: map<FunctionId, Events>, calls0: map<Edge, Events>, count: Event,
        total: real)
      requires functions0.Keys == functions.Keys && Sampled(functions0, calls0, count, total)
      requires NonnegativeSamples(functions0) && total > 0.0
      requires FlowOf(TimeRatio).Valid() && FlowOf(TimeRatio).Nonnegative() && FlowOf(TimeRatio).Positive()
      requires Balanced(FlowOf(TimeRatio))
      requires FlowOf(TimeRatio).time == TimeRatios(Scaled(functions0, functions.Keys, TimeRatio, Samples, total))
      requires Integrated(FlowOf(TimeRatio), TotalTimeRatio)
      requires TotalTimeRatio in events && events[TotalTimeRatio] == SumOf(FlowOf(TimeRatio).time)
      ensures SharesKnown() && FlowOf(TimeRatio).time == SharesOf(functions0, total)
    {
      hide Snapshot, CallGraph, CallObjects, CycleObjects, Sampled, Scaled, TimeRatios, Reach, SumOf, FlowIn, Balanced,
        Flow.Valid, Flow.Nonnegative, Flow.Positive, Integrated, FunctionOut, CallTime, HasCallOut, InclusiveTime,
        ComponentTimes, SharesBounded;
      IntegratedReads(FlowOf(TimeRatio), TotalTimeRatio);
      SampledTotal(functions0, calls0, count, total, Scaled(functions0, functions.Keys, TimeRatio, Samples, total));
      FlowBounds(FlowOf(TimeRatio), 1.0);
      SharesFollowBounds(FlowOf(TimeRatio));
      assert FlowOf(TimeRatio).time == SharesOf(functions0, total);
    }

    lemma {:induction false} SharesFollowBounds(f: Flow)
      requires f.Valid() && Integrated(f, TotalTimeRatio)
      requires forall u :: u in f.calls ==> 0.0 <= FunctionOut(f, u) <= InclusiveTime(f, u) <= 1.0
      requires forall u, v :: u in f.calls && v in f.calls ==> 0.0 <= CallTime(f, u, v) <= FunctionOut(f, v)
      ensures SharesBounded(f)
    {
      hide Integrated, CallGraph, Flow.Valid, FunctionOut, CallTime, InclusiveTime, CallObjects, CycleObjects;
      IntegratedReads(f, TotalTimeRatio);
      forall u | u in functions
        ensures TotalTimeRatio in functions[u].events
        ensures u in f.calls && 0.0 <= functions[u].events[TotalTimeRatio] <= InclusiveTime(f, u) <= 1.0
      {
        assert functions[u].events[TotalTimeRatio] == FunctionOut(f, u);
      }
      forall u, v | u in functions && v in functions[u].calls && TotalTimeRatio in functions[u].calls[v].events
        ensures v in functions
        ensures 0.0 <= functions[u].calls[v].events[TotalTimeRatio] <= functions[v].events[TotalTimeRatio]
      {
        assert u in f.calls && v in f.calls;
        assert 0.0 <= CallTime(f, u, v) <= FunctionOut(f, v);
      }
    }

    lemma {:induction false} SameSize(m: map<FunctionId, Events>)
      requires m.Keys == functions.Keys
      ensures |m| == |functions|
    {
      assert |m| == |m.Keys| && |functions| == |functions.Keys|;
    }

    /** Finds the cycles of a profile that has none yet. */
    method FindAll(ghost known: set<Cycle>)
      requires Wired() && forall u :: u in functions ==> functions[u].cycle == null
      modifies this`cycles, functions.Values`cycle
      ensures Analysed() && CyclesNew({}) && forall c :: c in CycleObjects() ==> c !in known
      ensures FunctionEvents() == old(FunctionEvents()) && CallEvents() == old(CallEvents())
      ensures CallObjects() == old(CallObjects()) && CallGraph() == old(CallGraph())
    {
      hide Wired, Analysed, CyclesNew, CallGraph, CycleOf, CallObjects, CycleObjects, FunctionEvents, CallEvents,
        Labelled,
        CyclesListed;
      NoCyclesYet(known);
      FindCycles(known);
      EventsKept();
      BecomesAnalysed(known);
    }

    /** Deletes invalid calls and finds the cycles of a profile that has none yet. */
    method Prepare(ghost known: set<Cycle>)
      requires Keyed() && forall u :: u in functions ==> functions[u].cycle == null
      modifies this`cycles, functions.Values`calls, functions.Values`cycle
      ensures Analysed() && CyclesNew({}) && forall c :: c in CycleObjects() ==> c !in known
      ensures forall u :: u in functions ==> functions[u].calls == Known(old(functions[u].calls))
      ensures FunctionEvents() == old(FunctionEvents()) && CallEvents() == old(KnownCallEvents())
      ensures CallObjects() <= old(CallObjects())
      ensures CallGraph() == old(KnownGraph())
    {
      hide Keyed, Wired, Analysed, CyclesNew, CallGraph, CycleOf, CallObjects, CycleObjects, FunctionEvents, CallEvents,
        Known, KnownCallEvents, KnownGraph, Labelled, CyclesListed;
      Validate();
      Validated();
      ValidatedGraph();
      FindAll(known);
    }

    /** The derived events of a sampled profile: invalid calls are deleted, cycles found, and the
        shares of the total time computed for every function, call and cycle. */
    method DeriveEvents(count: Event)
      requires Keyed() && forall u :: u in functions ==> functions[u].cycle == null
      requires Samples in events && TimeRatio !in events && TotalTimeRatio !in events
      requires Sampled(FunctionEvents(), KnownCallEvents(), count, events[Samples])
      requires PassesAsserted(DerivedFlow(KnownGraph(), FunctionEvents(), KnownCallEvents(), count, events[Samples]))
      modifies this, functions.Values, CallObjects()`events
      ensures functions == old(functions) && Analysed()
      ensures forall u :: u in functions ==> functions[u].calls == Known(old(functions[u].calls))
      ensures Agree(old(FunctionEvents()), FunctionEvents()) && Agree(old(KnownCallEvents()), CallEvents())
      ensures Samples in events && events[Samples] == old(events[Samples])
      ensures FlowOf(TimeRatio) ==
        old(DerivedFlow(KnownGraph(), FunctionEvents(), KnownCallEvents(), count, events[Samples]))
      ensures Integrated(FlowOf(TimeRatio), TotalTimeRatio)
      ensures TotalTimeRatio in events && events[TotalTimeRatio] == SumOf(FlowOf(TimeRatio).time)
      ensures old(NonnegativeSamples(FunctionEvents())) ==>
        (events[TotalTimeRatio] == 1.0 <==> old(events[Samples]) > 0.0 || |functions| == 1)
      ensures old(NonnegativeSamples(FunctionEvents()) && events[Samples] > 0.0) ==>
        old(PositiveCounts(KnownCallEvents(), count)) ==>
        SharesKnown() && FlowOf(TimeRatio).time == SharesOf(old(FunctionEvents()), old(events[Samples]))
    {
      hide Keyed, Wired, Analysed, CyclesNew, CallGraph, KnownGraph, CycleOf, CallObjects, CycleObjects, FunctionEvents,
        CallEvents, KnownCallEvents, Sampled, SharesKnown, FlowIn, Snapshot, Integrated, Flow.Valid, DerivedFlow,
        PassesAsserted, NonnegativeSamples, PositiveCounts, Agree;
      ghost var known := set c: Cycle {:trigger c.functions} | allocated(c);
      Prepare(known);
      DeriveShares(count);
    }

    twostate lemma {:induction false} EventsKept()
      requires functions == old(functions) && forall u :: u in functions ==>
        functions[u].calls == old(functions[u].calls)
      requires SameFunctionEvents() && SameCallEvents()
      ensures FunctionEvents() == old(FunctionEvents()) && CallEvents() == old(CallEvents())
    {
    }

    lemma {:induction false} EventsAtAll()
      ensures FunctionEvents().Keys == functions.Keys && forall u :: u in functions ==>
        FunctionEvents()[u] == functions[u].events
    {
    }

    lemma {:induction false} NoCyclesYet(known: set<Cycle>)
      requires forall u :: u in functions ==> functions[u].cycle == null
      ensures CycleOf() == NoLabels() && CyclesNew(known)
    {
    }

    lemma {:induction false} BecomesAnalysed(known: set<Cycle>)
      requires Wired() && Labelled(NoLabels(), functions.Keys) && CyclesListed() && CyclesNew(known)
      ensures Analysed() && CyclesNew({}) && forall c :: c in CycleObjects() ==> c !in known
    {
    }

    lemma {:induction false} IntegratedReads(f: Flow, out: Event)
      requires Integrated(f, out)
      ensures f.Valid() && f.calls == CallGraph() && f.calls.Keys == functions.Keys
      ensures forall u :: u in functions ==> out in functions[u].events && functions[u].events[out] == FunctionOut(f, u)
      ensures forall u, v :: u in functions && v in functions[u].calls && out in functions[u].calls[v].events ==>
        v in functions && functions[u].calls[v].events[out] == CallTime(f, u, v)
    {
      hide Reach, FunctionOut, CallTime, HasCallOut, InclusiveTime;
      forall u, v | u in functions && v in functions[u].calls
        ensures v in functions
      {
        assert v in f.calls[u];
      }
    }

    // ----- pruning -----

    /** Deletes the functions and calls whose share of the total time is known to be too small, and
        the calls of deleted functions. */
    method Prune(nodeThreshold: real, edgeThreshold: real)
      requires Wired()
      modifies this`functions, functions.Values`calls, functions.Values`events, CallObjects()`events
      ensures Wired() && functions.Keys <= old(functions.Keys) && forall u :: u in functions ==>
        functions[u] == old(functions[u])
      ensures FunctionEvents() == PrunedFunctions(old(FunctionEvents()), nodeThreshold)
      ensures CallEvents() == PrunedCalls(old(FunctionEvents()), old(CallEvents()), nodeThreshold, edgeThreshold)
    {
      hide Keyed, Wired, FunctionEvents, CallEvents, CallObjects, Lasting, MarkedFunctions, MarkedCalls,
        SignificantFunctions, SignificantCalls;
      ghost var fs, cs := FunctionEvents(), CallEvents();
      MarkAll();
      WiredKeyed();
      DropFunctions(nodeThreshold);
      FromSignificant(MarkedFunctions(fs), MarkedCalls(fs, cs), functions.Keys, nodeThreshold, edgeThreshold);
      DropCalls(edgeThreshold);
    }

    /** The second loop of `Prune`. */
    method DropFunctions(threshold: real)
      requires Keyed()
      modifies this`functions
      ensures Keyed() && functions == map u | u in old(functions) &&
        !Insignificant(old(functions[u].events), threshold) :: old(functions[u])
      ensures FunctionEvents() == SignificantFunctions(old(FunctionEvents()), threshold)
      ensures CallEvents() == map e | e in old(CallEvents()) && e.0 in functions :: old(CallEvents())[e]
    {
      hide Keyed, FunctionEvents, CallEvents, Insignificant, SignificantFunctions;
      var todo := functions.Keys;
      while todo != {}
        invariant todo <= functions.Keys <= old(functions.Keys)
        invariant forall u :: u in old(functions) ==>
          (u in functions <==> u in todo || !Insignificant(old(functions[u].events), threshold))
        invariant forall u :: u in functions ==> functions[u] == old(functions[u])
        decreases todo
      {
        var u :| u in todo;
        todo := todo - {u};
        if Insignificant(functions[u].events, threshold) {
          functions := functions - {u};
        }
      }
      FunctionsDropped(threshold);
    }

    twostate lemma {:induction false} FunctionsDropped(threshold: real)
      requires old(Keyed()) && functions == map u | u in old(functions) &&
        !Insignificant(old(functions[u].events), threshold) :: old(functions[u])
      requires forall u :: u in functions ==>
        functions[u].events == old(functions[u].events) && functions[u].calls == old(functions[u].calls)
      requires forall u, v :: u in functions && v in functions[u].calls ==>
        functions[u].calls[v].events == old(functions[u].calls[v].events)
      ensures Keyed() && FunctionEvents() == SignificantFunctions(old(FunctionEvents()), threshold)
      ensures CallEvents() == map e | e in old(CallEvents()) && e.0 in functions :: old(CallEvents())[e]
    {
    }

    /** The calls to functions that are still there and are not known to be too cheap. */
    ghost function Lasting(calls: map<FunctionId, Call>, threshold: real): map<FunctionId, Call>
      reads this`functions, calls.Values`events
    {
      map v | v in calls && v in functions && !Insignificant(calls[v].events, threshold) :: calls[v]
    }

    /** The third loop of `Prune`. */
    method DropCalls(threshold: real)
      requires Keyed()
      modifies functions.Values`calls
      ensures Wired() && FunctionEvents() == old(FunctionEvents())
      ensures CallEvents() == SignificantCalls(FunctionEvents(), old(CallEvents()), threshold)
    {
      hide Lasting, Keyed, Wired, FunctionEvents, CallEvents, SignificantCalls;
      var todo := functions.Keys;
      while todo != {}
        invariant todo <= functions.Keys && Keyed()
        invariant forall u :: u in functions && u in todo ==> functions[u].calls == old(functions[u].calls)
        invariant forall u :: u in functions && u !in todo ==>
          functions[u].calls == Lasting(old(functions[u].calls), threshold)
        decreases todo
      {
        var u :| u in todo;
        todo := todo - {u};
        KeyedAt(u);
        label before:
        DropCallsOf(functions[u], threshold);
        FewerCalls@before(u, threshold);
      }
      CallsDropped(threshold);
    }

    twostate lemma {:induction false} FewerCalls(u: FunctionId, new threshold: real)
      requires old(Keyed()) && functions == old(functions) && u in functions
      requires functions[u].calls == Lasting(old(functions[u].calls), threshold)
      requires forall w :: w in functions && w != u ==> functions[w].calls == old(functions[w].calls)
      ensures Keyed()
    {
    }

    method DropCallsOf(caller: Function, threshold: real)
      modifies caller`calls
      ensures caller.calls == Lasting(old(caller.calls), threshold)
    {
      var callees := caller.calls.Keys;
      while callees != {}
        invariant callees <= caller.calls.Keys <= old(caller.calls).Keys
        invariant forall v :: v in old(caller.calls) && v !in callees ==>
          (v in caller.calls <==> v in functions && !Insignificant(old(caller.calls[v]).events, threshold))
        invariant forall v :: v in caller.calls ==> caller.calls[v] == old(caller.calls[v])
        decreases callees
      {
        var v :| v in callees;
        callees := callees - {v};
        if v !in functions || Insignificant(caller.calls[v].events, threshold) {
          caller.calls := caller.calls - {v};
        }
      }
    }

    twostate lemma {:induction false} CallsDropped(threshold: real)
      requires Keyed() && functions == old(functions) && forall u :: u in functions ==>
        functions[u].calls == Lasting(old(functions[u].calls), threshold)
      requires SameFunctionEvents()
      requires forall u, v :: u in functions && v in old(functions[u].calls) ==>
        old(functions[u].calls[v]).events == old(functions[u].calls[v].events)
      ensures Wired() && FunctionEvents() == old(FunctionEvents())
      ensures CallEvents() == SignificantCalls(FunctionEvents(), old(CallEvents()), threshold)
    {
      hide FunctionEvents, Insignificant, CallEvents, Lasting, SignificantCalls;
      SameFunctions();
      forall u | u in functions
        ensures forall v :: v in functions[u].calls <==>
          v in old(functions[u].calls) && v in functions && !Insignificant(old(functions[u].calls[v].events), threshold)
        ensures forall v :: v in functions[u].calls ==>
          functions[u].calls[v].events == old(functions[u].calls[v].events)
      {
        LastingAt(old(functions[u].calls), threshold);
      }
      SignificantCallEvents(threshold);
    }

    lemma {:induction false} LastingAt(calls: map<FunctionId, Call>, threshold: real)
      ensures forall v :: v in Lasting(calls, threshold) <==>
        v in calls && v in functions && !Insignificant(calls[v].events, threshold)
      ensures forall v :: v in Lasting(calls, threshold) ==> Lasting(calls, threshold)[v] == calls[v]
    {
    }

    twostate lemma {:induction false} CallEventsAt(u: FunctionId, new v: FunctionId)
      ensures (u, v) in CallEvents() <==> u in functions && v in functions[u].calls
      ensures (u, v) in CallEvents() ==> CallEvents()[(u, v)] == functions[u].calls[v].events
      ensures (u, v) in old(CallEvents()) <==> u in old(functions) && v in old(functions[u].calls)
      ensures (u, v) in old(CallEvents()) ==> old(CallEvents())[(u, v)] == old(functions[u].calls[v].events)
    {
    }

    twostate lemma {:induction false} SignificantCallEvents(threshold: real)
      requires functions == old(functions)
      requires forall u, v :: u in functions ==>
        (v in functions[u].calls <==>
          v in old(functions[u].calls) && v in functions &&
            !Insignificant(old(functions[u].calls[v].events), threshold))
      requires forall u, v :: u in functions && v in functions[u].calls ==>
        v in old(functions[u].calls) && functions[u].calls[v].events == old(functions[u].calls[v].events)
      ensures CallEvents() == SignificantCalls(FunctionEvents(), old(CallEvents()), threshold)
    {
      hide Insignificant, CallEvents, SignificantCalls;
      var kept, all := CallEvents(), old(CallEvents());
      forall e: Edge
        ensures e in kept <==> e in all && e.0 in functions && e.1 in functions && !Insignificant(all[e], threshold)
        ensures e in kept ==> kept[e] == all[e]
      {
        assert e == (e.0, e.1);
        CallEventsAt(e.0, e.1);
      }
      SignificantIs(FunctionEvents(), all, kept, threshold);
    }

    twostate lemma {:induction false} SameFunctions()
      requires SameFunctionEvents()
      ensures FunctionEvents() == old(FunctionEvents())
    {
    }

    /** The first loop of `Prune`: the ratios by which functions and calls are judged. */
    method MarkAll()
      requires Wired()
      modifies functions.Values`events, CallObjects()`events
      ensures FunctionEvents() == MarkedFunctions(old(FunctionEvents()))
      ensures CallEvents() == MarkedCalls(old(FunctionEvents()), old(CallEvents()))
    {
      hide Keyed, Wired, FunctionEvents, CallEvents, CallGraph, CallObjects, CallsFrom, MarkingFunctions, MarkingCalls,
        MarkedFunctions, MarkedCalls;
      WiredKeyed();
      ghost var fs, cs, g := FunctionEvents(), CallEvents(), CallGraph();
      CallsFromNone(g);
      MarkingStart(fs, cs);
      var todo := functions.Keys;
      ghost var done: set<FunctionId> := {};
      while todo != {}
        invariant todo <= functions.Keys && done == functions.Keys - todo
        invariant FunctionEvents() == MarkingFunctions(fs, done)
        invariant CallEvents() == MarkingCalls(fs, cs, CallsFrom(g, done))
        decreases todo
      {
        var u :| u in todo;
        SeenMore(functions.Keys, todo, u);
        todo := todo - {u};
        CallsFromMore(g, done, u);
        MarkOne(u, fs, cs, done, CallsFrom(g, done));
        done := done + {u};
      }
      assert done == functions.Keys;
      MarkingCallKeys(fs, cs, CallsFrom(g, done));
      AllCallsMarked(fs, cs);
    }

    lemma {:induction false} WiredKeyed()
      requires Wired()
      ensures Keyed() && Closed(CallGraph()) && CallGraph().Keys == functions.Keys
    {
    }

    lemma {:induction false} AllCallsMarked(fs: map<FunctionId, Events>, cs: map<Edge, Events>)
      requires Wired() && fs.Keys == functions.Keys && cs.Keys == CallEvents().Keys
      ensures MarkingFunctions(fs, functions.Keys) == MarkedFunctions(fs)
      ensures MarkingCalls(fs, cs, CallsFrom(CallGraph(), functions.Keys)) == MarkedCalls(fs, cs)
    {
      hide MarkingFunctions, MarkingCalls, MarkedFunctions, MarkedCalls;
      MarkingEnd(fs, cs, CallsFrom(CallGraph(), functions.Keys));
    }

    method MarkOne(u: FunctionId, ghost fs: map<FunctionId, Events>, ghost cs: map<Edge, Events>,
        ghost done: set<FunctionId>, ghost edges: set<Edge>)
      requires Wired() && u in functions && u !in done && (forall v :: (u, v) !in edges) && fs.Keys == functions.Keys
      requires FunctionEvents() == MarkingFunctions(fs, done) && CallEvents() == MarkingCalls(fs, cs, edges)
      modifies functions.Values`events, CallObjects()`events
      ensures FunctionEvents() == MarkingFunctions(fs, done + {u})
      ensures CallEvents() == MarkingCalls(fs, cs, edges + CallsTo(u, CallGraph()[u]))
    {
      hide Wired, FunctionEvents, CallEvents, CallGraph, CallObjects, CallsTo, MarkingFunctions, MarkingCalls;
      MarkFunction(u, fs, done);
      MarkCallsOf(u, fs, cs, done + {u}, edges);
    }

    method MarkFunction(u: FunctionId, ghost fs: map<FunctionId, Events>, ghost done: set<FunctionId>)
      requires Wired() && u in functions && u !in done && fs.Keys == functions.Keys
      requires FunctionEvents() == MarkingFunctions(fs, done)
      modifies functions.Values`events
      ensures FunctionEvents() == MarkingFunctions(fs, done + {u}) && CallEvents() == old(CallEvents())
    {
      hide Keyed, Wired, FunctionEvents, CallEvents, MarkingFunctions;
      WiredKeyed();
      EventsAt(u);
      MarkingFunction(fs, done, u);
      if TotalTimeRatio in functions[u].events {
        PutFunction(u, PruneRatio, functions[u].events[TotalTimeRatio]);
      }
    }

    method MarkCallsOf(u: FunctionId, ghost fs: map<FunctionId, Events>, ghost cs: map<Edge, Events>,
        ghost done: set<FunctionId>, ghost edges: set<Edge>)
      requires Wired() && u in functions && (forall v :: (u, v) !in edges) && fs.Keys == functions.Keys
      requires FunctionEvents() == MarkingFunctions(fs, done) && CallEvents() == MarkingCalls(fs, cs, edges)
      modifies CallObjects()`events
      ensures FunctionEvents() == MarkingFunctions(fs, done)
      ensures CallEvents() == MarkingCalls(fs, cs, edges + CallsTo(u, CallGraph()[u]))
    {
      hide Keyed, Wired, FunctionEvents, CallEvents, CallGraph, CallObjects, CallsTo, MarkingFunctions, MarkingCalls;
      EventsAt(u);
      CallsToMore(u, {}, u);
      assert edges + CallsTo(u, {}) == edges;
      ghost var callees := CallGraph()[u];
      var todo := functions[u].calls.Keys;
      ghost var seen: set<FunctionId> := {};
      while todo != {}
        invariant todo <= callees && seen == callees - todo
        invariant FunctionEvents() == MarkingFunctions(fs, done)
        invariant CallEvents() == MarkingCalls(fs, cs, edges + CallsTo(u, seen))
        decreases todo
      {
        var v :| v in todo;
        SeenMore(callees, todo, v);
        todo := todo - {v};
        CallsToMore(u, seen, v);
        assert edges + CallsTo(u, seen + {v}) == edges + CallsTo(u, seen) + {(u, v)};
        MarkCall(u, v, fs, cs, done, edges + CallsTo(u, seen));
        seen := seen + {v};
      }
      assert seen == callees;
    }

    method MarkCall(u: FunctionId, v: FunctionId, ghost fs: map<FunctionId, Events>, ghost cs: map<Edge, Events>,
        ghost done: set<FunctionId>, ghost edges: set<Edge>)
      requires Wired() && u in functions && v in functions[u].calls && (u, v) !in edges && fs.Keys == functions.Keys
      requires FunctionEvents() == MarkingFunctions(fs, done) && CallEvents() == MarkingCalls(fs, cs, edges)
      modifies CallObjects()`events
      ensures FunctionEvents() == MarkingFunctions(fs, done) && CallEvents() == MarkingCalls(fs, cs, edges + {(u, v)})
    {
      hide FunctionEvents, CallEvents, CallGraph, CallObjects, MarkingFunctions, MarkingCalls;
      EventsAt(u);
      EventsAt(v);
      MarkingCallKeys(fs, cs, edges);
      MarkingCall(fs, cs, edges, (u, v));
      MarkingKeeps(fs, done, u);
      MarkingKeeps(fs, done, v);
      var caller, call, callee := functions[u], functions[u].calls[v], functions[functions[u].calls[v].calleeId];
      if TotalTimeRatio in call.events {
        PutCall(u, v, PruneRatio, call.events[TotalTimeRatio]);
      } else if TotalTimeRatio in caller.events && TotalTimeRatio in callee.events {
        PutCall(u, v, PruneRatio, MinReal(caller.events[TotalTimeRatio], callee.events[TotalTimeRatio]));
      }
    }

    // ----- parsing call stacks -----

    /** Adds a new call. */
    method AddCall(caller: FunctionId, callee: FunctionId, call: Call)
      requires Wired() && caller in functions && callee in functions && callee !in functions[caller].calls
      requires call.calleeId == callee && call.callerId == caller
      modifies functions.Values`calls
      ensures Wired() && FunctionEvents() == old(FunctionEvents())
      ensures CallEvents() == old(CallEvents())[(caller, callee) := call.events]
      ensures CallObjects() == old(CallObjects()) + {call}
    {
      hide FunctionEvents, CallEvents, CallObjects, Wired, Keyed;
      WiredKeyed();
      DistinctFunctions(caller);
      functions[caller].calls := functions[caller].calls[callee := call];
      CallAdded(caller, callee, call);
      StillWired(caller, callee, call);
    }

    twostate lemma {:induction false} StillWired(caller: FunctionId, new callee: FunctionId, new call: Call)
      requires old(Wired()) && functions == old(functions) && caller in functions && callee in functions
      requires call.calleeId == callee && call.callerId == caller
      requires functions[caller].calls == old(functions[caller].calls)[callee := call]
      requires forall u :: u in functions && u != caller ==> functions[u].calls == old(functions[u].calls)
      ensures Wired()
    {
    }

    twostate lemma {:induction false} CallAdded(caller: FunctionId, new callee: FunctionId, new call: Call)
      requires functions == old(functions) && caller in functions && callee !in old(functions[caller].calls)
      requires functions[caller].calls == old(functions[caller].calls)[callee := call]
      requires SameFunctionEvents() && forall u :: u in functions && u != caller ==>
        functions[u].calls == old(functions[u].calls)
      requires forall u, v :: u in functions && v in old(functions[u].calls) ==>
        old(functions[u].calls[v]).events == old(functions[u].calls[v].events)
      ensures FunctionEvents() == old(FunctionEvents())
      ensures CallEvents() == old(CallEvents())[(caller, callee) := call.events]
      ensures CallObjects() == old(CallObjects()) + {call}
    {
      hide CallEvents, CallObjects, FunctionEvents;
      SameFunctions();
      MoreCallObjects(caller, callee, call);
      var more := old(CallEvents())[(caller, callee) := call.events];
      forall e: Edge
        ensures e in CallEvents() <==> e in more
        ensures e in CallEvents() ==> CallEvents()[e] == more[e]
      {
        assert e == (e.0, e.1);
        CallEventsAt(e.0, e.1);
      }
      assert CallEvents() == more;
    }

    twostate lemma {:induction false} MoreCallObjects(caller: FunctionId, new callee: FunctionId, new call: Call)
      requires functions == old(functions) && caller in functions && callee !in old(functions[caller].calls)
      requires functions[caller].calls == old(functions[caller].calls)[callee := call]
      requires forall u :: u in functions && u != caller ==> functions[u].calls == old(functions[u].calls)
      ensures CallObjects() == old(CallObjects()) + {call}
    {
      forall u, v | u in functions && v in functions[u].calls
        ensures functions[u].calls[v] in old(CallObjects()) + {call}
      {
        if (u, v) != (caller, callee) {
          assert v in old(functions[u].calls) && functions[u].calls[v] == old(functions[u].calls[v]);
        }
      }
      forall u, v | u in functions && v in old(functions[u].calls)
        ensures old(functions[u].calls[v]) in CallObjects()
      {
        assert v in functions[u].calls && functions[u].calls[v] == old(functions[u].calls[v]);
      }
      assert functions[caller].calls[callee] in CallObjects();
    }

    method AddNewCall(caller: FunctionId, callee: FunctionId, event: Event, value: real) returns (ghost call: Call)
      requires Wired() && caller in functions && callee in functions && callee !in functions[caller].calls
      modifies functions.Values`calls
      ensures Wired() && FunctionEvents() == old(FunctionEvents())
      ensures CallEvents() == old(CallEvents())[(caller, callee) := map[event := value]]
      ensures fresh(call) && CallObjects() == old(CallObjects()) + {call}
    {
      hide FunctionEvents, CallEvents, CallObjects, Wired;
      var added := new Call(callee, caller);
      added.events := added.events[event := value];
      assert added.events == map[event := value];
      EventsKept();
      CallObjectsKept();
      AddCall(caller, callee, added);
      call := added;
    }

    twostate lemma {:induction false} CallObjectsKept()
      requires functions == old(functions) && forall u :: u in functions ==>
        functions[u].calls == old(functions[u].calls)
      ensures CallObjects() == old(CallObjects()) && (old(Wired()) ==> Wired())
    {
    }

    /** Adds samples to the call from `caller` to `callee`, which need not exist yet. */
    method AddSamples(caller: FunctionId, callee: FunctionId, samples: real, ghost links: seq<(Edge, real)>,
        ghost known: set<Call>)
      requires Wired() && caller in functions && callee in functions && CallEvents() == TallyEvents(links, Samples2)
      modifies functions.Values`calls, CallObjects()`events
      ensures Wired() && FunctionEvents() == old(FunctionEvents())
      ensures CallEvents() == TallyEvents(links + [((caller, callee), samples)], Samples2)
      ensures CallObjects() * known <= old(CallObjects())
    {
      hide FunctionEvents, CallEvents, CallObjects, TallyEvents, Keyed, Wired, Amount;
      WiredKeyed();
      CallEventsAt(caller, callee);
      ghost var e := (caller, callee);
      if callee in functions[caller].calls {
        var more := functions[caller].calls[callee].events[Samples2] + samples;
        LinkMore(links, e, samples, more);
        PutCall(caller, callee, Samples2, more);
        CallObjectsKept();
      } else {
        LinkMore(links, e, samples, samples);
        ghost var call := AddNewCall(caller, callee, Samples2, samples);
      }
    }

    /** The inner loop of `ParseCallstacks`: the calls on one stack. */
    method AddLinks(t: Trace, ghost links: seq<(Edge, real)>, ghost known: set<Call>)
      requires Wired() && t.frames != [] && (forall u :: u in t.frames ==> u in functions)
      requires CallEvents() == TallyEvents(links, Samples2)
      modifies functions.Values`calls, CallObjects()`events
      ensures Wired() && FunctionEvents() == old(FunctionEvents())
      ensures CallEvents() == TallyEvents(links + Links(t), Samples2)
      ensures CallObjects() * known <= old(CallObjects())
    {
      hide FunctionEvents, CallEvents, CallObjects, TallyEvents, Wired, Links, LinksUpTo;
      ghost var known' := known + set c: Call {:trigger c.events} | allocated(c);
      LinksEnds(t);
      assert links + LinksUpTo(t, 1) == links;
      var callee := t.frames[0];
      var i := 1;
      while i < |t.frames|
        invariant 1 <= i <= |t.frames| && callee == t.frames[i - 1]
        invariant Wired() && FunctionEvents() == old(FunctionEvents())
        invariant CallEvents() == TallyEvents(links + LinksUpTo(t, i), Samples2)
        invariant CallObjects() * known' <= old(CallObjects())
      {
        var caller := t.frames[i];
        LinksStep(t, i);
        ghost var before := links + LinksUpTo(t, i);
        AddSamples(caller, callee, t.samples, before, known');
        assert before + [((caller, callee), t.samples)] == links + LinksUpTo(t, i + 1);
        callee := caller;
        i := i + 1;
      }
    }

    /** Adds the samples of one stack to its innermost function and to the calls on it. */
    method AddTrace(t: Trace, ghost leaves: seq<(FunctionId, real)>, ghost links: seq<(Edge, real)>,
        ghost known: set<Call>)
      requires Wired() && t.frames != [] && (forall u :: u in t.frames ==> u in functions)
      requires FunctionEvents() == LeafEvents(functions.Keys, leaves) && CallEvents() == TallyEvents(links, Samples2)
      modifies functions.Values`events, functions.Values`calls, CallObjects()`events
      ensures Wired()
      ensures FunctionEvents() == LeafEvents(functions.Keys, leaves + [(t.frames[0], t.samples)])
      ensures CallEvents() == TallyEvents(links + Links(t), Samples2)
      ensures CallObjects() * known <= old(CallObjects())
    {
      hide FunctionEvents, CallEvents, CallObjects, TallyEvents, Wired, Keyed, Links, Amount, LeafEvents;
      var callee := t.frames[0];
      WiredKeyed();
      EventsAt(callee);
      LeafAt(functions.Keys, leaves, callee);
      var more := functions[callee].events[Samples] + t.samples;
      LeafMore(functions.Keys, leaves, callee, t.samples, more);
      PutFunction(callee, Samples, more);
      CallObjectsKept();
      AddLinks(t, links, known);
    }

    /** Processes one line. */
    method AddLine(t: Trace, ghost ts: seq<Trace>, ghost known: set<Call>)
      requires Wired() && t.frames != [] && (forall u :: u in t.frames ==> u in functions) && forall i ::
        0 <= i < |ts| ==> ts[i].frames != []
      requires FunctionEvents() == LeafEvents(functions.Keys, Leaves(ts))
      requires CallEvents() == TallyEvents(AllLinks(ts), Samples2)
      requires Samples in events && events[Samples] == TotalAmount(Leaves(ts))
      modifies this`events, functions.Values`events, functions.Values`calls, CallObjects()`events
      ensures Wired()
      ensures FunctionEvents() == LeafEvents(functions.Keys, Leaves(ts + [t]))
      ensures CallEvents() == TallyEvents(AllLinks(ts + [t]), Samples2)
      ensures events == old(events)[Samples := TotalAmount(Leaves(ts + [t]))]
      ensures CallObjects() * known <= old(CallObjects())
    {
      hide FunctionEvents, CallEvents, CallObjects, TallyEvents, Wired, Links, AllLinks, Amount, LeafEvents, Leaves,
        TotalAmount;
      TracesMore(ts, t);
      ghost var events0 := events;
      AddTrace(t, Leaves(ts), AllLinks(ts), known);
      assert events == events0;
      events := events[Samples := events[Samples] + t.samples];
    }

    /** Reads the sampled call stacks up to the first line that cannot be processed. */
    method ParseCallstacks(lines: seq<Line>, symbols: Symbols) returns (parsed: nat)
      requires Keyed() && symbols.Values <= functions.Keys
      requires (forall u :: u in functions ==>
        functions[u].calls == map[] && functions[u].events == map[Samples := 0.0])
      requires Samples in events && events[Samples] == 0.0
      modifies this`events, functions.Values`events, functions.Values`calls, CallObjects()`events
      ensures parsed <= |lines| && AllResolvable(lines[..parsed], symbols)
      ensures (parsed < |lines| ==> !Resolvable(lines[parsed], symbols))
      ensures parsed < |lines| ==>
        lines[parsed].callstack == [] || exists id :: id in lines[parsed].callstack && id !in symbols
      ensures Counted(FunctionEvents(), CallEvents(), lines[..parsed], symbols)
      ensures events == old(events)[Samples := SumOf(AllSamples(lines[..parsed]))]
      ensures Wired() && FunctionEvents() == LeafEvents(functions.Keys, Leaves(ResolveAll(lines[..parsed], symbols)))
      ensures CallEvents() == TallyEvents(AllLinks(ResolveAll(lines[..parsed], symbols)), Samples2)
      ensures events == old(events)[Samples := TotalAmount(Leaves(ResolveAll(lines[..parsed], symbols)))]
      ensures fresh(CallObjects())
    {
      hide FunctionEvents, CallEvents, CallObjects, TallyEvents, Wired, Keyed, Links, AllLinks, Amount, LeafEvents,
        Leaves, TotalAmount, Counted, AllResolvable, ResolveAll, Resolvable, Resolve;
      ghost var known := set c: Call {:trigger c.events} | allocated(c);
      NoCalls();
      parsed := 0;
      ghost var ts: seq<Trace> := [];
      NothingResolved(lines, symbols);
      while parsed < |lines|
        invariant parsed <= |lines| && AllResolvable(lines[..parsed], symbols)
        invariant ts == ResolveAll(lines[..parsed], symbols)
        invariant Wired() && FunctionEvents() == LeafEvents(functions.Keys, Leaves(ts))
        invariant CallEvents() == TallyEvents(AllLinks(ts), Samples2)
        invariant CallObjects() !! known
        invariant events == old(events)[Samples := TotalAmount(Leaves(ts))]
      {
        if !Resolvable(lines[parsed], symbols) {
          break;
        }
        var t := Resolve(lines[parsed], symbols);
        ResolveMore(lines, symbols, parsed);
        ResolvedFrames(lines[parsed], symbols);
        AddLine(t, ts, known);
        ts := ts + [t];
        parsed := parsed + 1;
      }
      CountedAll(functions.Keys, lines[..parsed], symbols);
      if parsed < |lines| {
        UnresolvableIff(lines[parsed], symbols);
      }
    }

    lemma {:induction false} NoCalls()
      requires Keyed()
      requires (forall u :: u in functions ==>
        functions[u].calls == map[] && functions[u].events == map[Samples := 0.0])
      ensures Wired() && CallObjects() == {} && CallEvents() == map[]
      ensures FunctionEvents() == LeafEvents(functions.Keys, Leaves([]))
      ensures CallEvents() == TallyEvents(AllLinks([]), Samples2)
      ensures TotalAmount(Leaves([])) == 0.0
    {
    }

    /** Defines the functions that the symbols belong to, each of them once. */
    method ParseSymbols(lines: seq<Symbol>) returns (symbols: Symbols)
      requires functions == map[]
      modifies this`functions
      ensures symbols == SymbolTable(lines) && functions.Keys == Owners(lines)
      ensures forall id, u :: id in symbols && symbols[id] == u <==> Means(lines, id, u)
      ensures forall u :: u in functions <==> exists i :: 0 <= i < |lines| && lines[i].owner == u
      ensures forall u :: u in functions ==> fresh(functions[u]) && Blank(functions[u], u)
    {
      symbols := map[];
      var i := 0;
      while i < |lines|
        invariant 0 <= i <= |lines|
        invariant symbols == SymbolTable(lines[..i]) && functions.Keys == Owners(lines[..i])
        invariant forall u :: u in functions ==> fresh(functions[u]) && Blank(functions[u], u)
      {
        var symbol := lines[i];
        SymbolsMore(lines, i);
        if symbol.owner !in functions {
          var f := new Function(symbol.owner);
          f.events := f.events[Samples := 0.0];
          functions := functions[symbol.owner := f];
        }
        symbols := symbols[symbol.id := symbol.owner];
        i := i + 1;
      }
      assert lines[..i] == lines;
      forall id, u
        ensures id in symbols && symbols[id] == u <==> Means(lines, id, u)
      {
        SymbolsMean(lines, id, u);
      }
    }

    ghost predicate Blank(f: Function, u: FunctionId)
      reads f
    {
      f.id == u && f.calls == map[] && f.events == map[Samples := 0.0] && f.cycle == null
    }

    /** All derived events are those that follow from the call stacks.  Without negative samples, their
        total is one exactly if there are any samples, or only one function, and the times are tolerable;
        with positive samples, all shares are known. */
    ghost predicate Derived(ts: seq<Trace>)
      requires Framed(functions.Keys, ts)
      reads this`functions, this`events, functions.Values`calls, functions.Values`cycle
      reads functions.Values`events, CallObjects()`events, CycleObjects()`events
    {
      && FlowOf(TimeRatio) == StackFlow(functions.Keys, ts) && CallGraph() == TraceGraph(functions.Keys, ts)
      && Integrated(FlowOf(TimeRatio), TotalTimeRatio)
      && TotalTimeRatio in events && events[TotalTimeRatio] == SumOf(FlowOf(TimeRatio).time)
      && (NonnegativeTraces(ts) ==>
        && (events[TotalTimeRatio] == 1.0 <==> TotalAmount(Leaves(ts)) > 0.0 || |functions| == 1)
        && StackCounts(functions.Keys, ts).calls == CallGraph()
        && Tolerable(StackCounts(functions.Keys, ts), FlowOf(TimeRatio), events[TotalTimeRatio]))
      && (PositiveTraces(ts) && ts != [] ==>
        && SharesKnown() && TotalAmount(Leaves(ts)) > 0.0
        && forall u :: u in functions ==>
          u in FlowOf(TimeRatio).time && FlowOf(TimeRatio).time[u] == Amount(Leaves(ts), u) / TotalAmount(Leaves(ts)))
    }

    /** Reads the symbols and the call stacks of a sampled run and computes all derived events.  A line
        with an unknown symbol or an empty stack aborts the parsing. */
    method Parse(symbolLines: seq<Symbol>, lines: seq<Line>) returns (parsed: nat)
      requires functions == map[] && events == map[]
      requires Assertable(symbolLines, lines)
      modifies this
      ensures parsed <= |lines| && AllResolvable(lines[..parsed], SymbolTable(symbolLines))
      ensures parsed < |lines| ==> !Resolvable(lines[parsed], SymbolTable(symbolLines))
      ensures functions.Keys == Owners(symbolLines)
      ensures parsed == |lines| ==>
        Framed(functions.Keys, ResolveAll(lines, SymbolTable(symbolLines))) && Analysed() &&
        Derived(ResolveAll(lines, SymbolTable(symbolLines)))
      ensures parsed == |lines| ==>
        && FlowOf(TimeRatio) == LineFlow(functions.Keys, lines, SymbolTable(symbolLines))
        && Counted(FunctionEvents(), CallEvents(), lines, SymbolTable(symbolLines))
        && Samples in events && events[Samples] == SumOf(AllSamples(lines))
    {
      hide FunctionEvents, CallEvents, CallObjects, TallyEvents, Wired, Keyed, AllLinks, Amount, LeafEvents, Leaves,
        TotalAmount, SymbolTable, Owners, Analysed, Derived, Resolve, StackFlow, PassesAsserted, Counted, FlowOf,
        LineFlow, Agree;
      events := events[Samples := 0.0];
      var symbols := ParseSymbols(symbolLines);
      SymbolsOwned(symbolLines);
      AllBlank();
      parsed := ParseCallstacks(lines, symbols);
      if parsed == |lines| {
        assert lines[..parsed] == lines;
        ghost var ts := ResolveAll(lines, symbols);
        ResolvedInside(lines, symbols, functions.Keys);
        ghost var functions0, calls0 := FunctionEvents(), CallEvents();
        DeriveFrom(ts);
        CountedStays(functions0, calls0, FunctionEvents(), CallEvents(), lines, symbols);
        DerivedFlowIs(ts);
        LineFlowIs(functions.Keys, lines, symbols);
      }
    }

    lemma {:induction false} DerivedFlowIs(ts: seq<Trace>)
      requires Framed(functions.Keys, ts) && Derived(ts)
      ensures FlowOf(TimeRatio) == StackFlow(functions.Keys, ts)
    {
    }

    lemma {:induction false} AllBlank()
      requires forall u :: u in functions ==> Blank(functions[u], u)
      ensures Keyed() && CallObjects() == {}
      ensures forall u :: u in functions ==>
        functions[u].calls == map[] && functions[u].events == map[Samples := 0.0] && functions[u].cycle == null
    {
    }

    /** The end of `Parse`. */
    method DeriveFrom(ghost ts: seq<Trace>)
      requires Wired() && forall u :: u in functions ==> functions[u].cycle == null
      requires Framed(functions.Keys, ts) && PassesAsserted(StackFlow(functions.Keys, ts))
      requires FunctionEvents() == LeafEvents(functions.Keys, Leaves(ts))
      requires CallEvents() == TallyEvents(AllLinks(ts), Samples2)
      requires events == map[Samples := TotalAmount(Leaves(ts))]
      modifies this, functions.Values, CallObjects()`events
      ensures functions == old(functions) && Analysed() && Derived(ts)
      ensures Agree(old(FunctionEvents()), FunctionEvents()) && Agree(old(CallEvents()), CallEvents())
      ensures Samples in events && events[Samples] == old(events[Samples])
    {
      hide FunctionEvents, CallEvents, CallObjects, TallyEvents, Wired, Keyed, AllLinks, Amount, LeafEvents, Leaves,
        TotalAmount, Analysed, SharesKnown, FlowIn, Snapshot, Sampled, KnownCallEvents, KnownGraph, TraceGraph,
        Integrated, Flow.Valid, Known, SharesOf, DerivedFlow, PassesAsserted, NonnegativeSamples, PositiveCounts, Agree,
        Derived;
      ParsedSampled(functions.Keys, ts);
      AllKnownAlready();
      ParsedGraph(ts);
      DeriveEvents(Samples2);
      DerivedBy(ts);
    }

    /** Everything follows from the flow of the stacks and the events that have been derived. */
    lemma {:induction false} DerivedBy(ts: seq<Trace>)
      requires Framed(functions.Keys, ts) && PassesAsserted(StackFlow(functions.Keys, ts))
      requires FlowOf(TimeRatio) == StackFlow(functions.Keys, ts) && Integrated(FlowOf(TimeRatio), TotalTimeRatio)
      requires TotalTimeRatio in events && events[TotalTimeRatio] == SumOf(FlowOf(TimeRatio).time)
      requires NonnegativeTraces(ts) ==>
        (events[TotalTimeRatio] == 1.0 <==> TotalAmount(Leaves(ts)) > 0.0 || |functions| == 1)
      requires PositiveTraces(ts) && ts != [] ==> TotalAmount(Leaves(ts)) > 0.0
      requires PositiveTraces(ts) && ts != [] ==>
        SharesKnown() &&
        FlowOf(TimeRatio).time == SharesOf(LeafEvents(functions.Keys, Leaves(ts)), TotalAmount(Leaves(ts)))
      ensures Derived(ts)
    {
      hide CallObjects, CycleObjects, CallGraph, AllLinks, Amount, LeafEvents, Leaves, TotalAmount, SharesKnown, FlowIn,
        Snapshot, TraceGraph, Integrated, Flow.Valid, SharesOf, DerivedFlow, PassesAsserted, StackCounts, Tolerable,
        StackFlow, SumOf;
      FlowGraph();
      FlowOfStacks(functions.Keys, ts);
      LeafShares(functions.Keys, Leaves(ts));
      if NonnegativeTraces(ts) {
        StacksTolerable(functions.Keys, ts);
      }
    }

    lemma {:induction false} FlowGraph()
      ensures FlowOf(TimeRatio).calls == CallGraph()
    {
    }

    lemma {:induction false} AllKnownAlready()
      requires Wired()
      ensures Keyed() && KnownCallEvents() == CallEvents() && forall u :: u in functions ==>
        Known(functions[u].calls) == functions[u].calls
    {
    }

    lemma {:induction false} ParsedGraph(ts: seq<Trace>)
      requires Wired() && CallEvents() == TallyEvents(AllLinks(ts), Samples2)
      ensures KnownGraph() == TraceGraph(functions.Keys, ts)
    {
      hide AllLinks, Amount, CallEvents;
      forall u | u in functions
        ensures KnownGraph()[u] == TraceGraph(functions.Keys, ts)[u]
      {
        EventsAt(u);
        KnownCallees(u);
        forall v
          ensures v in functions[u].calls <==> v in TraceGraph(functions.Keys, ts)[u]
        {
          CallEventKeys(u, v);
          assert (u, v).0 == u && (u, v).1 == v;
        }
      }
    }

    lemma {:induction false} KnownCallees(u: FunctionId)
      requires Wired() && u in functions
      ensures KnownGraph()[u] == functions[u].calls.Keys
    {
    }

    lemma {:induction false} CallEventKeys(u: FunctionId, v: FunctionId)
      requires u in functions
      ensures (u, v) in CallEvents() <==> v in functions[u].calls
    {
    }
  }
}
