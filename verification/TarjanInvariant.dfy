/** The invariant of Tarjan's depth-first search, over plain values: `orders` numbers the
    functions discovered so far, `stack` holds the discovered functions whose component is not
    complete yet, `grays` the functions whose call to the search has not returned. */
module TarjanInvariant {
  import opened Graphs

  ghost predicate Increasing(orders: map<FunctionId, nat>, stack: seq<FunctionId>) {
    && (forall i :: 0 <= i < |stack| ==> stack[i] in orders)
    && (forall i, j :: 0 <= i < j < |stack| ==> orders[stack[i]] < orders[stack[j]])
  }

  /** Members of the stack reach everything pushed after them. */
  ghost predicate ReachUp(g: Graph, stack: seq<FunctionId>) {
    forall i, j :: 0 <= i < j < |stack| ==> Reach(g, stack[i], stack[j])
  }

  ghost predicate HasGrayBelow(g: Graph, stack: seq<FunctionId>, grays: set<FunctionId>, i: int)
    requires 0 <= i < |stack|
  {
    exists j :: 0 <= j <= i && stack[j] in grays && Reach(g, stack[i], stack[j])
  }

  /** Members of the stack reach an open call at or below them. */
  ghost predicate ReachDown(g: Graph, stack: seq<FunctionId>, grays: set<FunctionId>) {
    forall i :: 0 <= i < |stack| ==> HasGrayBelow(g, stack, grays, i)
  }

  /** The callees of a function whose search has returned are all discovered. */
  ghost predicate BlackExplored(g: Graph, orders: map<FunctionId, nat>, grays: set<FunctionId>) {
    forall u :: u in orders && u in g && u !in grays ==> g[u] <= orders.Keys
  }

  /** Functions whose component has been completed. */
  ghost function Done(orders: map<FunctionId, nat>, stack: seq<FunctionId>): set<FunctionId> {
    set u | u in orders && u !in stack
  }

  ghost predicate Invariant(g: Graph, orders: map<FunctionId, nat>, stack: seq<FunctionId>, grays: set<FunctionId>) {
    && Closed(g) && orders.Keys <= g.Keys
    && Increasing(orders, stack)
    && (forall u :: u in grays ==> u in stack)
    && ReachUp(g, stack)
    && ReachDown(g, stack, grays)
    && BlackExplored(g, orders, grays)
    && ClosedUnder(g, Done(orders, stack))
  }

  /** Discovering `v` from the innermost open call keeps the invariant. */
  lemma {:induction false} Push(g: Graph, orders: map<FunctionId, nat>, stack: seq<FunctionId>, grays: set<FunctionId>,
      v: FunctionId, order: nat)
    requires Invariant(g, orders, stack, grays)
    requires v in g && v !in orders
    requires forall u :: u in orders ==> orders[u] < order
    requires forall u :: u in grays ==> Reach(g, u, v)
    ensures Invariant(g, orders[v := order], stack + [v], grays + {v})
    ensures Done(orders[v := order], stack + [v]) == Done(orders, stack)
  {
    var stack', grays' := stack + [v], grays + {v};
    forall i, j | 0 <= i < j < |stack'|
      ensures Reach(g, stack'[i], stack'[j])
    {
      if j == |stack| {
        assert HasGrayBelow(g, stack, grays, i);
        var k :| 0 <= k <= i && stack[k] in grays && Reach(g, stack[i], stack[k]);
        ReachTransitive(g, stack[i], stack[k], v);
      }
    }
    forall i | 0 <= i < |stack'|
      ensures HasGrayBelow(g, stack', grays', i)
    {
      if i == |stack| {
        ReachSelf(g, v);
        assert stack'[i] in grays';
      } else {
        assert HasGrayBelow(g, stack, grays, i);
        var k :| 0 <= k <= i && stack[k] in grays && Reach(g, stack[i], stack[k]);
        assert stack'[k] in grays';
      }
    }
    assert Done(orders[v := order], stack') == Done(orders, stack);
  }

  /** No call leads from the part of the stack at or above `pos` to the part below it. */
  ghost predicate Separated(g: Graph, stack: seq<FunctionId>, pos: nat)
    requires pos <= |stack|
  {
    forall i, j :: pos <= i < |stack| && 0 <= j < pos && stack[i] in g ==> stack[j] !in g[stack[i]]
  }

  ghost predicate Finishing(g: Graph, orders: map<FunctionId, nat>, stack: seq<FunctionId>, grays: set<FunctionId>,
      v: FunctionId, pos: nat)
  {
    && Invariant(g, orders, stack, grays + {v})
    && pos < |stack| && stack[pos] == v && v in g
    && (forall u :: u in grays ==> u in stack[..pos])
    && g[v] <= orders.Keys
  }

  lemma {:induction false} SplitStack(orders: map<FunctionId, nat>, stack: seq<FunctionId>, pos: nat)
    requires Increasing(orders, stack) && pos <= |stack|
    ensures forall i :: 0 <= i < pos ==> stack[i] in stack[..pos]
    ensures forall i :: pos <= i < |stack| ==> stack[i] in stack[pos..] && stack[i] !in stack[..pos]
    ensures forall u :: u in stack <==> u in stack[..pos] || u in stack[pos..]
  {
    assert stack == stack[..pos] + stack[pos..];
    forall i | pos <= i < |stack|
      ensures stack[i] in stack[pos..]
    {
      assert stack[pos..][i - pos] == stack[i];
    }
  }

  lemma {:induction false} SegmentClosed(g: Graph, orders: map<FunctionId, nat>, stack: seq<FunctionId>,
      grays: set<FunctionId>, v: FunctionId, pos: nat)
    requires Finishing(g, orders, stack, grays, v, pos)
    requires Separated(g, stack, pos)
    ensures ClosedUnder(g, Done(orders, stack[..pos]))
  {
    SplitStack(orders, stack, pos);
    forall u, w | u in Done(orders, stack[..pos]) && w in g[u]
      ensures w in Done(orders, stack[..pos])
    {
      if u in stack {
        var i :| 0 <= i < |stack| && stack[i] == u;
        assert w in orders;
      } else {
        assert u in Done(orders, stack) && w in Done(orders, stack);
      }
    }
  }

  lemma {:induction false} StaysAbove(g: Graph, orders: map<FunctionId, nat>, stack: seq<FunctionId>, pos: nat, i: nat,
      k: nat)
    requires Increasing(orders, stack) && pos <= i < |stack| && k < |stack|
    requires ClosedUnder(g, Done(orders, stack[..pos]))
    requires Reach(g, stack[i], stack[k])
    ensures pos <= k
  {
    SplitStack(orders, stack, pos);
    ReachStaysIn(g, Done(orders, stack[..pos]), stack[i], stack[k]);
  }

  /** Everything at or above `pos` lies in the component of `v`. */
  lemma {:induction false} SegmentInComponent(g: Graph, orders: map<FunctionId, nat>, stack: seq<FunctionId>,
      grays: set<FunctionId>, v: FunctionId, pos: nat, i: nat)
    requires Finishing(g, orders, stack, grays, v, pos)
    requires Separated(g, stack, pos)
    requires pos <= i < |stack|
    ensures stack[i] in Component(g, v)
  {
    SplitStack(orders, stack, pos);
    SegmentClosed(g, orders, stack, grays, v, pos);
    ReachSelf(g, v);
    assert stack[i] in orders;
    assert Reach(g, v, stack[i]);
    assert HasGrayBelow(g, stack, grays + {v}, i);
    var k :| 0 <= k <= i && stack[k] in grays + {v} && Reach(g, stack[i], stack[k]);
    StaysAbove(g, orders, stack, pos, i, k);
  }

  /** When no call leads below `pos`, the functions at or above `pos` are one whole component. */
  lemma {:induction false} SegmentIsComponent(g: Graph, orders: map<FunctionId, nat>, stack: seq<FunctionId>,
      grays: set<FunctionId>, v: FunctionId, pos: nat)
    requires Finishing(g, orders, stack, grays, v, pos)
    requires Separated(g, stack, pos)
    ensures (set u | u in stack[pos..]) == Component(g, v)
  {
    hide Reach, ReachUp, ReachDown, BlackExplored;
    var top := stack[pos..];
    SplitStack(orders, stack, pos);
    SegmentClosed(g, orders, stack, grays, v, pos);
    forall w | w in Component(g, v)
      ensures w in top
    {
      ReachStaysIn(g, Done(orders, stack[..pos]), v, w);
      if w in Done(orders, stack) {
        ReachStaysIn(g, Done(orders, stack), w, v);
      }
    }
    forall u | u in top
      ensures u in Component(g, v)
    {
      var i :| 0 <= i < |top| && top[i] == u;
      SegmentInComponent(g, orders, stack, grays, v, pos, pos + i);
    }
  }

  lemma {:induction false} GrayBelow(g: Graph, orders: map<FunctionId, nat>, stack: seq<FunctionId>,
      grays: set<FunctionId>, v: FunctionId, pos: nat, i: nat)
    requires Finishing(g, orders, stack, grays, v, pos) && i < pos
    ensures HasGrayBelow(g, stack[..pos], grays, i) && HasGrayBelow(g, stack, grays, i)
  {
    assert HasGrayBelow(g, stack, grays + {v}, i);
    var k :| 0 <= k <= i && stack[k] in grays + {v} && Reach(g, stack[i], stack[k]);
    assert orders[stack[k]] < orders[stack[pos]];
    assert stack[k] in grays && stack[..pos][k] in grays;
  }

  lemma {:induction false} PopOrders(g: Graph, orders: map<FunctionId, nat>, stack: seq<FunctionId>,
      grays: set<FunctionId>, v: FunctionId, pos: nat)
    requires Finishing(g, orders, stack, grays, v, pos)
    ensures Increasing(orders, stack) && forall u :: u in stack ==> u in orders
    ensures Increasing(orders, stack[..pos]) && ReachUp(g, stack[..pos]) && BlackExplored(g, orders, grays)
  {
    hide Reach, ReachDown, Done;
  }

  /** Popping a complete component keeps the invariant. */
  lemma {:induction false} Pop(g: Graph, orders: map<FunctionId, nat>, stack: seq<FunctionId>, grays: set<FunctionId>,
      v: FunctionId, pos: nat)
    requires Finishing(g, orders, stack, grays, v, pos)
    requires Separated(g, stack, pos)
    ensures Invariant(g, orders, stack[..pos], grays)
    ensures Done(orders, stack[..pos]) == Done(orders, stack) + Component(g, v)
    ensures Component(g, v) !! Done(orders, stack)
  {
    hide Reach, HasGrayBelow, Increasing, ReachUp, BlackExplored, Done, Component;
    PopOrders(g, orders, stack, grays, v, pos);
    SegmentClosed(g, orders, stack, grays, v, pos);
    SegmentIsComponent(g, orders, stack, grays, v, pos);
    var rest := stack[..pos];
    forall i | 0 <= i < |rest|
      ensures HasGrayBelow(g, rest, grays, i)
    {
      GrayBelow(g, orders, stack, grays, v, pos, i);
    }
    PopDone(orders, stack, pos);
  }

  /** What is popped is done. */
  lemma {:induction false} PopDone(orders: map<FunctionId, nat>, stack: seq<FunctionId>, pos: nat)
    requires Increasing(orders, stack) && pos <= |stack| && forall u :: u in stack ==> u in orders
    ensures Done(orders, stack[..pos]) == Done(orders, stack) + set u | u in stack[pos..]
    ensures (set u | u in stack[pos..]) !! Done(orders, stack)
  {
    SplitStack(orders, stack, pos);
    forall u | u in stack[pos..]
      ensures u in Done(orders, stack[..pos]) && u !in Done(orders, stack)
    {
      var i :| 0 <= i < |stack[pos..]| && stack[pos..][i] == u;
      assert stack[pos + i] == u;
    }
  }

  /** Returning from `v` without popping keeps the invariant when `v` reaches below itself. */
  lemma {:induction false} Keep(g: Graph, orders: map<FunctionId, nat>, stack: seq<FunctionId>, grays: set<FunctionId>,
      v: FunctionId, pos: nat, low: nat)
    requires Finishing(g, orders, stack, grays, v, pos)
    requires low < pos && Reach(g, v, stack[low])
    ensures Invariant(g, orders, stack, grays)
  {
    forall i | 0 <= i < |stack|
      ensures HasGrayBelow(g, stack, grays, i)
    {
      if i < pos {
        GrayBelow(g, orders, stack, grays, v, pos, i);
      } else {
        KeepAbove(g, orders, stack, grays, v, pos, low, i);
      }
    }
    assert BlackExplored(g, orders, grays);
  }

  lemma {:induction false} KeepAbove(g: Graph, orders: map<FunctionId, nat>, stack: seq<FunctionId>,
      grays: set<FunctionId>, v: FunctionId, pos: nat, low: nat, i: nat)
    requires Finishing(g, orders, stack, grays, v, pos)
    requires low < pos <= i < |stack| && Reach(g, v, stack[low])
    ensures HasGrayBelow(g, stack, grays, i)
  {
    hide ReachUp, BlackExplored, ClosedUnder, Reach;
    GrayBelow(g, orders, stack, grays, v, pos, low);
    var b :| 0 <= b <= low && stack[b] in grays && Reach(g, stack[low], stack[b]);
    assert HasGrayBelow(g, stack, grays + {v}, i);
    var k :| 0 <= k <= i && stack[k] in grays + {v} && Reach(g, stack[i], stack[k]);
    if stack[k] == v {
      ReachTransitive(g, v, stack[low], stack[b]);
      ReachTransitive(g, stack[i], v, stack[b]);
    }
  }

  // ----- one call of the search -----

  /** The containers shared by the recursive calls of one run of the search. */
  datatype State = State(stack: seq<FunctionId>, orders: map<FunctionId, nat>, lowlinks: map<FunctionId, nat>,
      visited: set<FunctionId>)

  ghost predicate Ready(g: Graph, s: State, grays: set<FunctionId>, order: nat) {
    && Increasing(s.orders, s.stack) && s.orders.Keys <= g.Keys
    && Invariant(g, s.orders, s.stack, grays)
    && (forall u :: u in s.orders ==> s.orders[u] < order)
  }

  /** `s1` extends `s0`: nothing numbered or stacked is lost, and new numbers start at `order`. */
  ghost predicate Extends(s0: State, s1: State, order: nat) {
    && s0.stack <= s1.stack
    && s0.orders.Keys <= s1.orders.Keys
    && (forall u :: u in s0.orders ==> s1.orders[u] == s0.orders[u])
    && (forall u :: u in s1.orders && u !in s0.orders ==> order <= s1.orders[u])
    && (forall u :: u in s0.orders && u in s0.lowlinks ==> u in s1.lowlinks && s1.lowlinks[u] == s0.lowlinks[u])
    && s1.visited == s0.visited + (s1.orders.Keys - s0.orders.Keys)
  }

  ghost predicate ReachesOrder(g: Graph, s: State, u: FunctionId, low: nat)
    requires Increasing(s.orders, s.stack)
  {
    exists i :: 0 <= i < |s.stack| && s.orders[s.stack[i]] == low && Reach(g, u, s.stack[i])
  }

  /** Calls from the stack above `top` to below `base` lead to numbers of at least `low`. */
  ghost predicate BoundsCalls(g: Graph, s: State, top: nat, base: nat, low: nat)
    requires Increasing(s.orders, s.stack)
  {
    forall i, j ::
      top <= i < |s.stack| && 0 <= j < base <= |s.stack| && s.stack[i] in g && s.stack[j] in g[s.stack[i]] ==>
      low <= s.orders[s.stack[j]]
  }

  /** What a call of the search for `u` has done when it returns. */
  ghost predicate Explored(g: Graph, s0: State, s1: State, u: FunctionId, grays: set<FunctionId>, order: nat,
      order': nat)
  {
    && Ready(g, s1, grays, order')
    && Extends(s0, s1, order)
    && u in s1.orders && u in s1.lowlinks
    && s1.lowlinks[u] <= s1.orders[u]
    && (if u in s1.stack then ReachesOrder(g, s1, u, s1.lowlinks[u]) else s1.lowlinks[u] == s1.orders[u])
    && BoundsCalls(g, s1, |s0.stack|, |s0.stack|, s1.lowlinks[u])
  }

  /** The state of that call while it goes through its callees; those in `tried` are done. */
  ghost predicate Exploring(g: Graph, s0: State, s: State, u: FunctionId, grays: set<FunctionId>, order: nat,
      order': nat, tried: set<FunctionId>)
  {
    && Ready(g, s, grays + {u}, order')
    && Extends(s0, s, order)
    && u in g && u !in s0.orders && u in s.orders && s.orders[u] == order && u in s.lowlinks
    && |s0.stack| < |s.stack| && s.stack[|s0.stack|] == u
    && tried <= s.orders.Keys
    && s.lowlinks[u] <= order
    && ReachesOrder(g, s, u, s.lowlinks[u])
    && BoundsCalls(g, s, |s0.stack| + 1, |s0.stack|, s.lowlinks[u])
    && (forall j :: 0 <= j < |s0.stack| && s0.stack[j] in tried ==> s.lowlinks[u] <= s.orders[s0.stack[j]])
  }

  ghost function Entered(s: State, u: FunctionId, order: nat): State {
    State(s.stack + [u], s.orders[u := order], s.lowlinks[u := order], s.visited + {u})
  }

  ghost function WithLowlink(s: State, u: FunctionId, low: nat): State {
    s.(lowlinks := s.lowlinks[u := low])
  }

  function Min(a: nat, b: nat): nat {
    if a <= b then a else b
  }

  lemma {:induction false} Enter(g: Graph, s: State, u: FunctionId, grays: set<FunctionId>, order: nat)
    requires Ready(g, s, grays, order) && u in g && u !in s.orders
    requires forall w :: w in grays ==> Reach(g, w, u)
    ensures Exploring(g, s, Entered(s, u, order), u, grays, order, order + 1, {})
    ensures Done(Entered(s, u, order).orders, Entered(s, u, order).stack) == Done(s.orders, s.stack)
  {
    hide Invariant, Reach, Done;
    Push(g, s.orders, s.stack, grays, u, order);
    ReachSelf(g, u);
    var s' := Entered(s, u, order);
    assert s'.stack[|s.stack|] == u;
    assert Ready(g, s', grays + {u}, order + 1);
    assert ReachesOrder(g, s', u, order);
  }

  lemma {:induction false} GraysStacked(g: Graph, s: State, grays: set<FunctionId>, order: nat)
    requires Ready(g, s, grays, order)
    ensures forall u :: u in grays ==> u in s.stack
  {
  }

  lemma {:induction false} ExploringKeys(g: Graph, s0: State, s: State, u: FunctionId, grays: set<FunctionId>,
      order: nat, order': nat, tried: set<FunctionId>)
    requires Exploring(g, s0, s, u, grays, order, order', tried)
    ensures u in s.orders && u in s.lowlinks && u !in s0.orders && s.orders[u] == order
    ensures s0.orders.Keys <= s.orders.Keys <= g.Keys
    ensures s0.stack <= s.stack && |s0.stack| < |s.stack| && s.stack[|s0.stack|] == u
    ensures Ready(g, s, grays + {u}, order')
    ensures forall i, j :: 0 <= i < j < |s.stack| ==> s.stack[i] != s.stack[j]
    ensures forall w :: w in s.stack ==> w in s.orders
  {
  }

  lemma {:induction false} AfterCall(g: Graph, s0: State, s: State, s': State, u: FunctionId, v: FunctionId,
      grays: set<FunctionId>, order: nat, order': nat, order'': nat, tried: set<FunctionId>)
    requires Exploring(g, s0, s, u, grays, order, order', tried)
    requires order < order'
    requires v in g[u] && v in g && v !in s.orders
    requires Explored(g, s, s', v, grays + {u}, order', order'')
    ensures u in s'.lowlinks && v in s'.lowlinks
    ensures Exploring(g, s0, WithLowlink(s', u, Min(s'.lowlinks[u], s'.lowlinks[v])), u, grays, order, order'',
        tried + {v})
  {
    hide Invariant, Reach;
    var low := Min(s'.lowlinks[u], s'.lowlinks[v]);
    var t := WithLowlink(s', u, low);
    assert Extends(s0, t, order);
    assert s'.orders[u] == order && s'.lowlinks[u] == s.lowlinks[u];
    assert ReachesOrder(g, t, u, low) by {
      if s'.lowlinks[u] <= s'.lowlinks[v] {
        var i :| 0 <= i < |s.stack| && s.orders[s.stack[i]] == s.lowlinks[u] && Reach(g, u, s.stack[i]);
        assert s'.stack[i] == s.stack[i];
      } else {
        var i :| 0 <= i < |s'.stack| && s'.orders[s'.stack[i]] == s'.lowlinks[v] && Reach(g, v, s'.stack[i]);
        ReachCall(g, u, v);
        ReachTransitive(g, u, v, s'.stack[i]);
      }
    }
    AfterCallBounds(g, s0, s, s', u, v, grays, order, order', order'', tried);
  }

  lemma {:induction false} AfterCallBounds(g: Graph, s0: State, s: State, s': State, u: FunctionId, v: FunctionId,
      grays: set<FunctionId>, order: nat, order': nat, order'': nat, tried: set<FunctionId>)
    requires Exploring(g, s0, s, u, grays, order, order', tried)
    requires v !in s.orders
    requires Explored(g, s, s', v, grays + {u}, order', order'')
    ensures BoundsCalls(g, s', |s0.stack| + 1, |s0.stack|, Min(s'.lowlinks[u], s'.lowlinks[v]))
  {
    hide Invariant, Reach;
    var low := Min(s'.lowlinks[u], s'.lowlinks[v]);
    forall i, j | |s0.stack| + 1 <= i < |s'.stack| && 0 <= j < |s0.stack| && s'.stack[i] in g &&
      s'.stack[j] in g[s'.stack[i]]
      ensures low <= s'.orders[s'.stack[j]]
    {
      assert s'.stack[j] == s.stack[j];
      if i < |s.stack| {
        assert s'.stack[i] == s.stack[i];
      }
    }
  }

  lemma {:induction false} AfterStacked(g: Graph, s0: State, s: State, u: FunctionId, v: FunctionId,
      grays: set<FunctionId>, order: nat, order': nat, tried: set<FunctionId>)
    requires Exploring(g, s0, s, u, grays, order, order', tried)
    requires v in g[u] && v in g && v in s.stack
    ensures v in s.orders
    ensures Exploring(g, s0, WithLowlink(s, u, Min(s.lowlinks[u], s.orders[v])), u, grays, order, order', tried + {v})
  {
    hide Invariant, Reach;
    var k :| 0 <= k < |s.stack| && s.stack[k] == v;
    var t := WithLowlink(s, u, Min(s.lowlinks[u], s.orders[v]));
    ReachCall(g, u, v);
    assert ReachesOrder(g, t, u, t.lowlinks[u]) by {
      if s.lowlinks[u] <= s.orders[v] {
        assert ReachesOrder(g, s, u, s.lowlinks[u]);
      } else {
        assert t.orders[t.stack[k]] == t.lowlinks[u];
      }
    }
  }

  lemma {:induction false} AfterDone(g: Graph, s0: State, s: State, u: FunctionId, v: FunctionId,
      grays: set<FunctionId>, order: nat, order': nat, tried: set<FunctionId>)
    requires Exploring(g, s0, s, u, grays, order, order', tried)
    requires v in s.orders && v !in s.stack
    ensures Exploring(g, s0, s, u, grays, order, order', tried + {v})
  {
    hide Invariant, Reach;
    assert forall j :: 0 <= j < |s0.stack| ==> s.stack[j] == s0.stack[j];
  }

  lemma {:induction false} Finish(g: Graph, s0: State, s: State, u: FunctionId, grays: set<FunctionId>, order: nat,
      order': nat)
    requires u in g && Exploring(g, s0, s, u, grays, order, order', g[u])
    requires forall w :: w in grays ==> w in s0.stack
    ensures s.lowlinks[u] != order ==> Explored(g, s0, s, u, grays, order, order')
    ensures s.lowlinks[u] == order ==>
      && Explored(g, s0, s.(stack := s0.stack), u, grays, order, order')
      && (set w | w in s.stack[|s0.stack|..]) == Component(g, u)
      && Done(s.orders, s0.stack) == Done(s.orders, s.stack) + Component(g, u)
      && Component(g, u) !! Done(s.orders, s.stack)
  {
    var pos := |s0.stack|;
    assert s.stack[..pos] == s0.stack;
    assert Finishing(g, s.orders, s.stack, grays, u, pos);
    var i :| 0 <= i < |s.stack| && s.orders[s.stack[i]] == s.lowlinks[u] && Reach(g, u, s.stack[i]);
    if s.lowlinks[u] == order {
      FinishSeparated(g, s0, s, u, grays, order, order');
      SegmentIsComponent(g, s.orders, s.stack, grays, u, pos);
      Pop(g, s.orders, s.stack, grays, u, pos);
      SplitStack(s.orders, s.stack, pos);
    } else {
      Keep(g, s.orders, s.stack, grays, u, pos, i);
      FinishBounds(g, s0, s, u, grays, order, order');
    }
  }

  lemma {:induction false} FinishBounds(g: Graph, s0: State, s: State, u: FunctionId, grays: set<FunctionId>,
      order: nat, order': nat)
    requires u in g && Exploring(g, s0, s, u, grays, order, order', g[u])
    ensures BoundsCalls(g, s, |s0.stack|, |s0.stack|, s.lowlinks[u])
  {
    hide Invariant, Reach;
    forall i, j | |s0.stack| <= i < |s.stack| && 0 <= j < |s0.stack| && s.stack[i] in g && s.stack[j] in g[s.stack[i]]
      ensures s.lowlinks[u] <= s.orders[s.stack[j]]
    {
      assert s.stack[j] == s0.stack[j];
    }
  }

  lemma {:induction false} FinishSeparated(g: Graph, s0: State, s: State, u: FunctionId, grays: set<FunctionId>,
      order: nat, order': nat)
    requires u in g && Exploring(g, s0, s, u, grays, order, order', g[u])
    requires s.lowlinks[u] == order
    ensures Separated(g, s.stack, |s0.stack|)
  {
    hide Invariant, Reach;
    FinishBounds(g, s0, s, u, grays, order, order');
    forall j | 0 <= j < |s0.stack|
      ensures s.orders[s.stack[j]] < order
    {
      assert s.orders[s.stack[j]] < s.orders[s.stack[|s0.stack|]];
    }
  }

  lemma {:induction false} ReachedFromGrays(g: Graph, grays: set<FunctionId>, u: FunctionId, v: FunctionId)
    requires forall w :: w in grays ==> Reach(g, w, u)
    requires Reach(g, u, v)
    ensures forall w :: w in grays + {u} ==> Reach(g, w, v)
  {
    forall w | w in grays
      ensures Reach(g, w, v)
    {
      ReachTransitive(g, w, u, v);
    }
  }

  // ----- a whole run from one root -----

  ghost function Fresh(visited: set<FunctionId>): State {
    State([], map[], map[], visited)
  }

  lemma {:induction false} FreshReady(g: Graph, visited: set<FunctionId>)
    requires Closed(g)
    ensures Ready(g, Fresh(visited), {}, 0)
    ensures Done(Fresh(visited).orders, Fresh(visited).stack) == {}
  {
  }

  /** A run leaves nothing on the stack: what it discovered is closed and completely labelled. */
  lemma {:induction false} RunComplete(g: Graph, visited: set<FunctionId>, s: State, u: FunctionId, order: nat)
    requires Explored(g, Fresh(visited), s, u, {}, 0, order)
    ensures u in Done(s.orders, s.stack) && Done(s.orders, s.stack) <= g.Keys && ClosedUnder(g, Done(s.orders, s.stack))
    ensures s.visited == visited + Done(s.orders, s.stack)
  {
    assert |s.stack| > 0 ==> HasGrayBelow(g, s.stack, {}, 0);
    assert Done(s.orders, s.stack) == s.orders.Keys;
  }
}
