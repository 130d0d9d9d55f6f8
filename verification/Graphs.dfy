/** Directed graphs over function ids: walks, reachability and strongly connected components.
    A profile's call graph maps every function id to the set of ids it calls. */
module Graphs {

  datatype FunctionId = FunctionId(text: string)

  type Graph = map<FunctionId, set<FunctionId>>

  /** Every callee is a key of the graph. */
  ghost predicate Closed(g: Graph) {
    forall u :: u in g ==> g[u] <= g.Keys
  }

  /** There is a walk of exactly `n` calls from `u` to `v`. */
  ghost predicate Walk(g: Graph, n: nat, u: FunctionId, v: FunctionId) {
    if n == 0 then u == v && u in g
    else exists w :: Walk(g, n - 1, u, w) && w in g && v in g && v in g[w]
  }

  ghost predicate Reach(g: Graph, u: FunctionId, v: FunctionId) {
    exists n: nat :: Walk(g, n, u, v)
  }

  /** `s` is not left by any call. */
  ghost predicate ClosedUnder(g: Graph, s: set<FunctionId>) {
    forall u :: u in s && u in g ==> g[u] <= s
  }

  ghost function Component(g: Graph, u: FunctionId): set<FunctionId> {
    set v | v in g && Reach(g, u, v) && Reach(g, v, u)
  }

  /** Everything reachable from `u`. */
  ghost function Below(g: Graph, u: FunctionId): set<FunctionId> {
    set v | v in g && Reach(g, u, v)
  }

  /** `u` shares its component with another function. */
  ghost predicate Recursive(g: Graph, u: FunctionId) {
    Component(g, u) != {u}
  }

  lemma {:induction false} ReachSelf(g: Graph, u: FunctionId)
    requires u in g
    ensures Reach(g, u, u)
  {
    assert Walk(g, 0, u, u);
  }

  lemma {:induction false} ReachCall(g: Graph, u: FunctionId, v: FunctionId)
    requires u in g && v in g && v in g[u]
    ensures Reach(g, u, v)
  {
    assert Walk(g, 0, u, u);
    assert Walk(g, 1, u, v);
  }

  lemma {:induction false} WalkEnds(g: Graph, n: nat, u: FunctionId, v: FunctionId)
    requires Walk(g, n, u, v)
    ensures u in g && v in g
  {
    if n > 0 {
      var w :| Walk(g, n - 1, u, w) && w in g && v in g[w];
      WalkEnds(g, n - 1, u, w);
    }
  }

  lemma {:induction false} WalkConcat(g: Graph, m: nat, n: nat, u: FunctionId, v: FunctionId, w: FunctionId)
    requires Walk(g, m, u, v) && Walk(g, n, v, w)
    ensures Walk(g, m + n, u, w)
  {
    if n > 0 {
      var x :| Walk(g, n - 1, v, x) && x in g && w in g[x];
      WalkConcat(g, m, n - 1, u, v, x);
    }
  }

  lemma {:induction false} ReachTransitive(g: Graph, u: FunctionId, v: FunctionId, w: FunctionId)
    requires Reach(g, u, v) && Reach(g, v, w)
    ensures Reach(g, u, w)
  {
    var m: nat :| Walk(g, m, u, v);
    var n: nat :| Walk(g, n, v, w);
    WalkConcat(g, m, n, u, v, w);
  }

  lemma {:induction false} WalkStaysIn(g: Graph, s: set<FunctionId>, n: nat, u: FunctionId, v: FunctionId)
    requires ClosedUnder(g, s) && u in s && Walk(g, n, u, v)
    ensures v in s
  {
    if n > 0 {
      var w :| Walk(g, n - 1, u, w) && w in g && v in g[w];
      WalkStaysIn(g, s, n - 1, u, w);
    }
  }

  lemma {:induction false} ReachStaysIn(g: Graph, s: set<FunctionId>, u: FunctionId, v: FunctionId)
    requires ClosedUnder(g, s) && u in s && Reach(g, u, v)
    ensures v in s
  {
    var n: nat :| Walk(g, n, u, v);
    WalkStaysIn(g, s, n, u, v);
  }

  lemma {:induction false} ReachEnds(g: Graph, u: FunctionId, v: FunctionId)
    requires Reach(g, u, v)
    ensures u in g && v in g
  {
    var n: nat :| Walk(g, n, u, v);
    WalkEnds(g, n, u, v);
  }

  lemma {:induction false} InOwnComponent(g: Graph, u: FunctionId)
    requires u in g
    ensures u in Component(g, u)
  {
    ReachSelf(g, u);
  }

  /** Components are the classes of an equivalence: members have the same component. */
  lemma {:induction false} ComponentShared(g: Graph, u: FunctionId, v: FunctionId)
    requires v in Component(g, u)
    ensures Component(g, v) == Component(g, u)
  {
    forall w | w in g
      ensures w in Component(g, v) <==> w in Component(g, u)
    {
      if w in Component(g, v) {
        ReachTransitive(g, u, v, w);
        ReachTransitive(g, w, v, u);
      }
      if w in Component(g, u) {
        ReachTransitive(g, v, u, w);
        ReachTransitive(g, w, u, v);
      }
    }
  }

  lemma {:induction false} ComponentsDisjoint(g: Graph, u: FunctionId, v: FunctionId)
    requires Component(g, u) != Component(g, v)
    ensures Component(g, u) !! Component(g, v)
  {
    forall w | w in Component(g, u) && w in Component(g, v)
      ensures false
    {
      ComponentShared(g, u, w);
      ComponentShared(g, v, w);
    }
  }

  lemma {:induction false} BelowClosed(g: Graph, u: FunctionId)
    requires Closed(g)
    ensures ClosedUnder(g, Below(g, u))
  {
    forall v, w | v in Below(g, u) && w in g[v]
      ensures w in Below(g, u)
    {
      ReachCall(g, v, w);
      ReachTransitive(g, u, v, w);
    }
  }

  /** A call that leaves the component of `u` strictly shrinks what is reachable. */
  lemma {:induction false} BelowShrinks(g: Graph, u: FunctionId, m: FunctionId, v: FunctionId)
    requires Closed(g) && u in g && m in Component(g, u) && v in g[m] && v !in Component(g, u)
    ensures Below(g, v) < Below(g, u)
  {
    ReachCall(g, m, v);
    ReachTransitive(g, u, m, v);
    forall w | w in Below(g, v)
      ensures w in Below(g, u)
    {
      ReachTransitive(g, u, v, w);
    }
    ReachSelf(g, u);
    assert u in Below(g, u) && u !in Below(g, v);
  }
}
