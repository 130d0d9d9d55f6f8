/** The invariant of the depth-first relaxation that ranks the members of a cycle: a member may be
    visited again whenever a shorter way to it turns up. */
module Ranking {
  import opened Graphs
  import opened CycleFlow

  type Ranks = map<FunctionId, nat>

  /** Every rank is the length of a walk from the entry. */
  ghost predicate Sound(h: Graph, e: FunctionId, r: Ranks) {
    r.Keys <= h.Keys && forall x :: x in r ==> Walk(h, r[x], e, x)
  }

  /** No call out of `x` offers a shorter way to its callee. */
  ghost predicate Relaxed(h: Graph, r: Ranks, x: FunctionId) {
    x in r && x in h && forall y :: y in h[x] ==> y in r && r[y] <= r[x] + 1
  }

  ghost predicate Improves(r: Ranks, r': Ranks) {
    r.Keys <= r'.Keys && forall x :: x in r ==> r'[x] <= r[x]
  }

  ghost predicate Changed(r: Ranks, r': Ranks, x: FunctionId) {
    x in r' && (x in r ==> r'[x] != r[x])
  }

  /** What a call with `rank` for `u` turns the ranks `r` into. */
  ghost predicate Ranked(h: Graph, e: FunctionId, r: Ranks, r': Ranks, u: FunctionId, rank: nat) {
    && Sound(h, e, r') && Improves(r, r')
    && u in r' && r'[u] <= rank
    && forall x :: Changed(r, r', x) ==> rank <= r'[x] && Relaxed(h, r', x)
  }

  /** The ranks while the callees of `u` are gone through; those in `todo` are left. */
  ghost predicate RankingCallees(h: Graph, e: FunctionId, r: Ranks, r': Ranks, u: FunctionId, rank: nat,
      todo: set<FunctionId>)
  {
    && Sound(h, e, r') && Improves(r, r')
    && u in h && u in r' && r'[u] == rank && (u in r ==> r[u] > rank)
    && (forall y :: y in h[u] && y !in todo ==> y in r' && r'[y] <= rank + 1)
    && forall x :: Changed(r, r', x) && x != u ==> rank <= r'[x] && Relaxed(h, r', x)
  }

  /** Each set of pairs below shrinks with every change: it bounds the number of visits. */
  ghost function Slack(h: Graph, r: Ranks): set<(FunctionId, nat)> {
    set x, k: nat | x in h && 0 <= k < |h| && (x in r ==> k < r[x]) :: (x, k)
  }

  /** The functions whose ranking is under way; they have pairwise different, smaller ranks. */
  ghost predicate Active(h: Graph, r: Ranks, active: set<FunctionId>, rank: nat) {
    && active <= h.Keys && |active| == rank
    && forall x :: x in active ==> x in r && r[x] < rank
  }

  lemma {:induction false} RankBelowSize(h: Graph, r: Ranks, active: set<FunctionId>, u: FunctionId, rank: nat)
    requires Active(h, r, active, rank) && u in h && (u in r ==> r[u] > rank)
    ensures rank < |h|
    ensures Active(h, r[u := rank], active + {u}, rank + 1)
  {
    Cardinality(active + {u}, h.Keys);
  }

  lemma {:induction false} Cardinality(a: set<FunctionId>, b: set<FunctionId>)
    requires a <= b
    ensures |a| <= |b|
    decreases a
  {
    if a != {} {
      var x :| x in a;
      Cardinality(a - {x}, b - {x});
    }
  }

  lemma {:induction false} ActiveStays(h: Graph, r: Ranks, r': Ranks, active: set<FunctionId>, rank: nat)
    requires Active(h, r, active, rank) && Improves(r, r')
    ensures Active(h, r', active, rank)
  {
  }

  lemma {:induction false} SlackShrinks(h: Graph, r: Ranks, r': Ranks, u: FunctionId, rank: nat)
    requires u in h && rank < |h| && (u in r ==> r[u] > rank)
    requires Improves(r, r') && u in r' && r'[u] <= rank
    ensures Slack(h, r') < Slack(h, r)
  {
    assert (u, rank) in Slack(h, r) && (u, rank) !in Slack(h, r');
  }

  lemma {:induction false} StartRanking(h: Graph, e: FunctionId, r: Ranks, u: FunctionId, rank: nat)
    requires Sound(h, e, r) && u in h && Walk(h, rank, e, u) && (u in r ==> r[u] > rank)
    ensures RankingCallees(h, e, r, r[u := rank], u, rank, h[u])
  {
    hide Walk;
  }

  lemma {:induction false} AfterCallee(h: Graph, e: FunctionId, r: Ranks, s: Ranks, t: Ranks, u: FunctionId, rank: nat,
      todo: set<FunctionId>, y: FunctionId)
    requires RankingCallees(h, e, r, s, u, rank, todo)
    requires Ranked(h, e, s, t, y, rank + 1)
    ensures RankingCallees(h, e, r, t, u, rank, todo - {y})
  {
    hide Walk;
    forall x | Changed(r, t, x) && x != u
      ensures rank <= t[x] && Relaxed(h, t, x)
    {
      if !Changed(s, t, x) {
        assert Relaxed(h, s, x);
      }
    }
    assert !Changed(s, t, u);
  }

  lemma {:induction false} FinishRanking(h: Graph, e: FunctionId, r: Ranks, r': Ranks, u: FunctionId, rank: nat)
    requires RankingCallees(h, e, r, r', u, rank, {})
    ensures Ranked(h, e, r, r', u, rank)
  {
    hide Walk;
  }

  lemma {:induction false} NothingToRank(h: Graph, e: FunctionId, r: Ranks, u: FunctionId, rank: nat)
    requires Sound(h, e, r) && u in r && r[u] <= rank
    ensures Ranked(h, e, r, r, u, rank)
  {
    hide Walk;
  }

  lemma {:induction false} RankAtMostWalk(h: Graph, e: FunctionId, r: Ranks, n: nat, x: FunctionId)
    requires Ranked(h, e, map[], r, e, 0) && Walk(h, n, e, x)
    ensures x in r && r[x] <= n
  {
    if n > 0 {
      var w :| Walk(h, n - 1, e, w) && w in h && x in h && x in h[w];
      RankAtMostWalk(h, e, r, n - 1, w);
      assert Changed(map[], r, w);
    }
  }

  /** Ranking from the entry leaves every member its shortest distance. */
  lemma {:induction false} RankingCorrect(h: Graph, e: FunctionId, r: Ranks)
    requires Ranked(h, e, map[], r, e, 0)
    requires forall x :: x in h ==> Reach(h, e, x)
    ensures ShortestRanks(h, e, r)
  {
    forall x, n: nat | Walk(h, n, e, x)
      ensures x in r && r[x] <= n
    {
      RankAtMostWalk(h, e, r, n, x);
    }
  }

  lemma {:induction false} InnerCalls(g: Graph, u: FunctionId)
    requires u in g
    ensures u in Inner(g, Component(g, u)) && Inner(g, Component(g, u)).Keys == Component(g, u)
    ensures forall v :: v in Inner(g, Component(g, u))[u] <==> v in g[u] && v in Component(g, u) && v != u
  {
    InOwnComponent(g, u);
  }

  /** What holds when the callee `y` of `u` is about to be ranked. */
  lemma {:induction false} RankingFacts(h: Graph, e: FunctionId, r: Ranks, r': Ranks, active: set<FunctionId>,
      u: FunctionId, rank: nat, todo: set<FunctionId>, y: FunctionId)
    requires RankingCallees(h, e, r, r', u, rank, todo) && Active(h, r, active, rank) && (u in r ==> r[u] > rank)
    requires Walk(h, rank, e, u) && u in h && y in h && y in h[u]
    ensures Sound(h, e, r') && Walk(h, rank + 1, e, y)
    ensures Active(h, r', active + {u}, rank + 1)
    ensures Slack(h, r') < Slack(h, r)
  {
    RankBelowSize(h, r, active, u, rank);
    ActiveStays(h, r, r', active, rank);
    SlackShrinks(h, r, r', u, rank);
  }
}
