/** Dictionaries that accumulate a weight per call under the callee. */
module Tallies {
  import opened Graphs
  import opened Sums

  type Edge = (FunctionId, FunctionId)

  /** The callers among `ms` whose call of `v` is in `edges`. */
  ghost function Callers(ms: set<FunctionId>, edges: set<Edge>, v: FunctionId): set<FunctionId> {
    set m | m in ms && (m, v) in edges
  }

  ghost function EdgeSum(w: (FunctionId, FunctionId) -> real, ms: set<FunctionId>, edges: set<Edge>,
      v: FunctionId): real
  {
    SumOf(map m | m in Callers(ms, edges, v) :: w(m, v))
  }

  /** `sums` has an entry for every callee of a call in `edges`, the total weight of these calls. */
  ghost predicate Tallied(w: (FunctionId, FunctionId) -> real, ms: set<FunctionId>, edges: set<Edge>,
      sums: map<FunctionId, real>)
  {
    && (forall v :: v in sums <==> Callers(ms, edges, v) != {})
    && (forall v :: v in sums ==> sums[v] == EdgeSum(w, ms, edges, v))
  }

  ghost function Get(sums: map<FunctionId, real>, v: FunctionId): real {
    if v in sums then sums[v] else 0.0
  }

  lemma {:induction false} EdgeSumOne(w: (FunctionId, FunctionId) -> real, ms: set<FunctionId>, edges: set<Edge>,
      m: FunctionId, v: FunctionId, x: FunctionId)
    requires m in ms && (m, v) !in edges
    ensures EdgeSum(w, ms, edges + {(m, v)}, x) == EdgeSum(w, ms, edges, x) + if x == v then w(m, v) else 0.0
    ensures Callers(ms, edges + {(m, v)}, x) == Callers(ms, edges, x) + if x == v then {m} else {}
  {
    var a, b := map k | k in Callers(ms, edges, x) :: w(k, x), map k | k in Callers(ms, edges + {(m, v)}, x) :: w(k, x);
    if x == v {
      assert b == a[m := w(m, v)];
      SumInsert(a, m, w(m, v));
    } else {
      assert b == a;
    }
  }

  lemma {:induction false} EmptySum(w: (FunctionId, FunctionId) -> real, ms: set<FunctionId>, edges: set<Edge>,
      v: FunctionId)
    requires Callers(ms, edges, v) == {}
    ensures EdgeSum(w, ms, edges, v) == 0.0
  {
    SumZero(map k | k in Callers(ms, edges, v) :: w(k, v));
  }

  lemma {:induction false} TallyOne(w: (FunctionId, FunctionId) -> real, ms: set<FunctionId>, edges: set<Edge>,
      sums: map<FunctionId, real>, m: FunctionId, v: FunctionId)
    requires Tallied(w, ms, edges, sums) && m in ms && (m, v) !in edges
    ensures Tallied(w, ms, edges + {(m, v)}, sums[v := Get(sums, v) + w(m, v)])
  {
    hide EdgeSum, Callers;
    forall x
      ensures EdgeSum(w, ms, edges + {(m, v)}, x) == EdgeSum(w, ms, edges, x) + if x == v then w(m, v) else 0.0
      ensures Callers(ms, edges + {(m, v)}, x) == Callers(ms, edges, x) + if x == v then {m} else {}
    {
      EdgeSumOne(w, ms, edges, m, v, x);
    }
    if v !in sums {
      EmptySum(w, ms, edges, v);
    }
  }

  lemma {:induction false} TallyNone(w: (FunctionId, FunctionId) -> real, ms: set<FunctionId>)
    ensures Tallied(w, ms, {}, map[])
  {
  }
}
