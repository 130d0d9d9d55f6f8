/** Finite sums of reals, written as the sum of the values of a finite map.  Python's dict and
    set iteration order is unspecified, so every accumulating loop of the profiler is specified
    by such a sum: its value does not depend on the order in which the keys are visited. */
module Sums {

  ghost function SumOf<T>(m: map<T, real>): real
    decreases m.Keys
  {
    if m == map[] then 0.0
    else
      var x :| x in m;
      assert (m - {x}).Keys == m.Keys - {x};
      m[x] + SumOf(m - {x})
  }

  /** Any key may be taken out first: this is what makes the sum independent of the order. */
  lemma {:induction false} SumRemove<T>(m: map<T, real>, x: T)
    requires x in m
    ensures SumOf(m) == m[x] + SumOf(m - {x})
    decreases m.Keys
  {
    var y :| y in m && SumOf(m) == m[y] + SumOf(m - {y});
    if y != x {
      var rest := m - {y};
      assert rest.Keys == m.Keys - {y};
      SumRemove(rest, x);
      SumRemove(m - {x}, y);
      assert rest - {x} == (m - {x}) - {y};
    }
  }

  lemma {:induction false} SumInsert<T>(m: map<T, real>, x: T, v: real)
    requires x !in m
    ensures SumOf(m[x := v]) == SumOf(m) + v
  {
    SumRemove(m[x := v], x);
    assert m[x := v] - {x} == m;
  }

  lemma {:induction false} SumUpdate<T>(m: map<T, real>, x: T, v: real)
    requires x in m
    ensures SumOf(m[x := v]) == SumOf(m) - m[x] + v
  {
    SumRemove(m, x);
    SumRemove(m[x := v], x);
    assert m[x := v] - {x} == m - {x};
  }

  lemma {:induction false} SumPlus<T>(a: map<T, real>, b: map<T, real>, c: map<T, real>)
    requires a.Keys == b.Keys == c.Keys
    requires forall x :: x in a ==> c[x] == a[x] + b[x]
    ensures SumOf(c) == SumOf(a) + SumOf(b)
    decreases a.Keys
  {
    if a.Keys == {} {
      assert a == map[] && b == map[] && c == map[];
    } else {
      var x :| x in a;
      SumRemove(a, x); SumRemove(b, x); SumRemove(c, x);
      assert (a - {x}).Keys == a.Keys - {x};
      SumPlus(a - {x}, b - {x}, c - {x});
    }
  }

  /** A product kept as one term, so that its definition can be hidden in inductive proofs. */
  function Times(a: real, b: real): real {
    a * b
  }

  lemma {:induction false} ScaleStep(k: real, a: real, rest: real)
    ensures Times(k, a + rest) == Times(k, a) + Times(k, rest)
  {
  }

  lemma {:induction false} SumScale<T>(k: real, a: map<T, real>, c: map<T, real>)
    requires a.Keys == c.Keys
    requires forall x :: x in a ==> c[x] == Times(k, a[x])
    ensures SumOf(c) == Times(k, SumOf(a))
    decreases a.Keys
  {
    if a.Keys == {} {
      SumZero(a);
      SumZero(c);
    } else {
      hide Times;
      var x :| x in a;
      assert (a - {x}).Keys == a.Keys - {x};
      SumScale(k, a - {x}, c - {x});
      SumRemove(a, x);
      SumRemove(c, x);
      ScaleStep(k, a[x], SumOf(a - {x}));
    }
  }

  lemma {:induction false} SumLeq<T>(a: map<T, real>, b: map<T, real>)
    requires a.Keys == b.Keys
    requires forall x :: x in a ==> a[x] <= b[x]
    ensures SumOf(a) <= SumOf(b)
    decreases a.Keys
  {
    if a.Keys == {} {
      assert a == map[] && b == map[];
    } else {
      var x :| x in a;
      SumRemove(a, x); SumRemove(b, x);
      assert (a - {x}).Keys == a.Keys - {x};
      SumLeq(a - {x}, b - {x});
    }
  }

  lemma {:induction false} SumZero<T>(a: map<T, real>)
    requires forall x :: x in a ==> a[x] == 0.0
    ensures SumOf(a) == 0.0
    decreases a.Keys
  {
    if a.Keys == {} {
      assert a == map[];
    } else {
      var x :| x in a;
      SumRemove(a, x);
      assert (a - {x}).Keys == a.Keys - {x};
      SumZero(a - {x});
    }
  }

  lemma {:induction false} SumNonnegative<T>(a: map<T, real>)
    requires forall x :: x in a ==> a[x] >= 0.0
    ensures SumOf(a) >= 0.0
    ensures forall x :: x in a ==> a[x] <= SumOf(a)
    decreases a.Keys
  {
    if a.Keys == {} {
      assert a == map[];
    } else {
      forall x | x in a
        ensures a[x] <= SumOf(a) && SumOf(a) >= 0.0
      {
        SumRemove(a, x);
        assert (a - {x}).Keys == a.Keys - {x};
        SumNonnegative(a - {x});
      }
    }
  }

  /** A sum of non-negative terms vanishes exactly when every term does. */
  lemma {:induction false} SumZeroIff<T>(a: map<T, real>)
    requires forall x :: x in a ==> a[x] >= 0.0
    ensures SumOf(a) == 0.0 <==> forall x :: x in a ==> a[x] == 0.0
  {
    SumNonnegative(a);
    if forall x :: x in a ==> a[x] == 0.0 {
      SumZero(a);
    }
  }

  lemma {:induction false} SumDisjoint<T>(a: map<T, real>, b: map<T, real>)
    requires a.Keys !! b.Keys
    ensures SumOf(a + b) == SumOf(a) + SumOf(b)
    decreases a.Keys
  {
    if a.Keys == {} {
      assert a == map[] && a + b == b;
    } else {
      var x :| x in a;
      SumRemove(a, x); SumRemove(a + b, x);
      assert (a - {x}).Keys == a.Keys - {x};
      SumDisjoint(a - {x}, b);
      assert (a + b) - {x} == (a - {x}) + b;
    }
  }

  /** Keys that carry zero may be added or dropped. */
  lemma {:induction false} SumExtend<T>(a: map<T, real>, b: map<T, real>)
    requires a.Keys <= b.Keys
    requires forall x :: x in b ==> b[x] == if x in a then a[x] else 0.0
    ensures SumOf(b) == SumOf(a)
  {
    var zeros := b - a.Keys;
    SumZero(zeros);
    SumDisjoint(a, zeros);
    assert a + zeros == b;
  }

  lemma {:induction false} SumOnes<T>(m: map<T, real>)
    requires forall u :: u in m ==> m[u] == 1.0
    ensures SumOf(m) == |m| as real
    decreases m.Keys
  {
    if m.Keys == {} {
      SumZero(m);
    } else {
      var u :| u in m;
      SumRemove(m, u);
      assert (m - {u}).Keys == m.Keys - {u};
      assert |m.Keys - {u}| == |m.Keys| - 1;
      SumOnes(m - {u});
    }
  }

  lemma {:induction false} SumSingle<T>(m: map<T, real>, x: T)
    requires m.Keys == {x}
    ensures SumOf(m) == m[x]
  {
    SumRemove(m, x);
    SumZero(m - {x});
  }

  /** Sub-sums of non-negative terms are smaller. */
  lemma {:induction false} SumSubset<T>(a: map<T, real>, b: map<T, real>)
    requires a.Keys <= b.Keys
    requires forall x :: x in b ==> b[x] >= 0.0
    requires forall x :: x in a ==> a[x] == b[x]
    ensures SumOf(a) <= SumOf(b)
  {
    var rest := b - a.Keys;
    SumNonnegative(rest);
    SumDisjoint(a, rest);
    assert a + rest == b;
  }

  // ----- sums over the two axes of a matrix -----

  ghost function Row<T, U>(w: (T, U) -> real, x: T, ys: set<U>): map<U, real> {
    map y | y in ys :: w(x, y)
  }

  ghost function Column<T, U>(w: (T, U) -> real, xs: set<T>, y: U): map<T, real> {
    map x | x in xs :: w(x, y)
  }

  ghost function RowSums<T, U>(w: (T, U) -> real, xs: set<T>, ys: set<U>): map<T, real> {
    map x | x in xs :: SumOf(Row(w, x, ys))
  }

  ghost function ColumnSums<T, U>(w: (T, U) -> real, xs: set<T>, ys: set<U>): map<U, real> {
    map y | y in ys :: SumOf(Column(w, xs, y))
  }

  /** Summing a matrix by rows or by columns gives the same total. */
  lemma {:induction false} SumExchange<T, U>(w: (T, U) -> real, xs: set<T>, ys: set<U>)
    ensures SumOf(RowSums(w, xs, ys)) == SumOf(ColumnSums(w, xs, ys))
    decreases xs
  {
    if xs == {} {
      NoRows(w, xs, ys);
    } else {
      var x :| x in xs;
      SumExchange(w, xs - {x}, ys);
      AddRow(w, xs, ys, x);
    }
  }

  lemma {:induction false} NoRows<T, U>(w: (T, U) -> real, xs: set<T>, ys: set<U>)
    requires xs == {}
    ensures SumOf(RowSums(w, xs, ys)) == SumOf(ColumnSums(w, xs, ys)) == 0.0
  {
    forall y | y in ys
      ensures ColumnSums(w, xs, ys)[y] == 0.0
    {
      assert Column(w, xs, y) == map[];
    }
    SumZero(RowSums(w, xs, ys));
    SumZero(ColumnSums(w, xs, ys));
  }

  lemma {:induction false} AddRow<T, U>(w: (T, U) -> real, xs: set<T>, ys: set<U>, x: T)
    requires x in xs
    ensures SumOf(RowSums(w, xs, ys)) == SumOf(RowSums(w, xs - {x}, ys)) + SumOf(Row(w, x, ys))
    ensures SumOf(ColumnSums(w, xs, ys)) == SumOf(ColumnSums(w, xs - {x}, ys)) + SumOf(Row(w, x, ys))
  {
    SumRemove(RowSums(w, xs, ys), x);
    assert RowSums(w, xs, ys) - {x} == RowSums(w, xs - {x}, ys);
    forall y | y in ys
      ensures ColumnSums(w, xs, ys)[y] == ColumnSums(w, xs - {x}, ys)[y] + Row(w, x, ys)[y]
    {
      SumRemove(Column(w, xs, y), x);
      assert Column(w, xs, y) - {x} == Column(w, xs - {x}, y);
    }
    SumPlus(ColumnSums(w, xs - {x}, ys), Row(w, x, ys), ColumnSums(w, xs, ys));
  }

  // ----- sums over the blocks of a partition -----

  ghost predicate PairwiseDisjoint<T(!new)>(blocks: set<set<T>>) {
    forall a, b :: a in blocks && b in blocks && a != b ==> a !! b
  }

  ghost function Union<T(!new)>(blocks: set<set<T>>): set<T> {
    set b, x | b in blocks && x in b :: x
  }

  ghost function Restrict<T>(f: map<T, real>, s: set<T>): map<T, real>
    requires s <= f.Keys
  {
    map x | x in s :: f[x]
  }

  lemma {:induction false} SplitUnion<T(!new)>(blocks: set<set<T>>, b: set<T>)
    requires PairwiseDisjoint(blocks) && b in blocks
    ensures Union(blocks) == b + Union(blocks - {b})
    ensures b !! Union(blocks - {b})
  {
    forall x | x in Union(blocks)
      ensures x in b + Union(blocks - {b})
    {
    }
  }

  /** A sum over a set is the sum of the sums over the blocks of any partition of it. */
  lemma {:induction false} SumPartition<T(!new)>(blocks: set<set<T>>, f: map<T, real>, sums: map<set<T>, real>)
    requires PairwiseDisjoint(blocks)
    requires Union(blocks) <= f.Keys && sums.Keys == blocks
    requires forall b :: b in blocks ==> b <= f.Keys && sums[b] == SumOf(Restrict(f, b))
    ensures SumOf(Restrict(f, Union(blocks))) == SumOf(sums)
    decreases blocks
  {
    if blocks == {} {
      assert Restrict(f, Union(blocks)) == map[] && sums == map[];
    } else {
      var b :| b in blocks;
      SplitUnion(blocks, b);
      SumRemove(sums, b);
      assert (sums - {b}).Keys == blocks - {b};
      SumPartition(blocks - {b}, f, sums - {b});
      RestrictSplit(f, b, Union(blocks - {b}));
    }
  }

  lemma {:induction false} RestrictSplit<T>(f: map<T, real>, a: set<T>, b: set<T>)
    requires a + b <= f.Keys && a !! b
    ensures SumOf(Restrict(f, a + b)) == SumOf(Restrict(f, a)) + SumOf(Restrict(f, b))
  {
    SumDisjoint(Restrict(f, a), Restrict(f, b));
    assert Restrict(f, a) + Restrict(f, b) == Restrict(f, a + b);
  }

  lemma {:induction false} RestrictKeys<T>(f: map<T, real>, s: set<T>)
    requires s == f.Keys
    ensures Restrict(f, s) == f
  {
  }

  lemma {:induction false} SumBlocks<T(!new)>(blocks: set<set<T>>, f: map<T, real>, sums: map<set<T>, real>)
    requires PairwiseDisjoint(blocks) && Union(blocks) == f.Keys && sums.Keys == blocks
    requires forall b :: b in blocks ==> b <= f.Keys && sums[b] == SumOf(Restrict(f, b))
    ensures SumOf(f) == SumOf(sums)
  {
    hide SumOf, Union, PairwiseDisjoint, Restrict;
    SumPartition(blocks, f, sums);
    RestrictKeys(f, Union(blocks));
  }
}
