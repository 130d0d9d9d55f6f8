/** The order in which the change log lists the issues of a version: children below their parents,
    one level deeper. */
module Changelog {

  datatype Parent = NoParent | Under(id: int)

  function Without<T>(s: seq<T>, k: nat): seq<T>
    requires k < |s|
  {
    s[..k] + s[k + 1..]
  }

  function Inserted<T>(s: seq<T>, m: nat, x: T): seq<T>
    requires m <= |s|
  {
    s[..m] + [x] + s[m..]
  }

  predicate Among(p: Parent, ids: seq<int>) {
    p.Under? && p.id in ids
  }

  /** The first position of `x`, or the length. */
  function Search(s: seq<int>, x: int): (i: nat)
    ensures i <= |s| && x !in s[..i] && (i < |s| ==> s[i] == x)
  {
    if s == [] || s[0] == x then 0
    else
      assert s[..1 + Search(s[1..], x)] == [s[0]] + s[1..][..Search(s[1..], x)];
      1 + Search(s[1..], x)
  }

  // ----- what a listing is -----

  /** The first entry is at level 0 and no entry is more than one level deeper than the one before. */
  ghost predicate WellFormed(levels: seq<nat>) {
    (|levels| > 0 ==> levels[0] == 0) && forall i :: 0 < i < |levels| ==> levels[i] <= levels[i - 1] + 1
  }

  /** Entry `j` is the nearest entry before `i` that is less deep. */
  ghost predicate Encloses(levels: seq<nat>, j: nat, i: nat) {
    j < i < |levels| && levels[j] < levels[i] && forall m :: j < m < i ==> levels[m] >= levels[i]
  }

  ghost predicate BelowParent(ids: seq<int>, parents: seq<Parent>, levels: seq<nat>, i: nat)
    requires |ids| == |parents| == |levels| && i < |levels|
  {
    exists j: nat :: Encloses(levels, j, i) && parents[i] == Under(ids[j]) && levels[i] == levels[j] + 1
  }

  /** Every entry that is not at level 0 is listed directly below its parent. */
  ghost predicate Nested(ids: seq<int>, parents: seq<Parent>, levels: seq<nat>) {
    |ids| == |parents| == |levels| && forall i: nat :: i < |levels| && levels[i] > 0 ==>
      BelowParent(ids, parents, levels, i)
  }

  /** `m` is the end of the entries below `l`. */
  ghost predicate EndOfBranch(levels: seq<nat>, l: nat, m: nat) {
    l < m <= |levels| && (forall q :: l < q < m ==> levels[q] > levels[l]) && (m < |levels| ==> levels[m] <= levels[l])
  }

  lemma {:induction false} InsertWellFormed(levels: seq<nat>, l: nat, m: nat)
    requires WellFormed(levels) && EndOfBranch(levels, l, m)
    ensures WellFormed(Inserted(levels, m, levels[l] + 1))
  {
  }

  /** Where an entry goes when another one is inserted at `m`. */
  function Shifted(m: nat, i: nat): nat {
    if i < m then i else i + 1
  }

  lemma {:induction false} InsertedAt<T>(s: seq<T>, m: nat, x: T, i: nat)
    requires m <= |s| && i < |s|
    ensures Shifted(m, i) < |Inserted(s, m, x)| == |s| + 1 && Inserted(s, m, x)[Shifted(m, i)] == s[i]
    ensures Inserted(s, m, x)[m] == x
  {
  }

  lemma {:induction false} OldBelowParent(ids: seq<int>, parents: seq<Parent>, levels: seq<nat>, l: nat, m: nat,
      id: int, k: nat)
    requires Nested(ids, parents, levels) && EndOfBranch(levels, l, m) && k < |levels| && levels[k] > 0
    ensures Shifted(m, k) < |Inserted(levels, m, levels[l] + 1)| == |Inserted(parents, m, Under(ids[l]))| ==
      |Inserted(ids, m, id)|
    ensures BelowParent(Inserted(ids, m, id), Inserted(parents, m, Under(ids[l])), Inserted(levels, m, levels[l] + 1),
        Shifted(m, k))
  {
    hide Inserted;
    assert BelowParent(ids, parents, levels, k);
    var j: nat :| Encloses(levels, j, k) && parents[k] == Under(ids[j]) && levels[k] == levels[j] + 1;
    InsertedAt(ids, m, id, j);
    InsertedAt(parents, m, Under(ids[l]), k);
    InsertedAt(levels, m, levels[l] + 1, j);
    InsertedAt(levels, m, levels[l] + 1, k);
    StillEncloses(levels, l, m, j, k);
  }

  /** A new entry at the end of the branch of its parent leaves all entries below their parents. */
  lemma {:induction false} InsertNested(ids: seq<int>, parents: seq<Parent>, levels: seq<nat>, l: nat, m: nat, id: int)
    requires Nested(ids, parents, levels) && EndOfBranch(levels, l, m)
    ensures Nested(Inserted(ids, m, id), Inserted(parents, m, Under(ids[l])), Inserted(levels, m, levels[l] + 1))
  {
    hide BelowParent;
    var ids', parents', levels' :=
      Inserted(ids, m, id), Inserted(parents, m, Under(ids[l])), Inserted(levels, m, levels[l] + 1);
    forall i: nat | i < |levels'| && levels'[i] > 0
      ensures BelowParent(ids', parents', levels', i)
    {
      if i == m {
        NewBelowParent(ids, parents, levels, l, m, id);
      } else {
        OldBelowParent(ids, parents, levels, l, m, id, if i < m then i else i - 1);
      }
    }
  }

  lemma {:induction false} NewBelowParent(ids: seq<int>, parents: seq<Parent>, levels: seq<nat>, l: nat, m: nat,
      id: int)
    requires |ids| == |parents| == |levels| && EndOfBranch(levels, l, m)
    ensures BelowParent(Inserted(ids, m, id), Inserted(parents, m, Under(ids[l])), Inserted(levels, m, levels[l] + 1),
        m)
  {
    assert Encloses(Inserted(levels, m, levels[l] + 1), l, m);
  }

  lemma {:induction false} StillEncloses(levels: seq<nat>, l: nat, m: nat, j: nat, k: nat)
    requires EndOfBranch(levels, l, m) && Encloses(levels, j, k)
    ensures Encloses(Inserted(levels, m, levels[l] + 1), Shifted(m, j), Shifted(m, k))
  {
    var levels' := Inserted(levels, m, levels[l] + 1);
    forall q | Shifted(m, j) < q < Shifted(m, k)
      ensures levels'[q] >= levels'[Shifted(m, k)]
    {
      if q == m {
        assert m == k || levels[m] >= levels[k];
      } else {
        assert levels'[q] == levels[if q < m then q else q - 1];
      }
    }
  }

  lemma {:induction false} AppendNested(ids: seq<int>, parents: seq<Parent>, levels: seq<nat>, id: int, parent: Parent)
    requires Nested(ids, parents, levels) && WellFormed(levels)
    ensures Nested(ids + [id], parents + [parent], levels + [0]) && WellFormed(levels + [0])
  {
    forall i: nat | i < |levels| && levels[i] > 0
      ensures BelowParent(ids + [id], parents + [parent], levels + [0], i)
    {
      assert BelowParent(ids, parents, levels, i);
      var j: nat :| Encloses(levels, j, i) && parents[i] == Under(ids[j]) && levels[i] == levels[j] + 1;
      assert Encloses(levels + [0], j, i);
    }
  }

  // ----- what the ordering keeps -----

  ghost function Pairs(ids: seq<int>, parents: seq<Parent>): seq<(int, Parent)>
    requires |ids| == |parents|
  {
    seq(|ids|, i requires 0 <= i < |ids| => (ids[i], parents[i]))
  }

  ghost predicate Distinct(ids: seq<int>) {
    forall i, j :: 0 <= i < j < |ids| ==> ids[i] != ids[j]
  }

  ghost predicate ParentWithin(x: int, issues: set<int>, ids: seq<int>, parents: seq<Parent>)
    requires |ids| == |parents|
  {
    exists i :: 0 <= i < |ids| && ids[i] == x && parents[i].Under? && parents[i].id in issues
  }

  /** Every issue of the set has its parent in the set. */
  ghost predicate Circular(issues: set<int>, ids: seq<int>, parents: seq<Parent>)
    requires |ids| == |parents|
  {
    (exists x :: x in issues) && forall x :: x in issues ==> ParentWithin(x, issues, ids, parents)
  }

  ghost predicate HasCycle(ids: seq<int>, parents: seq<Parent>)
    requires |ids| == |parents|
  {
    exists issues :: Circular(issues, ids, parents)
  }

  /** The entries left to place and the placed ones are those of the input. */
  ghost predicate Conserved(ids0: seq<int>, parents0: seq<Parent>, ids: seq<int>, parents: seq<Parent>,
      setIds: seq<int>, setParents: seq<Parent>)
  {
    && |ids0| == |parents0| && |ids| == |parents| && |setIds| == |setParents|
    && multiset(Pairs(ids, parents)) + multiset(Pairs(setIds, setParents)) == multiset(Pairs(ids0, parents0))
  }

  lemma {:induction false} PairWithout(ids: seq<int>, parents: seq<Parent>, k: nat)
    requires |ids| == |parents| && k < |ids|
    ensures multiset(Pairs(ids, parents)) ==
      multiset(Pairs(Without(ids, k), Without(parents, k))) + multiset{(ids[k], parents[k])}
  {
    var ps := Pairs(ids, parents);
    assert ps == ps[..k] + [ps[k]] + ps[k + 1..];
    assert Pairs(Without(ids, k), Without(parents, k)) == ps[..k] + ps[k + 1..];
  }

  lemma {:induction false} PairInserted(ids: seq<int>, parents: seq<Parent>, m: nat, id: int, parent: Parent)
    requires |ids| == |parents| && m <= |ids|
    ensures multiset(Pairs(Inserted(ids, m, id), Inserted(parents, m, parent))) ==
      multiset(Pairs(ids, parents)) + multiset{(id, parent)}
  {
    var ps := Pairs(ids, parents);
    assert ps == ps[..m] + ps[m..];
    assert Pairs(Inserted(ids, m, id), Inserted(parents, m, parent)) == ps[..m] + [(id, parent)] + ps[m..];
  }

  /** An issue of the input is either left or placed. */
  lemma {:induction false} LeftOrPlaced(ids0: seq<int>, parents0: seq<Parent>, ids: seq<int>, parents: seq<Parent>,
      setIds: seq<int>, setParents: seq<Parent>, x: int)
    requires Conserved(ids0, parents0, ids, parents, setIds, setParents)
    ensures x in ids0 <==> x in ids || x in setIds
  {
    var all, left, placed := Pairs(ids0, parents0), Pairs(ids, parents), Pairs(setIds, setParents);
    if i :| 0 <= i < |ids0| && ids0[i] == x {
      assert all[i] in multiset(left) + multiset(placed);
      if all[i] in left {
        var j :| 0 <= j < |left| && left[j] == all[i];
        assert ids[j] == x;
      } else {
        var j :| 0 <= j < |placed| && placed[j] == all[i];
        assert setIds[j] == x;
      }
    }
    if i :| 0 <= i < |ids| && ids[i] == x {
      assert left[i] in multiset(all);
      var j :| 0 <= j < |all| && all[j] == left[i];
      assert ids0[j] == x;
    }
    if i :| 0 <= i < |setIds| && setIds[i] == x {
      assert placed[i] in multiset(all);
      var j :| 0 <= j < |all| && all[j] == placed[i];
      assert ids0[j] == x;
    }
  }

  // ----- the round through the issues that are left -----

  /** The issues passed over since the last placement, in order: `seen` starts at `start` and goes
      around to `k`; all of them wait for a parent that is still left. */
  ghost predicate PassedOver(ids: seq<int>, parents: seq<Parent>, k: nat, start: nat, wrapped: bool, seen: seq<int>) {
    && |ids| == |parents| && start <= |ids| && k <= |ids|
    && (if wrapped then k <= start && seen == ids[start..] + ids[..k] else start <= k && seen == ids[start..k])
    && forall q :: 0 <= q < |ids| && (if wrapped then q >= start || q < k else start <= q < k) ==>
      Among(parents[q], ids)
  }

  /** After a whole round every issue has been seen. */
  lemma {:induction false} WholeRound(ids: seq<int>, parents: seq<Parent>, start: nat, seen: seq<int>, x: int)
    requires PassedOver(ids, parents, start, start, true, seen) && x in ids
    ensures x in seen
  {
    var i :| 0 <= i < |ids| && ids[i] == x;
    if i >= start {
      assert seen[i - start] == x;
    } else {
      assert seen[|ids| - start + i] == x;
    }
  }

  // ----- when an issue is placed before its parent -----

  /** What comes up after a placement that left the pointer at `start`: a whole round, and more. */
  ghost function Upcoming<T>(s: seq<T>, start: nat): (u: seq<T>)
    requires start <= |s|
    ensures |u| == 2 * |s| - start
  {
    s[start..] + s
  }

  /** The `j`-th issue to come up has come up before, and so has its parent. */
  ghost predicate Again(ids: seq<int>, parents: seq<Parent>, start: nat, j: nat)
    requires |ids| == |parents| && start < |ids| && j <= |ids|
  {
    Upcoming(ids, start)[j] in Upcoming(ids, start)[..j] &&
      Among(Upcoming(parents, start)[j], Upcoming(ids, start)[..j])
  }

  /** It waits for a parent that is still left, and is passed over. */
  ghost predicate Skipped(ids: seq<int>, parents: seq<Parent>, start: nat, j: nat)
    requires |ids| == |parents| && start < |ids| && j <= |ids|
  {
    Among(Upcoming(parents, start)[j], ids) && !Again(ids, parents, start, j)
  }

  /** The `j`-th issue to come up is the first one that is not passed over. */
  ghost predicate Stops(ids: seq<int>, parents: seq<Parent>, start: nat, j: nat)
    requires |ids| == |parents| && start < |ids| && j <= |ids|
  {
    (forall i: nat :: i < j ==> Skipped(ids, parents, start, i)) && !Skipped(ids, parents, start, j)
  }

  /** Where the `j`-th issue to come up is. */
  ghost function Position(n: nat, start: nat, j: nat): (q: nat)
    requires start < n && j <= n
    ensures q < n
  {
    if start + j < n then start + j else start + j - n
  }

  /** In some round an issue comes up again, after its parent, before any issue that is ready. */
  ghost predicate Forced(ids: seq<int>, parents: seq<Parent>, start: nat)
    requires |ids| == |parents| && (ids != [] ==> start < |ids|)
    decreases |ids|
  {
    && ids != []
    && exists j: nat ::
         && j <= |ids| && Stops(ids, parents, start, j)
         && (Again(ids, parents, start, j) || ForcedLater(ids, parents, Position(|ids|, start, j)))
  }

  /** The same once the issue at `q` has been placed. */
  ghost predicate ForcedLater(ids: seq<int>, parents: seq<Parent>, q: nat)
    requires |ids| == |parents| && q < |ids|
    decreases |ids|, 0
  {
    Forced(Without(ids, q), Without(parents, q), if |ids| - 1 <= q then 0 else q)
  }

  lemma {:induction false} ForcedStep(ids: seq<int>, parents: seq<Parent>, start: nat, j: nat)
    requires |ids| == |parents| && start < |ids| && j <= |ids| && Stops(ids, parents, start, j)
    ensures Forced(ids, parents, start) <==>
      Again(ids, parents, start, j) || ForcedLater(ids, parents, Position(|ids|, start, j))
  {
    hide Skipped, Again, Upcoming;
    forall i: nat | i <= |ids| && Stops(ids, parents, start, i)
      ensures i == j
    {
    }
  }

  /** The issues that were seen are those that have come up. */
  lemma {:induction false} SeenUpcoming(ids: seq<int>, parents: seq<Parent>, k: nat, start: nat, wrapped: bool,
      seen: seq<int>)
    requires PassedOver(ids, parents, k, start, wrapped, seen) && k < |ids| && start < |ids|
    ensures |ids| == |parents| && |seen| <= |ids| && seen == Upcoming(ids, start)[..|seen|]
    ensures Upcoming(ids, start)[|seen|] == ids[k] && Upcoming(parents, start)[|seen|] == parents[k]
    ensures Position(|ids|, start, |seen|) == k && forall x :: x in seen ==> x in ids
  {
  }

  /** No issue has come up again since the last placement. */
  ghost predicate NoneAgain(ids: seq<int>, parents: seq<Parent>, start: nat, n: nat)
    requires |ids| == |parents|
  {
    start < |ids| && n <= |ids| ==> forall j: nat :: j < n ==> Skipped(ids, parents, start, j)
  }

  /** Passing over an issue. */
  lemma {:induction false} StillNoneAgain(ids: seq<int>, parents: seq<Parent>, k: nat, start: nat, wrapped: bool,
      seen: seq<int>)
    requires PassedOver(ids, parents, k, start, wrapped, seen) && k < |ids| && start < |ids|
    requires |ids| == |parents| && NoneAgain(ids, parents, start, |seen|) && Among(parents[k], ids)
    requires !(ids[k] in seen && Among(parents[k], seen))
    ensures NoneAgain(ids, parents, start, |seen| + 1)
  {
    hide PassedOver, Upcoming;
    SeenUpcoming(ids, parents, k, start, wrapped, seen);
  }

  /** Placing an issue. */
  lemma {:induction false} StopsHere(ids: seq<int>, parents: seq<Parent>, k: nat, start: nat, wrapped: bool,
      seen: seq<int>)
    requires PassedOver(ids, parents, k, start, wrapped, seen) && k < |ids| && start < |ids|
    requires |ids| == |parents| && NoneAgain(ids, parents, start, |seen|)
    requires (!Among(parents[k], ids) || (ids[k] in seen && Among(parents[k], seen)))
    ensures Forced(ids, parents, start) <==> (ids[k] in seen && Among(parents[k], seen)) || ForcedLater(ids, parents, k)
    ensures Placements(ids, parents, start) ==
      [(ids[k], parents[k])] + Placements(Without(ids, k), Without(parents, k), if |ids| - 1 <= k then 0 else k)
    ensures Among(parents[k], seen) ==> Among(parents[k], ids)
  {
    hide PassedOver, Upcoming;
    SeenUpcoming(ids, parents, k, start, wrapped, seen);
    ForcedStep(ids, parents, start, |seen|);
    PlacementsNext(ids, parents, start, |seen|);
  }

  // ----- when that can happen at all -----

  /** An issue is listed twice, below parents that are listed, and one of these has a listed parent, too. */
  ghost predicate ListedTwice(ids: seq<int>, parents: seq<Parent>)
    requires |ids| == |parents|
  {
    exists i: nat, j: nat, l: nat :: Confusing(ids, parents, i, j, l)
  }

  ghost predicate Confusing(ids: seq<int>, parents: seq<Parent>, i: nat, j: nat, l: nat)
    requires |ids| == |parents|
  {
    && i < |ids| && j < |ids| && l < |ids| && i != j && ids[i] == ids[j] && parents[j] == Under(ids[l])
    && Among(parents[i], ids) && Among(parents[j], ids) && Among(parents[l], ids)
  }

  /** If all issues that are left wait, they all have their parents among them. */
  lemma {:induction false} RoundIsCircular(ids: seq<int>, parents: seq<Parent>)
    requires |ids| == |parents| && ids != [] && forall q :: 0 <= q < |ids| ==> Among(parents[q], ids)
    ensures Circular((set x | x in ids), ids, parents) && HasCycle(ids, parents)
  {
    assert ids[0] in (set x | x in ids);
    forall x | x in ids
      ensures ParentWithin(x, (set y | y in ids), ids, parents)
    {
      var i :| 0 <= i < |ids| && ids[i] == x;
      assert Among(parents[i], ids);
    }
  }

  lemma {:induction false} UpcomingAt<T>(s: seq<T>, start: nat, j: nat)
    requires start < |s| && j <= |s|
    ensures Upcoming(s, start)[j] == s[Position(|s|, start, j)]
  {
  }

  /** Every position comes up within a round. */
  lemma {:induction false} ComesUp(n: nat, start: nat, q: nat) returns (j: nat)
    requires start < n && q < n
    ensures j < n && Position(n, start, j) == q
  {
    j := if q >= start then q - start else q + n - start;
  }

  lemma {:induction false} PositionsDiffer(n: nat, start: nat, i: nat, j: nat)
    requires start < n && i < j < n
    ensures Position(n, start, i) != Position(n, start, j)
  {
  }

  /** After a whole round an issue that waits comes up again, and so does its parent. */
  lemma {:induction false} RoundStops(ids: seq<int>, parents: seq<Parent>, start: nat)
    requires |ids| == |parents| && start < |ids|
    ensures !Skipped(ids, parents, start, |ids|)
  {
    forall x | x in ids
      ensures x in Upcoming(ids, start)[..|ids|]
    {
      var q: nat :| q < |ids| && ids[q] == x;
      var j := ComesUp(|ids|, start, q);
      UpcomingAt(ids, start, j);
      assert Upcoming(ids, start)[..|ids|][j] == x;
    }
    UpcomingAt(ids, start, |ids|);
  }

  lemma {:induction false} FirstStop(ids: seq<int>, parents: seq<Parent>, start: nat, i: nat) returns (j: nat)
    requires |ids| == |parents| && start < |ids| && i <= |ids|
    requires forall h: nat :: h < i ==> Skipped(ids, parents, start, h)
    ensures j <= |ids| && Stops(ids, parents, start, j)
    decreases |ids| - i
  {
    hide Skipped;
    RoundStops(ids, parents, start);
    j := i;
    if Skipped(ids, parents, start, i) {
      j := FirstStop(ids, parents, start, i + 1);
    }
  }

  /** Every row of the first list is one of the second. */
  ghost predicate RowsIn(ids': seq<int>, parents': seq<Parent>, ids: seq<int>, parents: seq<Parent>) {
    && |ids| == |parents| && |ids'| == |parents'|
    && forall i: nat :: i < |ids'| ==> RowIn(ids'[i], parents'[i], ids, parents)
  }

  ghost predicate RowIn(id: int, parent: Parent, ids: seq<int>, parents: seq<Parent>)
    requires |ids| == |parents|
  {
    exists j: nat :: j < |ids| && ids[j] == id && parents[j] == parent
  }

  lemma {:induction false} CircularSooner(ids: seq<int>, parents: seq<Parent>, ids': seq<int>, parents': seq<Parent>,
      issues: set<int>)
    requires RowsIn(ids', parents', ids, parents) && Circular(issues, ids', parents')
    ensures Circular(issues, ids, parents)
  {
    hide RowsIn, ParentWithin;
    RowsLengths(ids, parents, ids', parents');
    forall x | x in issues
      ensures ParentWithin(x, issues, ids, parents)
    {
      ParentSooner(ids, parents, ids', parents', issues, x);
    }
  }

  lemma {:induction false} RowsLengths(ids: seq<int>, parents: seq<Parent>, ids': seq<int>, parents': seq<Parent>)
    requires RowsIn(ids', parents', ids, parents)
    ensures |ids| == |parents| && |ids'| == |parents'|
  {
  }

  lemma {:induction false} ParentSooner(ids: seq<int>, parents: seq<Parent>, ids': seq<int>, parents': seq<Parent>,
      issues: set<int>, x: int)
    requires RowsIn(ids', parents', ids, parents) && ParentWithin(x, issues, ids', parents')
    ensures ParentWithin(x, issues, ids, parents)
  {
    var i: nat :| i < |ids'| && ids'[i] == x && parents'[i].Under? && parents'[i].id in issues;
    assert RowIn(ids'[i], parents'[i], ids, parents);
  }

  lemma {:induction false} AmongSooner(ids: seq<int>, parents: seq<Parent>, ids': seq<int>, parents': seq<Parent>,
      p: Parent)
    requires RowsIn(ids', parents', ids, parents) && Among(p, ids')
    ensures Among(p, ids)
  {
    var i: nat :| i < |ids'| && ids'[i] == p.id;
    assert RowIn(ids'[i], parents'[i], ids, parents);
  }

  lemma {:induction false} ConfusingSooner(ids: seq<int>, parents: seq<Parent>, ids': seq<int>, parents': seq<Parent>,
      i: nat, j: nat, l: nat, i': nat, j': nat, l': nat)
    requires RowsIn(ids', parents', ids, parents) && Confusing(ids', parents', i', j', l')
    requires i < |ids| && ids[i] == ids'[i'] && parents[i] == parents'[i']
    requires j < |ids| && ids[j] == ids'[j'] && parents[j] == parents'[j'] && i != j
    requires l < |ids| && ids[l] == ids'[l'] && parents[l] == parents'[l']
    ensures ListedTwice(ids, parents)
  {
    hide RowsIn, Among;
    RowsLengths(ids, parents, ids', parents');
    AmongSooner(ids, parents, ids', parents', parents[i]);
    AmongSooner(ids, parents, ids', parents', parents[j]);
    AmongSooner(ids, parents, ids', parents', parents[l]);
    assert Confusing(ids, parents, i, j, l);
  }

  function Before(q: nat, i: nat): nat {
    if i < q then i else i + 1
  }

  lemma {:induction false} RowsWithout(ids: seq<int>, parents: seq<Parent>, q: nat)
    requires |ids| == |parents| && q < |ids|
    ensures |Without(ids, q)| == |Without(parents, q)| == |ids| - 1
    ensures RowsIn(Without(ids, q), Without(parents, q), ids, parents)
    ensures forall i: nat :: i < |ids| - 1 ==>
      Without(ids, q)[i] == ids[Before(q, i)] && Without(parents, q)[i] == parents[Before(q, i)]
  {
    forall i: nat | i < |ids| - 1
      ensures RowIn(Without(ids, q)[i], Without(parents, q)[i], ids, parents)
    {
      assert Without(ids, q)[i] == ids[Before(q, i)];
    }
  }

  /** What holds for some of the issues holds for all. */
  lemma {:induction false} LaterIsSooner(ids: seq<int>, parents: seq<Parent>, q: nat)
    requires |ids| == |parents| && q < |ids|
    ensures |Without(ids, q)| == |Without(parents, q)| == |ids| - 1
    ensures HasCycle(Without(ids, q), Without(parents, q)) ==> HasCycle(ids, parents)
    ensures ListedTwice(Without(ids, q), Without(parents, q)) ==> ListedTwice(ids, parents)
  {
    hide Without, RowsIn, Circular;
    var ids', parents' := Without(ids, q), Without(parents, q);
    RowsWithout(ids, parents, q);
    if issues :| Circular(issues, ids', parents') {
      CircularSooner(ids, parents, ids', parents', issues);
    }
    if i: nat, j: nat, l: nat :| Confusing(ids', parents', i, j, l) {
      ConfusingSooner(ids, parents, ids', parents', Before(q, i), Before(q, j), Before(q, l), i, j, l);
    }
  }

  /** The branch is only taken if there is a cycle of parents, or an issue that is listed twice. */
  lemma {:induction false} ForcedOnly(ids: seq<int>, parents: seq<Parent>, start: nat)
    requires |ids| == |parents| && (ids != [] ==> start < |ids|) && Forced(ids, parents, start)
    ensures HasCycle(ids, parents) || ListedTwice(ids, parents)
    decreases |ids|
  {
    hide Without, HasCycle, ListedTwice;
    var j: nat :| j <= |ids| && Stops(ids, parents, start, j) &&
      (Again(ids, parents, start, j) || ForcedLater(ids, parents, Position(|ids|, start, j)));
    if Again(ids, parents, start, j) {
      AgainOnly(ids, parents, start, j);
    } else {
      var q := Position(|ids|, start, j);
      LaterIsSooner(ids, parents, q);
      ForcedOnly(Without(ids, q), Without(parents, q), if |ids| - 1 <= q then 0 else q);
    }
  }

  lemma {:induction false} AgainOnly(ids: seq<int>, parents: seq<Parent>, start: nat, j: nat)
    requires |ids| == |parents| && start < |ids| && j <= |ids|
    requires Stops(ids, parents, start, j) && Again(ids, parents, start, j)
    ensures HasCycle(ids, parents) || ListedTwice(ids, parents)
  {
    hide HasCycle, Upcoming;
    var n, up := |ids|, Upcoming(ids, start);
    forall i: nat | i <= n
      ensures up[i] == ids[Position(n, start, i)] && Upcoming(parents, start)[i] == parents[Position(n, start, i)]
    {
      UpcomingAt(ids, start, i);
      UpcomingAt(parents, start, i);
    }
    forall i: nat | i < j
      ensures Among(parents[Position(n, start, i)], ids)
    {
      assert Skipped(ids, parents, start, i);
    }
    if j < n {
      var i: nat :| i < j && up[i] == up[j];
      var l: nat :| l < j && Under(up[l]) == Upcoming(parents, start)[j];
      PositionsDiffer(n, start, i, j);
      assert Confusing(ids, parents, Position(n, start, i), Position(n, start, j), Position(n, start, l));
    } else {
      forall q: nat | q < n
        ensures Among(parents[q], ids)
      {
        var i := ComesUp(n, start, q);
      }
      RoundIsCircular(ids, parents);
    }
  }

  /** A cycle of parents always leads to the branch. */
  lemma {:induction false} CycleForces(ids: seq<int>, parents: seq<Parent>, start: nat, issues: set<int>)
    requires |ids| == |parents| && (ids != [] ==> start < |ids|) && Circular(issues, ids, parents)
    ensures Forced(ids, parents, start)
    decreases |ids|
  {
    hide Without, Upcoming, Circular, Again, Stops, Forced;
    CycleNotEmpty(ids, parents, issues);
    var j := FirstStop(ids, parents, start, 0);
    ForcedStep(ids, parents, start, j);
    if !Again(ids, parents, start, j) {
      var q := Position(|ids|, start, j);
      ReadyAt(ids, parents, start, j);
      StillCircular(ids, parents, q, issues);
      CycleForces(Without(ids, q), Without(parents, q), if |ids| - 1 <= q then 0 else q, issues);
    }
  }

  lemma {:induction false} ParentInCycle(ids: seq<int>, parents: seq<Parent>, issues: set<int>, x: int) returns (i: nat)
    requires |ids| == |parents| && Circular(issues, ids, parents) && x in issues
    ensures i < |ids| && ids[i] == x && parents[i].Under? && parents[i].id in issues
  {
    assert ParentWithin(x, issues, ids, parents);
    i :| i < |ids| && ids[i] == x && parents[i].Under? && parents[i].id in issues;
  }

  lemma {:induction false} CycleNotEmpty(ids: seq<int>, parents: seq<Parent>, issues: set<int>)
    requires |ids| == |parents| && Circular(issues, ids, parents)
    ensures ids != []
  {
    var x :| x in issues;
    var i := ParentInCycle(ids, parents, issues, x);
  }

  lemma {:induction false} ReadyAt(ids: seq<int>, parents: seq<Parent>, start: nat, j: nat)
    requires |ids| == |parents| && start < |ids| && j <= |ids|
    requires Stops(ids, parents, start, j) && !Again(ids, parents, start, j)
    ensures !Among(parents[Position(|ids|, start, j)], ids)
  {
    hide Upcoming, Again;
    UpcomingAt(parents, start, j);
  }

  /** Placing an issue whose parent is not left keeps all cycles. */
  lemma {:induction false} StillCircular(ids: seq<int>, parents: seq<Parent>, q: nat, issues: set<int>)
    requires |ids| == |parents| && q < |ids| && Circular(issues, ids, parents) && !Among(parents[q], ids)
    ensures |Without(ids, q)| == |Without(parents, q)| == |ids| - 1
    ensures Circular(issues, Without(ids, q), Without(parents, q))
  {
    hide ParentWithin;
    forall x | x in issues
      ensures ParentWithin(x, issues, Without(ids, q), Without(parents, q))
    {
      ParentStays(ids, parents, q, issues, x);
    }
  }

  lemma {:induction false} ParentStays(ids: seq<int>, parents: seq<Parent>, q: nat, issues: set<int>, x: int)
    requires |ids| == |parents| && q < |ids| && Circular(issues, ids, parents) && !Among(parents[q], ids)
    requires x in issues
    ensures ParentWithin(x, issues, Without(ids, q), Without(parents, q))
  {
    hide Circular;
    var i := ParentInCycle(ids, parents, issues, x);
    var h := ParentInCycle(ids, parents, issues, parents[i].id);
    var i' := if i < q then i else i - 1;
    assert Without(ids, q)[i'] == x && Without(parents, q)[i'] == parents[i];
  }

  /** A cycle of parents is enough, and it is needed unless some issue is listed twice. */
  lemma {:induction false} ForcedBetween(ids: seq<int>, parents: seq<Parent>)
    requires |ids| == |parents|
    ensures HasCycle(ids, parents) ==> Forced(ids, parents, 0)
    ensures Forced(ids, parents, 0) ==> HasCycle(ids, parents) || ListedTwice(ids, parents)
    ensures Distinct(ids) ==> !ListedTwice(ids, parents)
  {
    hide Forced;
    if issues :| Circular(issues, ids, parents) {
      CycleForces(ids, parents, 0, issues);
    }
    if Forced(ids, parents, 0) {
      ForcedOnly(ids, parents, 0);
    }
  }

  /** Every issue is listed behind its parent. */
  ghost predicate ParentsListedFirst(ids: seq<int>, parents: seq<Parent>) {
    |ids| == |parents| && forall i :: 0 <= i < |ids| ==> !Among(parents[i], ids[i..])
  }

  /** If every issue is listed behind its parent, the branch is never taken. */
  lemma {:induction false} ParentsFirst(ids: seq<int>, parents: seq<Parent>)
    requires ParentsListedFirst(ids, parents)
    ensures !Forced(ids, parents, 0)
    decreases |ids|
  {
    hide Forced, Among;
    if ids == [] {
      NotForced(ids, parents);
    } else {
      FirstReady(ids, parents);
      ForcedStep(ids, parents, 0, 0);
      forall i | 0 <= i < |ids| - 1
        ensures !Among(parents[1..][i], ids[1..][i..])
      {
        assert ids[1..][i..] == ids[i + 1..];
      }
      ParentsFirst(ids[1..], parents[1..]);
      ForcedRest(ids, parents);
    }
  }

  lemma {:induction false} FirstReady(ids: seq<int>, parents: seq<Parent>)
    requires |ids| == |parents| > 0 && !Among(parents[0], ids[0..])
    ensures Stops(ids, parents, 0, 0) && !Again(ids, parents, 0, 0)
  {
    assert ids[0..] == ids && Upcoming(ids, 0)[..0] == [];
  }

  lemma {:induction false} ForcedRest(ids: seq<int>, parents: seq<Parent>)
    requires |ids| == |parents| > 0
    ensures Without(ids, 0) == ids[1..] && Without(parents, 0) == parents[1..]
    ensures ForcedLater(ids, parents, 0) <==> Forced(ids[1..], parents[1..], 0)
  {
    hide Forced;
    assert Without(ids, 0) == ids[1..] && Without(parents, 0) == parents[1..];
  }

  // ----- the order of the rows -----

  ghost predicate SameRows(ids: seq<int>, parents: seq<Parent>, ids': seq<int>, parents': seq<Parent>) {
    |ids| == |parents| && |ids'| == |parents'| && multiset(Pairs(ids, parents)) == multiset(Pairs(ids', parents'))
  }

  lemma {:induction false} MultisetWithout<T>(s: seq<T>, k: nat)
    requires k < |s|
    ensures multiset(Without(s, k)) == multiset(s) - multiset{s[k]}
  {
    assert s == s[..k] + [s[k]] + s[k + 1..];
  }

  /** Two places of a sequence can be found in any permutation of it. */
  lemma {:induction false} TwoPlaces<T>(a: seq<T>, b: seq<T>, i: nat, j: nat) returns (i': nat, j': nat)
    requires multiset(a) == multiset(b) && i < |a| && j < |a| && i != j
    ensures i' < |b| && j' < |b| && i' != j' && b[i'] == a[i] && b[j'] == a[j]
  {
    hide Without, Before;
    assert a[i] in multiset(b);
    i' :| i' < |b| && b[i'] == a[i];
    MultisetWithout(a, i);
    MultisetWithout(b, i');
    OtherPlace(a, i, j);
    assert a[j] in multiset(Without(b, i'));
    var h: nat :| h < |Without(b, i')| && Without(b, i')[h] == a[j];
    WithoutAt(b, i', h);
    j' := Before(i', h);
  }

  lemma {:induction false} WithoutAt<T>(s: seq<T>, q: nat, h: nat)
    requires q < |s| && h < |Without(s, q)|
    ensures Before(q, h) < |s| && Before(q, h) != q && Without(s, q)[h] == s[Before(q, h)]
  {
  }

  lemma {:induction false} OtherPlace<T>(s: seq<T>, q: nat, j: nat)
    requires q < |s| && j < |s| && j != q
    ensures s[j] in multiset(Without(s, q))
  {
    assert Without(s, q)[if j < q then j else j - 1] == s[j];
  }

  lemma {:induction false} SameRowsIn(ids: seq<int>, parents: seq<Parent>, ids': seq<int>, parents': seq<Parent>)
    requires SameRows(ids, parents, ids', parents')
    ensures RowsIn(ids', parents', ids, parents)
  {
    forall i: nat | i < |ids'|
      ensures RowIn(ids'[i], parents'[i], ids, parents)
    {
      assert Pairs(ids', parents')[i] in multiset(Pairs(ids, parents));
      var j: nat :| j < |ids| && Pairs(ids, parents)[j] == Pairs(ids', parents')[i];
    }
  }

  /** Neither condition depends on the order of the rows. */
  lemma {:induction false} AnyOrder(ids: seq<int>, parents: seq<Parent>, ids': seq<int>, parents': seq<Parent>)
    requires SameRows(ids, parents, ids', parents')
    ensures HasCycle(ids', parents') ==> HasCycle(ids, parents)
    ensures ListedTwice(ids', parents') ==> ListedTwice(ids, parents)
  {
    hide Pairs, RowsIn, Circular;
    SameRowsIn(ids, parents, ids', parents');
    if issues :| Circular(issues, ids', parents') {
      CircularSooner(ids, parents, ids', parents', issues);
    }
    if i: nat, j: nat, l: nat :| Confusing(ids', parents', i, j, l) {
      SameRowsBack(ids, parents, ids', parents');
      var i', j' := TwoRows(ids', parents', ids, parents, i, j);
      var l' := OneRow(ids, parents, ids', parents', l);
      ConfusingSooner(ids, parents, ids', parents', i', j', l', i, j, l);
    }
  }

  lemma {:induction false} OneRow(ids: seq<int>, parents: seq<Parent>, ids': seq<int>, parents': seq<Parent>, l: nat)
    returns (l': nat)
    requires RowsIn(ids', parents', ids, parents) && l < |ids'|
    ensures |ids| == |parents| && |ids'| == |parents'|
    ensures l' < |ids| && ids[l'] == ids'[l] && parents[l'] == parents'[l]
  {
    assert RowIn(ids'[l], parents'[l], ids, parents);
    l' :| l' < |ids| && ids[l'] == ids'[l] && parents[l'] == parents'[l];
  }

  lemma {:induction false} TwoRows(ids: seq<int>, parents: seq<Parent>, ids': seq<int>, parents': seq<Parent>, i: nat,
      j: nat)
    returns (i': nat, j': nat)
    requires SameRows(ids, parents, ids', parents') && i < |ids| && j < |ids| && i != j
    ensures i' < |ids'| && ids'[i'] == ids[i] && parents'[i'] == parents[i]
    ensures j' < |ids'| && ids'[j'] == ids[j] && parents'[j'] == parents[j] && i' != j'
  {
    i', j' := TwoPlaces(Pairs(ids, parents), Pairs(ids', parents'), i, j);
    assert Pairs(ids', parents')[i'] == Pairs(ids, parents)[i] && Pairs(ids', parents')[j'] == Pairs(ids, parents)[j];
  }

  function ToFront<T>(s: seq<T>, k: nat): seq<T>
    requires k < |s|
  {
    [s[k]] + Without(s, k)
  }

  /** Where an entry goes when the one at `k` is moved to the front. */
  function Fronted(k: nat, i: nat): nat {
    if i < k then i + 1 else if i == k then 0 else i
  }

  lemma {:induction false} FrontSame(ids: seq<int>, parents: seq<Parent>, k: nat)
    requires |ids| == |parents| && k < |ids|
    ensures SameRows(ids, parents, ToFront(ids, k), ToFront(parents, k))
  {
    PairWithout(ids, parents, k);
    assert Pairs(ToFront(ids, k), ToFront(parents, k)) ==
      [(ids[k], parents[k])] + Pairs(Without(ids, k), Without(parents, k));
  }

  /** Some order of the same rows leads to the branch. */
  ghost predicate ForcedInSomeOrder(ids: seq<int>, parents: seq<Parent>)
    requires |ids| == |parents|
  {
    exists ids', parents' :: SameRows(ids, parents, ids', parents') && Forced(ids', parents', 0)
  }

  /** If the issue comes up a second time right after its parent, the branch is taken. */
  lemma {:induction false} ThirdForces(ids: seq<int>, parents: seq<Parent>)
    requires |ids| == |parents| >= 3 && ids[1] == ids[2] && parents[2] == Under(ids[0]) && ids[0] != ids[1]
    requires Among(parents[0], ids) && Among(parents[1], ids)
    ensures Forced(ids, parents, 0)
  {
    var up := Upcoming(ids, 0);
    assert up[..0] == [] && up[..1] == [ids[0]] && up[..2] == [ids[0], ids[1]];
    assert up[2] in up[..2] && Upcoming(parents, 0)[2] == parents[2];
    assert Skipped(ids, parents, 0, 0) && Skipped(ids, parents, 0, 1) && Again(ids, parents, 0, 2);
    assert Stops(ids, parents, 0, 2);
  }

  lemma {:induction false} ConfusedOrder(ids: seq<int>, parents: seq<Parent>, i: nat, j: nat, l: nat)
    requires |ids| == |parents| && Confusing(ids, parents, i, j, l) && ids[l] != ids[j]
    ensures ForcedInSomeOrder(ids, parents)
  {
    hide ToFront, SameRows, Forced;
    var ids1, parents1 := ToFront(ids, j), ToFront(parents, j);
    FrontRows(ids, parents, j);
    var i1, l1 := Fronted(j, i), Fronted(j, l);
    var ids2, parents2 := ToFront(ids1, i1), ToFront(parents1, i1);
    FrontRows(ids1, parents1, i1);
    var l2 := Fronted(i1, l1);
    var ids3, parents3 := ToFront(ids2, l2), ToFront(parents2, l2);
    FrontRows(ids2, parents2, l2);
    assert ids3[0] == ids[l] && parents3[0] == parents[l];
    assert Fronted(l2, Fronted(i1, i1)) == 1 && Fronted(l2, Fronted(i1, Fronted(j, j))) == 2;
    ThirdForces(ids3, parents3);
    SameRowsTransitive(ids, parents, ids1, parents1, ids2, parents2);
    SameRowsTransitive(ids, parents, ids2, parents2, ids3, parents3);
  }

  lemma {:induction false} SameRowsTransitive(ids: seq<int>, parents: seq<Parent>, ids': seq<int>,
      parents': seq<Parent>, ids'': seq<int>, parents'': seq<Parent>)
    requires SameRows(ids, parents, ids', parents') && SameRows(ids', parents', ids'', parents'')
    ensures SameRows(ids, parents, ids'', parents'')
  {
  }

  lemma {:induction false} FrontAt<T>(s: seq<T>, k: nat, i: nat)
    requires k < |s| && i < |s|
    ensures |ToFront(s, k)| == |s| && Fronted(k, i) < |s| && ToFront(s, k)[Fronted(k, i)] == s[i]
  {
  }

  lemma {:induction false} FrontRows(ids: seq<int>, parents: seq<Parent>, k: nat)
    requires |ids| == |parents| && k < |ids|
    ensures SameRows(ids, parents, ToFront(ids, k), ToFront(parents, k))
    ensures |ToFront(ids, k)| == |ToFront(parents, k)| == |ids|
    ensures forall i: nat :: i < |ids| ==>
      ToFront(ids, k)[Fronted(k, i)] == ids[i] && ToFront(parents, k)[Fronted(k, i)] == parents[i]
    ensures forall p :: Among(p, ids) ==> Among(p, ToFront(ids, k))
  {
    hide SameRows, ToFront;
    FrontSame(ids, parents, k);
    FrontAt(ids, k, k);
    FrontAt(parents, k, k);
    forall i: nat | i < |ids|
      ensures ToFront(ids, k)[Fronted(k, i)] == ids[i] && ToFront(parents, k)[Fronted(k, i)] == parents[i]
    {
      FrontAt(ids, k, i);
      FrontAt(parents, k, i);
    }
    forall p | Among(p, ids)
      ensures Among(p, ToFront(ids, k))
    {
      var i: nat :| i < |ids| && ids[i] == p.id;
      FrontAt(ids, k, i);
    }
  }

  /** Exactly for these inputs the branch can be taken at all: there is a cycle of parents, or an issue is
      listed twice in this way. */
  lemma {:induction false} SomeOrderForced(ids: seq<int>, parents: seq<Parent>)
    requires |ids| == |parents|
    ensures ForcedInSomeOrder(ids, parents) <==> HasCycle(ids, parents) || ListedTwice(ids, parents)
  {
    hide Pairs, Forced, HasCycle, ListedTwice;
    if ids', parents' :| SameRows(ids, parents, ids', parents') && Forced(ids', parents', 0) {
      ForcedBetween(ids', parents');
      AnyOrder(ids, parents, ids', parents');
    }
    if HasCycle(ids, parents) || ListedTwice(ids, parents) {
      SomeOrder(ids, parents);
    }
  }

  lemma {:induction false} SameRowsBack(ids: seq<int>, parents: seq<Parent>, ids': seq<int>, parents': seq<Parent>)
    requires SameRows(ids, parents, ids', parents')
    ensures SameRows(ids', parents', ids, parents)
  {
  }

  lemma {:induction false} SomeOrder(ids: seq<int>, parents: seq<Parent>)
    requires |ids| == |parents| && (HasCycle(ids, parents) || ListedTwice(ids, parents))
    ensures ForcedInSomeOrder(ids, parents)
  {
    hide Forced, Circular, HasCycle;
    if HasCycle(ids, parents) {
      ForcedBetween(ids, parents);
      assert SameRows(ids, parents, ids, parents);
    } else {
      var i: nat, j: nat, l: nat :| Confusing(ids, parents, i, j, l);
      if ids[l] == ids[j] {
        OwnParent(ids, parents, j);
      }
      ConfusedOrder(ids, parents, i, j, l);
    }
  }

  lemma {:induction false} OwnParent(ids: seq<int>, parents: seq<Parent>, j: nat)
    requires |ids| == |parents| && j < |ids| && parents[j] == Under(ids[j])
    ensures HasCycle(ids, parents)
  {
    assert ParentWithin(ids[j], {ids[j]}, ids, parents);
    assert Circular({ids[j]}, ids, parents);
  }

  // ----- the order of the entries -----

  /** The entries have the same depth, and none between them is less deep: they are below the same entry, or
      both at level 0. */
  ghost predicate Siblings(levels: seq<nat>, i: nat, j: nat) {
    i < j < |levels| && levels[i] == levels[j] && forall q :: i < q < j ==> levels[q] >= levels[j]
  }

  /** Siblings are listed in the order in which they were placed, and behind the entry that they are below. */
  ghost predicate InOrder(levels: seq<nat>, times: seq<nat>) {
    && |levels| == |times|
    && (forall i: nat, j: nat :: Siblings(levels, i, j) ==> times[i] < times[j])
    && (forall i: nat, j: nat :: Encloses(levels, i, j) ==> times[i] < times[j])
  }

  /** An entry is at level 0 exactly if its parent had not been placed when it was. */
  ghost predicate Rooted(ids: seq<int>, parents: seq<Parent>, levels: seq<nat>, times: seq<nat>) {
    && |ids| == |parents| == |levels| == |times|
    && forall i: nat :: i < |ids| ==> (levels[i] == 0 <==> !ParentBefore(ids, parents, times, i))
  }

  ghost predicate ParentBefore(ids: seq<int>, parents: seq<Parent>, times: seq<nat>, i: nat)
    requires |ids| == |parents| == |times| && i < |ids|
  {
    exists j: nat :: j < |ids| && times[j] < times[i] && parents[i] == Under(ids[j])
  }

  lemma {:induction false} StillRooted(ids: seq<int>, parents: seq<Parent>, levels: seq<nat>, times: seq<nat>, m: nat,
      level: nat, id: int, parent: Parent)
    requires Rooted(ids, parents, levels, times) && Numbered(times) && m <= |ids|
    requires level == 0 <==> !Among(parent, ids)
    ensures Rooted(Inserted(ids, m, id), Inserted(parents, m, parent), Inserted(levels, m, level),
        Inserted<nat>(times, m, |times|))
  {
    hide Inserted, ParentBefore, Among;
    var ids', parents', levels', times' :=
      Inserted(ids, m, id), Inserted(parents, m, parent), Inserted(levels, m, level), Inserted<nat>(times, m, |times|);
    InsertedSize(ids, m, id);
    InsertedSize(parents, m, parent);
    InsertedSize(levels, m, level);
    InsertedSize<nat>(times, m, |times|);
    forall i: nat | i < |ids'|
      ensures levels'[i] == 0 <==> !ParentBefore(ids', parents', times', i)
    {
      if i == m {
        NewParentBefore(ids, parents, times, m, id, parent);
      } else {
        OldParentBefore(ids, parents, times, m, id, parent, Unshifted(m, i));
        InsertedAt(levels, m, level, Unshifted(m, i));
      }
    }
  }

  lemma {:induction false} NewParentBefore(ids: seq<int>, parents: seq<Parent>, times: seq<nat>, m: nat, id: int,
      parent: Parent)
    requires |ids| == |parents| == |times| && Numbered(times) && m <= |ids|
    ensures |Inserted(ids, m, id)| == |Inserted(parents, m, parent)| == |Inserted<nat>(times, m, |times|)| == |ids| + 1
    ensures ParentBefore(Inserted(ids, m, id), Inserted(parents, m, parent), Inserted<nat>(times, m, |times|), m) <==>
      Among(parent, ids)
  {
    hide Inserted;
    var ids', parents', times' := Inserted(ids, m, id), Inserted(parents, m, parent), Inserted<nat>(times, m, |times|);
    InsertedSize(ids, m, id);
    InsertedSize(parents, m, parent);
    InsertedSize<nat>(times, m, |times|);
    if j: nat :| j < |ids'| && times'[j] < times'[m] && parents'[m] == Under(ids'[j]) {
      InsertedAt(ids, m, id, Unshifted(m, j));
    }
    if Among(parent, ids) {
      var j: nat :| j < |ids| && ids[j] == parent.id;
      InsertedAt(ids, m, id, j);
      InsertedAt<nat>(times, m, |times|, j);
      assert times'[Shifted(m, j)] < times'[m];
    }
  }

  lemma {:induction false} OldParentBefore(ids: seq<int>, parents: seq<Parent>, times: seq<nat>, m: nat, id: int,
      parent: Parent, i: nat)
    requires |ids| == |parents| == |times| && Numbered(times) && m <= |ids| && i < |ids|
    ensures |Inserted(ids, m, id)| == |Inserted(parents, m, parent)| == |Inserted<nat>(times, m, |times|)| == |ids| + 1
    ensures ParentBefore(ids, parents, times, i) <==>
      ParentBefore(Inserted(ids, m, id), Inserted(parents, m, parent), Inserted<nat>(times, m, |times|), Shifted(m, i))
  {
    hide Inserted;
    var ids', parents', times' := Inserted(ids, m, id), Inserted(parents, m, parent), Inserted<nat>(times, m, |times|);
    InsertedSize(ids, m, id);
    InsertedSize(parents, m, parent);
    InsertedSize<nat>(times, m, |times|);
    InsertedAt(parents, m, parent, i);
    InsertedAt<nat>(times, m, |times|, i);
    forall j: nat | j < |ids|
      ensures ids'[Shifted(m, j)] == ids[j] && times'[Shifted(m, j)] == times[j]
    {
      InsertedAt(ids, m, id, j);
      InsertedAt<nat>(times, m, |times|, j);
    }
    if j: nat :| j < |ids'| && times'[j] < times'[Shifted(m, i)] && parents'[Shifted(m, i)] == Under(ids'[j]) {
      assert j != m && j == Shifted(m, Unshifted(m, j));
    }
    if j: nat :| j < |ids| && times[j] < times[i] && parents[i] == Under(ids[j]) {
      assert times'[Shifted(m, j)] < times'[Shifted(m, i)];
    }
  }

  /** Every time from zero on belongs to one entry. */
  ghost predicate Numbered(times: seq<nat>) {
    && (forall i :: 0 <= i < |times| ==> times[i] < |times|)
    && (forall i, j :: 0 <= i < j < |times| ==> times[i] != times[j])
  }

  /** An insertion at the end of a branch, or at the end of all. */
  ghost predicate Appends(levels: seq<nat>, m: nat, level: nat) {
    && m <= |levels| && (m < |levels| ==> levels[m] < level)
  }

  lemma {:induction false} StillNumbered(times: seq<nat>, m: nat)
    requires Numbered(times) && m <= |times|
    ensures Numbered(Inserted<nat>(times, m, |times|))
  {
  }

  lemma {:induction false} BetweenInserted(levels: seq<nat>, m: nat, level: nat, i: nat, j: nat)
    requires m <= |levels| && i < j < |levels|
    requires forall q :: Shifted(m, i) < q < Shifted(m, j) ==> Inserted(levels, m, level)[q] >= levels[j]
    ensures forall q :: i < q < j ==> levels[q] >= levels[j]
  {
    forall q | i < q < j
      ensures levels[q] >= levels[j]
    {
      InsertedAt(levels, m, level, q);
    }
  }

  /** Where an entry of the longer list was before. */
  function Unshifted(m: nat, i: nat): nat
    requires i != m
  {
    if i < m then i else i - 1
  }

  lemma {:induction false} StillInOrder(levels: seq<nat>, times: seq<nat>, m: nat, level: nat)
    requires InOrder(levels, times) && Numbered(times) && Appends(levels, m, level)
    ensures InOrder(Inserted(levels, m, level), Inserted<nat>(times, m, |times|))
  {
    hide Inserted, Siblings, Encloses, Numbered;
    var levels', times' := Inserted(levels, m, level), Inserted<nat>(times, m, |times|);
    InsertedSize(levels, m, level);
    InsertedSize<nat>(times, m, |times|);
    forall i: nat, j: nat | i < j < |levels'| && (Siblings(levels', i, j) || Encloses(levels', i, j))
      ensures times'[i] < times'[j]
    {
      NotBelowNew(levels, m, level, i, j);
      if j == m {
        InsertedAt<nat>(times, m, |times|, i);
        TimeBounded(times, i);
      } else {
        InsertedAt<nat>(times, m, |times|, Unshifted(m, i));
        InsertedAt<nat>(times, m, |times|, Unshifted(m, j));
        WereRelated(levels, m, level, Unshifted(m, i), Unshifted(m, j));
      }
    }
    RelatedWithin(levels');
  }

  lemma {:induction false} InsertedSize<T>(s: seq<T>, m: nat, x: T)
    requires m <= |s|
    ensures |Inserted(s, m, x)| == |s| + 1 && Inserted(s, m, x)[m] == x
  {
  }

  lemma {:induction false} TimeBounded(times: seq<nat>, i: nat)
    requires Numbered(times) && i < |times|
    ensures times[i] < |times|
  {
  }

  lemma {:induction false} RelatedWithin(levels: seq<nat>)
    ensures forall i: nat, j: nat :: Siblings(levels, i, j) || Encloses(levels, i, j) ==> i < j < |levels|
  {
  }

  /** Nothing is listed below the new entry, or behind it with the same depth below the same entry. */
  lemma {:induction false} NotBelowNew(levels: seq<nat>, m: nat, level: nat, i: nat, j: nat)
    requires Appends(levels, m, level)
    requires Siblings(Inserted(levels, m, level), i, j) || Encloses(Inserted(levels, m, level), i, j)
    ensures i != m
  {
    var levels' := Inserted(levels, m, level);
    assert m < |levels| ==> levels'[m + 1] == levels[m];
  }

  lemma {:induction false} WereRelated(levels: seq<nat>, m: nat, level: nat, i: nat, j: nat)
    requires m <= |levels| && i < |levels| && j < |levels|
    ensures Siblings(Inserted(levels, m, level), Shifted(m, i), Shifted(m, j)) ==> Siblings(levels, i, j)
    ensures Encloses(Inserted(levels, m, level), Shifted(m, i), Shifted(m, j)) ==> Encloses(levels, i, j)
  {
    hide Inserted;
    InsertedAt(levels, m, level, i);
    InsertedAt(levels, m, level, j);
    if i < j && forall q :: Shifted(m, i) < q < Shifted(m, j) ==> Inserted(levels, m, level)[q] >= levels[j] {
      BetweenInserted(levels, m, level, i, j);
    }
  }

  // ----- the order of the placements -----

  /** How many issues a round passes over. */
  ghost function StopAt(ids: seq<int>, parents: seq<Parent>, start: nat): (j: nat)
    requires |ids| == |parents| && start < |ids|
    ensures j <= |ids| && Stops(ids, parents, start, j)
  {
    assert exists j: nat :: j <= |ids| && Stops(ids, parents, start, j) by {
      var j := FirstStop(ids, parents, start, 0);
    }
    var j: nat :| j <= |ids| && Stops(ids, parents, start, j);
    j
  }

  lemma {:induction false} StopIsUnique(ids: seq<int>, parents: seq<Parent>, start: nat, i: nat)
    requires |ids| == |parents| && start < |ids| && i <= |ids| && Stops(ids, parents, start, i)
    ensures StopAt(ids, parents, start) == i
  {
    hide Skipped;
  }

  /** The issues in the order in which the rounds place them: the first one that is not passed over, then
      those of the rounds without it. */
  ghost function Placements(ids: seq<int>, parents: seq<Parent>, start: nat): (order: seq<(int, Parent)>)
    requires |ids| == |parents| && (ids != [] ==> start < |ids|)
    decreases |ids|
  {
    if ids == [] then []
    else
      var q := Position(|ids|, start, StopAt(ids, parents, start));
      [(ids[q], parents[q])] + Placements(Without(ids, q), Without(parents, q), if |ids| - 1 <= q then 0 else q)
  }

  lemma {:induction false} PlacementsNext(ids: seq<int>, parents: seq<Parent>, start: nat, j: nat)
    requires |ids| == |parents| && start < |ids| && j <= |ids| && Stops(ids, parents, start, j)
    ensures var q := Position(|ids|, start, j);
      Placements(ids, parents, start) ==
      [(ids[q], parents[q])] + Placements(Without(ids, q), Without(parents, q), if |ids| - 1 <= q then 0 else q)
  {
    hide Without, Stops;
    StopIsUnique(ids, parents, start, j);
  }

  lemma {:induction false} PlacementsSize(ids: seq<int>, parents: seq<Parent>, start: nat)
    requires |ids| == |parents| && (ids != [] ==> start < |ids|)
    ensures |Placements(ids, parents, start)| == |ids|
    decreases |ids|
  {
    if ids != [] {
      var q := Position(|ids|, start, StopAt(ids, parents, start));
      PlacementsSize(Without(ids, q), Without(parents, q), if |ids| - 1 <= q then 0 else q);
    }
  }

  /** Every row is placed once. */
  lemma {:induction false} PlacementsSame(ids: seq<int>, parents: seq<Parent>, start: nat)
    requires |ids| == |parents| && (ids != [] ==> start < |ids|)
    ensures multiset(Placements(ids, parents, start)) == multiset(Pairs(ids, parents))
    decreases |ids|
  {
    hide Pairs, Without, Stops;
    if ids == [] {
      NoPairs(ids, parents);
    } else {
      var q := Position(|ids|, start, StopAt(ids, parents, start));
      PairWithout(ids, parents, q);
      RowsWithout(ids, parents, q);
      PlacementsSame(Without(ids, q), Without(parents, q), if |ids| - 1 <= q then 0 else q);
    }
  }

  lemma {:induction false} NoPairs(ids: seq<int>, parents: seq<Parent>)
    requires ids == [] && parents == []
    ensures Pairs(ids, parents) == []
  {
  }

  lemma {:induction false} PlacedIn(ids: seq<int>, parents: seq<Parent>, start: nat, l: nat)
    requires |ids| == |parents| && (ids != [] ==> start < |ids|) && l < |Placements(ids, parents, start)|
    ensures Placements(ids, parents, start)[l].0 in ids
  {
    hide Placements;
    PlacementsSame(ids, parents, start);
    var row := Placements(ids, parents, start)[l];
    assert row in multiset(Pairs(ids, parents));
    var i :| 0 <= i < |ids| && Pairs(ids, parents)[i] == row;
  }

  /** Unless the rounds force it, no issue is placed while its parent is still to come. */
  lemma {:induction false} PlacementsReady(ids: seq<int>, parents: seq<Parent>, start: nat, k: nat, l: nat)
    requires |ids| == |parents| && (ids != [] ==> start < |ids|) && !Forced(ids, parents, start)
    requires k <= l < |Placements(ids, parents, start)|
    ensures Placements(ids, parents, start)[k].1 != Under(Placements(ids, parents, start)[l].0)
    decreases |ids|
  {
    hide Without, Stops, Forced, Again, Placements;
    PlacementsSize(ids, parents, start);
    var j := StopAt(ids, parents, start);
    var q := Position(|ids|, start, j);
    ForcedStep(ids, parents, start, j);
    PlacementsNext(ids, parents, start, j);
    if k == 0 {
      ReadyAt(ids, parents, start, j);
      PlacedIn(ids, parents, start, l);
    } else {
      RowsWithout(ids, parents, q);
      PlacementsReady(Without(ids, q), Without(parents, q), if |ids| - 1 <= q then 0 else q, k - 1, l - 1);
    }
  }

  /** If every issue is listed behind its parent, the issues are placed in this order. */
  lemma {:induction false} InputOrder(ids: seq<int>, parents: seq<Parent>)
    requires ParentsListedFirst(ids, parents)
    ensures Placements(ids, parents, 0) == Pairs(ids, parents)
    decreases |ids|
  {
    hide Among;
    if ids != [] {
      forall i | 0 <= i < |ids| - 1
        ensures !Among(parents[1..][i], ids[1..][i..])
      {
        assert ids[1..][i..] == ids[i + 1..];
      }
      InputOrder(ids[1..], parents[1..]);
      FirstPlaced(ids, parents);
    }
  }

  lemma {:induction false} FirstPlaced(ids: seq<int>, parents: seq<Parent>)
    requires |ids| == |parents| > 0 && !Among(parents[0], ids[0..])
    ensures Placements(ids, parents, 0) == [(ids[0], parents[0])] + Placements(ids[1..], parents[1..], 0)
    ensures Pairs(ids, parents) == [(ids[0], parents[0])] + Pairs(ids[1..], parents[1..])
  {
    hide Among, Stops, Again, Placements, Forced;
    FirstReady(ids, parents);
    PlacementsNext(ids, parents, 0, 0);
    ForcedRest(ids, parents);
  }

  /** `times` says which of the placed issues every entry is. */
  ghost predicate Timed(setIds: seq<int>, setParents: seq<Parent>, times: seq<nat>, placed: seq<(int, Parent)>) {
    && |setIds| == |setParents| == |times| == |placed| && Numbered(times)
    && forall i :: 0 <= i < |times| ==> times[i] < |placed| && placed[times[i]] == (setIds[i], setParents[i])
  }

  lemma {:induction false} TimedMore(setIds: seq<int>, setParents: seq<Parent>, times: seq<nat>,
      placed: seq<(int, Parent)>, m: nat, id: int, parent: Parent)
    requires Timed(setIds, setParents, times, placed) && m <= |setIds|
    ensures Timed(Inserted(setIds, m, id), Inserted(setParents, m, parent), Inserted<nat>(times, m, |times|),
        placed + [(id, parent)])
  {
    hide Numbered;
    StillNumbered(times, m);
  }

  // ----- the ordering loop -----

  /** An entry is at level 0 exactly when its parent is not part of the input. */
  ghost predicate Explained(ids0: seq<int>, parents: seq<Parent>, levels: seq<nat>) {
    |parents| == |levels| && forall i :: 0 <= i < |levels| ==>
      (levels[i] == 0 <==> parents[i].NoParent? || parents[i].id !in ids0)
  }

  /** Adds an issue below its parent, behind the parent's other descendants, or else at level 0. */
  method Place(setIds: seq<int>, setLevels: seq<nat>, ghost setParents: seq<Parent>, id: int, parent: Parent)
    returns (setIds': seq<int>, setLevels': seq<nat>, ghost setParents': seq<Parent>, ghost m: nat, ghost level: nat)
    requires Nested(setIds, setParents, setLevels) && WellFormed(setLevels)
    ensures Nested(setIds', setParents', setLevels') && WellFormed(setLevels')
    ensures m <= |setIds| == |setParents| == |setLevels|
    ensures setIds' == Inserted(setIds, m, id) && setParents' == Inserted(setParents, m, parent)
    ensures setLevels' == Inserted(setLevels, m, level)
    ensures Among(parent, setIds) ==>
      EndOfBranch(setLevels, Search(setIds, parent.id), m) && level == setLevels[Search(setIds, parent.id)] + 1
    ensures !Among(parent, setIds) ==> m == |setIds| && level == 0
  {
    hide WellFormed, BelowParent;
    var l := if parent.Under? then Search(setIds, parent.id) else |setIds|;
    assert Among(parent, setIds) <==> l < |setIds|;
    if l < |setIds| {
      var end := EndOf(setLevels, l);
      m, level := end, setLevels[l] + 1;
      InsertNested(setIds, setParents, setLevels, l, m, id);
      InsertWellFormed(setLevels, l, m);
      setIds', setLevels' :=
        setIds[..end] + [id] + setIds[end..], setLevels[..end] + [setLevels[l] + 1] + setLevels[end..];
      setParents' := Inserted(setParents, m, parent);
    } else {
      m, level := |setIds|, 0;
      AppendNested(setIds, setParents, setLevels, id, parent);
      setIds', setLevels', setParents' := setIds + [id], setLevels + [0], setParents + [parent];
      assert Inserted(setIds, m, id) == setIds' && Inserted(setParents, m, parent) == setParents' &&
        Inserted(setLevels, m, 0) == setLevels';
    }
  }

  method EndOf(levels: seq<nat>, l: nat) returns (m: nat)
    requires l < |levels|
    ensures EndOfBranch(levels, l, m)
  {
    m := l + 1;
    while m < |levels| && levels[m] > levels[l]
      invariant l < m <= |levels|
      invariant forall q :: l < q < m ==> levels[q] > levels[l]
    {
      m := m + 1;
    }
  }

  lemma {:induction false} Moved(ids0: seq<int>, parents0: seq<Parent>, ids: seq<int>, parents: seq<Parent>,
      setIds: seq<int>, setParents: seq<Parent>, k: nat, m: nat)
    requires Conserved(ids0, parents0, ids, parents, setIds, setParents) && k < |ids| && m <= |setIds|
    ensures Conserved(ids0, parents0, Without(ids, k), Without(parents, k), Inserted(setIds, m, ids[k]),
        Inserted(setParents, m, parents[k]))
  {
    hide Pairs;
    PairWithout(ids, parents, k);
    PairInserted(setIds, setParents, m, ids[k], parents[k]);
  }

  lemma {:induction false} StillExplained(ids0: seq<int>, parents0: seq<Parent>, ids: seq<int>, parents: seq<Parent>,
      setIds: seq<int>, setParents: seq<Parent>, levels: seq<nat>, k: nat, m: nat, level: nat)
    requires Conserved(ids0, parents0, ids, parents, setIds, setParents) && Explained(ids0, setParents, levels)
    requires k < |ids| && m <= |levels| && !Among(parents[k], ids) && (level == 0 <==> !Among(parents[k], setIds))
    ensures Explained(ids0, Inserted(setParents, m, parents[k]), Inserted(levels, m, level))
  {
    if parents[k].Under? {
      LeftOrPlaced(ids0, parents0, ids, parents, setIds, setParents, parents[k].id);
    }
  }

  /** Passing over an issue: the round goes on, and it was not complete yet. */
  lemma {:induction false} RoundGoesOn(ids: seq<int>, parents: seq<Parent>, k: nat, start: nat, wrapped: bool,
      seen: seq<int>)
    requires PassedOver(ids, parents, k, start, wrapped, seen) && k < |ids| && start < |ids|
    requires Among(parents[k], ids) && !(ids[k] in seen && Among(parents[k], seen))
    ensures |seen| < |ids|
    ensures k + 1 < |ids| ==> PassedOver(ids, parents, k + 1, start, wrapped, seen + [ids[k]])
    ensures k + 1 == |ids| ==> PassedOver(ids, parents, 0, start, true, seen + [ids[k]])
  {
    if wrapped && k == start {
      WholeRound(ids, parents, start, seen, ids[k]);
      WholeRound(ids, parents, start, seen, parents[k].id);
    }
  }

  lemma {:induction false} NotForced(ids: seq<int>, parents: seq<Parent>)
    requires ids == [] && parents == []
    ensures !Forced(ids, parents, 0)
  {
  }

  /** Orders the issues for the listing.  `cyclic` says whether some issue had to be placed although
      its parent was still left: exactly if the rounds force it.  They do if there is a cycle of parents, and
      only then unless some issue is listed twice. */
  method Order(issueIds: seq<int>, issueParents: seq<Parent>)
    returns (setIds: seq<int>, setLevels: seq<nat>, ghost setParents: seq<Parent>, ghost times: seq<nat>,
        ghost cyclic: bool)
    requires |issueIds| == |issueParents|
    ensures |setIds| == |setParents| && multiset(Pairs(setIds, setParents)) == multiset(Pairs(issueIds, issueParents))
    ensures Nested(setIds, setParents, setLevels) && WellFormed(setLevels)
    ensures InOrder(setLevels, times) && Timed(setIds, setParents, times, Placements(issueIds, issueParents, 0))
    ensures Rooted(setIds, setParents, setLevels, times)
    ensures ParentsListedFirst(issueIds, issueParents) ==>
      Timed(setIds, setParents, times, Pairs(issueIds, issueParents)) && !cyclic
    ensures cyclic <==> Forced(issueIds, issueParents, 0)
    ensures HasCycle(issueIds, issueParents) ==> cyclic
    ensures cyclic ==> HasCycle(issueIds, issueParents) || ListedTwice(issueIds, issueParents)
    ensures Distinct(issueIds) ==> (cyclic <==> HasCycle(issueIds, issueParents))
    ensures !cyclic ==> Explained(issueIds, setParents, setLevels)
  {
    hide Pairs, Nested, WellFormed, Explained, PassedOver, HasCycle, ListedTwice, Distinct, Conserved, Without,
      Inserted,
      Forced, NoneAgain, InOrder, Rooted, Numbered, Timed, Placements, EndOfBranch, ParentsListedFirst;
    var ids, parents := issueIds, issueParents;
    setIds, setLevels, setParents, times, cyclic := [], [], [], [], false;
    ghost var placed: seq<(int, Parent)> := [];
    var k := 0;
    var cycle := false;
    var cycleIds: seq<int> := [];
    ghost var start, wrapped := 0, false;
    AtStart(ids, parents);
    while ids != []
      invariant Conserved(issueIds, issueParents, ids, parents, setIds, setParents) && |ids| == |parents|
      invariant |setIds| == |setParents|
      invariant Nested(setIds, setParents, setLevels) && WellFormed(setLevels) && |setLevels| == |setIds|
      invariant k <= |ids| && (if ids == [] then start == 0 else k < |ids| && start < |ids|)
      invariant PassedOver(ids, parents, k, start, wrapped, cycleIds)
      invariant InOrder(setLevels, times) && Timed(setIds, setParents, times, placed)
      invariant Rooted(setIds, setParents, setLevels, times)
      invariant placed + Placements(ids, parents, start) == Placements(issueIds, issueParents, 0)
      invariant !cyclic ==> Explained(issueIds, setParents, setLevels)
      invariant NoneAgain(ids, parents, start, |cycleIds|)
      invariant Forced(issueIds, issueParents, 0) <==> cyclic || Forced(ids, parents, start)
      decreases |ids|, |ids| - |cycleIds|
    {
      var id, parent := ids[k], parents[k];
      ghost var seen := cycleIds;
      if id in cycleIds && Among(parent, cycleIds) {
        cycle := true;
      } else {
        cycle := false;
        cycleIds := cycleIds + [id];
      }
      if cycle || !Among(parent, ids) {
        ghost var m, level;
        StopsHere(ids, parents, k, start, wrapped, seen);
        ghost var oldIds, oldParents, oldLevels := setIds, setParents, setLevels;
        setIds, setLevels, setParents, m, level := Place(setIds, setLevels, setParents, id, parent);
        Moved(issueIds, issueParents, ids, parents, oldIds, oldParents, k, m);
        AfterPlacing(issueIds, issueParents, ids, parents, oldIds, oldParents, oldLevels, k, m, level);
        times := PlacedAt(oldIds, oldParents, oldLevels, times, placed, m, level, id, parent);
        placed := placed + [(id, parent)];
        cyclic := cyclic || Among(parent, ids);
        ids, parents := Without(ids, k), Without(parents, k);
        cycleIds := [];
        start, wrapped := if |ids| <= k then 0 else k, false;
        FreshRound(ids, parents, start);
      } else {
        StillNoneAgain(ids, parents, k, start, wrapped, seen);
        RoundGoesOn(ids, parents, k, start, wrapped, seen);
        k := k + 1;
        wrapped := wrapped || |ids| <= k;
      }
      if |ids| <= k {
        k := 0;
      }
    }
    NotForced(ids, parents);
    NothingPlaced(ids, parents, placed);
    ForcedBetween(issueIds, issueParents);
    if ParentsListedFirst(issueIds, issueParents) {
      InputOrder(issueIds, issueParents);
      ParentsFirst(issueIds, issueParents);
    }
    AllPlaced(issueIds, issueParents, ids, parents, setIds, setParents);
  }

  lemma {:induction false} AtStart(ids: seq<int>, parents: seq<Parent>)
    requires |ids| == |parents|
    ensures Conserved(ids, parents, ids, parents, [], []) && Nested([], [], []) && WellFormed([])
    ensures Explained(ids, [], []) && InOrder([], []) && Timed([], [], [], []) && Rooted([], [], [], [])
    ensures PassedOver(ids, parents, 0, 0, false, []) && NoneAgain(ids, parents, 0, 0)
  {
    assert Pairs([], []) == [];
  }

  lemma {:induction false} PlacedAt(setIds: seq<int>, setParents: seq<Parent>, levels: seq<nat>, times: seq<nat>,
      placed: seq<(int, Parent)>, m: nat, level: nat, id: int, parent: Parent)
    returns (times': seq<nat>)
    requires Timed(setIds, setParents, times, placed) && InOrder(levels, times) && |levels| == |setIds|
    requires Rooted(setIds, setParents, levels, times)
    requires Among(parent, setIds) ==>
      EndOfBranch(levels, Search(setIds, parent.id), m) && level == levels[Search(setIds, parent.id)] + 1
    requires !Among(parent, setIds) ==> m == |setIds| && level == 0
    ensures m <= |setIds| && InOrder(Inserted(levels, m, level), times')
    ensures Timed(Inserted(setIds, m, id), Inserted(setParents, m, parent), times', placed + [(id, parent)])
    ensures Rooted(Inserted(setIds, m, id), Inserted(setParents, m, parent), Inserted(levels, m, level), times')
  {
    hide InOrder, Rooted, Numbered, Inserted;
    times' := Inserted<nat>(times, m, |times|);
    StillInOrder(levels, times, m, level);
    TimedMore(setIds, setParents, times, placed, m, id, parent);
    StillRooted(setIds, setParents, levels, times, m, level, id, parent);
  }

  lemma {:induction false} FreshRound(ids: seq<int>, parents: seq<Parent>, k: nat)
    requires |ids| == |parents| && k <= |ids|
    ensures PassedOver(ids, parents, k, k, false, []) && NoneAgain(ids, parents, k, 0)
  {
  }

  lemma {:induction false} AfterPlacing(ids0: seq<int>, parents0: seq<Parent>, ids: seq<int>, parents: seq<Parent>,
      setIds: seq<int>, setParents: seq<Parent>, levels: seq<nat>, k: nat, m: nat, level: nat)
    requires Conserved(ids0, parents0, ids, parents, setIds, setParents) && k < |ids| && m <= |levels| == |setIds|
    requires level == 0 <==> !Among(parents[k], setIds)
    ensures |Without(ids, k)| == |Without(parents, k)| == |ids| - 1
    ensures |Inserted(setIds, m, ids[k])| == |Inserted(setParents, m, parents[k])| == |Inserted(levels, m, level)|
    ensures Explained(ids0, setParents, levels) && !Among(parents[k], ids) ==>
      Explained(ids0, Inserted(setParents, m, parents[k]), Inserted(levels, m, level))
  {
    hide Explained, Pairs;
    if !Among(parents[k], ids) && Explained(ids0, setParents, levels) {
      StillExplained(ids0, parents0, ids, parents, setIds, setParents, levels, k, m, level);
    }
  }

  lemma {:induction false} NothingPlaced(ids: seq<int>, parents: seq<Parent>, placed: seq<(int, Parent)>)
    requires ids == [] && parents == []
    ensures placed + Placements(ids, parents, 0) == placed
  {
  }

  lemma {:induction false} AllPlaced(ids0: seq<int>, parents0: seq<Parent>, ids: seq<int>, parents: seq<Parent>,
      setIds: seq<int>, setParents: seq<Parent>)
    requires Conserved(ids0, parents0, ids, parents, setIds, setParents) && ids == []
    ensures |setIds| == |setParents| && multiset(Pairs(setIds, setParents)) == multiset(Pairs(ids0, parents0))
  {
    assert Pairs(ids, parents) == [];
  }

  // Issue 1 has two parents, and comes up with the second one before any issue is ready.
  const REPEATED_IDS := [2, 4, 1, 1, 5]
  const REPEATED_PARENTS := [Under(4), Under(5), Under(2), Under(4), NoParent]

  lemma {:induction false} RepeatedAcyclic()
    ensures |REPEATED_IDS| == |REPEATED_PARENTS| && !HasCycle(REPEATED_IDS, REPEATED_PARENTS)
  {
    var ids, parents := REPEATED_IDS, REPEATED_PARENTS;
    forall issues | Circular(issues, ids, parents)
      ensures false
    {
      hide ParentWithin;
      forall x | x in issues
        ensures x == 2 || x == 4 || x == 1
        ensures x == 2 ==> 4 in issues
        ensures x == 1 ==> 2 in issues || 4 in issues
        ensures x != 4
      {
        RepeatedParent(issues, x);
        if x == 4 {
          RepeatedParent(issues, 5);
        }
      }
    }
  }

  /** What a parent within the issues says. */
  lemma {:induction false} RepeatedParent(issues: set<int>, x: int)
    requires |REPEATED_IDS| == |REPEATED_PARENTS|
    ensures ParentWithin(x, issues, REPEATED_IDS, REPEATED_PARENTS) <==>
      (x == 2 && 4 in issues) || (x == 4 && 5 in issues) || (x == 1 && (2 in issues || 4 in issues))
  {
    var ids, parents := REPEATED_IDS, REPEATED_PARENTS;
    assert ids[0] == 2 && ids[1] == 4 && ids[2] == 1 && ids[3] == 1 && ids[4] == 5;
    assert parents[0] == Under(4) && parents[1] == Under(5) && parents[2] == Under(2) && parents[3] == Under(4) &&
      parents[4] == NoParent;
  }

  lemma {:induction false} RepeatedUpcoming()
    ensures |REPEATED_IDS| == |REPEATED_PARENTS| == 5
    ensures Upcoming(REPEATED_IDS, 0)[..4] == [2, 4, 1, 1]
    ensures Upcoming(REPEATED_PARENTS, 0)[..4] == [Under(4), Under(5), Under(2), Under(4)]
    ensures Upcoming(REPEATED_IDS, 0)[..3] == [2, 4, 1]
    ensures Upcoming(REPEATED_IDS, 0)[..2] == [2, 4]
    ensures Upcoming(REPEATED_IDS, 0)[..1] == [2]
    ensures Upcoming(REPEATED_IDS, 0)[..0] == []
  {
  }

  lemma {:induction false} RepeatedSkips(j: nat)
    requires |REPEATED_IDS| == |REPEATED_PARENTS| == 5 && j < 4
    ensures Skipped(REPEATED_IDS, REPEATED_PARENTS, 0, j) <==> j < 3
    ensures Again(REPEATED_IDS, REPEATED_PARENTS, 0, j) <==> j == 3
  {
    hide Upcoming;
    RepeatedUpcoming();
    var up, above := Upcoming(REPEATED_IDS, 0), Upcoming(REPEATED_PARENTS, 0);
    assert up[j] == up[..4][j] && above[j] == above[..4][j];
    assert REPEATED_IDS[0] == 2 && REPEATED_IDS[1] == 4 && REPEATED_IDS[4] == 5;
    if j == 3 {
      assert up[..3][2] == 1 && up[..3][1] == 4;
    }
  }

  /** Without a cycle of parents, a repeated issue can be placed before its parent. */
  lemma {:induction false} RepeatedIssue()
    ensures |REPEATED_IDS| == |REPEATED_PARENTS|
    ensures !HasCycle(REPEATED_IDS, REPEATED_PARENTS) && Forced(REPEATED_IDS, REPEATED_PARENTS, 0)
  {
    hide Upcoming, Again, Skipped, HasCycle;
    RepeatedAcyclic();
    RepeatedUpcoming();
    forall j: nat | j < 4
      ensures Skipped(REPEATED_IDS, REPEATED_PARENTS, 0, j) <==> j < 3
      ensures Again(REPEATED_IDS, REPEATED_PARENTS, 0, j) <==> j == 3
    {
      RepeatedSkips(j);
    }
    assert Stops(REPEATED_IDS, REPEATED_PARENTS, 0, 3);
  }

  // The same rows, every issue behind its parents.
  const SORTED_IDS := [5, 4, 2, 1, 1]
  const SORTED_PARENTS := [NoParent, Under(5), Under(4), Under(2), Under(4)]

  /** The order of the rows matters: the branch is not taken for these. */
  lemma {:induction false} SortedIssue()
    ensures SameRows(REPEATED_IDS, REPEATED_PARENTS, SORTED_IDS, SORTED_PARENTS)
    ensures ListedTwice(SORTED_IDS, SORTED_PARENTS) && !Forced(SORTED_IDS, SORTED_PARENTS, 0)
  {
    hide Forced, ListedTwice;
    SortedRows();
    SortedFirst();
    ParentsFirst(SORTED_IDS, SORTED_PARENTS);
    RepeatedIssue();
    ForcedBetween(REPEATED_IDS, REPEATED_PARENTS);
    AnyOrder(SORTED_IDS, SORTED_PARENTS, REPEATED_IDS, REPEATED_PARENTS);
  }

  lemma {:induction false} SortedFirst()
    ensures |SORTED_IDS| == |SORTED_PARENTS| == 5
    ensures forall i :: 0 <= i < 5 ==> !Among(SORTED_PARENTS[i], SORTED_IDS[i..])
  {
    assert SORTED_IDS[4..] == [1] && SORTED_IDS[3..] == [1, 1] && SORTED_IDS[2..] == [2, 1, 1];
    assert SORTED_IDS[1..] == [4, 2, 1, 1];
  }

  lemma {:induction false} SortedRows()
    ensures SameRows(REPEATED_IDS, REPEATED_PARENTS, SORTED_IDS, SORTED_PARENTS)
    ensures SameRows(SORTED_IDS, SORTED_PARENTS, REPEATED_IDS, REPEATED_PARENTS)
  {
    var p: (int, Parent), q: (int, Parent), r: (int, Parent), s: (int, Parent), t: (int, Parent) :=
      (2, Under(4)), (4, Under(5)), (1, Under(2)), (1, Under(4)), (5, NoParent);
    assert Pairs(REPEATED_IDS, REPEATED_PARENTS) == [p, q, r, s, t];
    assert Pairs(SORTED_IDS, SORTED_PARENTS) == [t, q, p, r, s];
    Reordered(p, q, r, s, t);
  }

  lemma {:induction false} Reordered<T>(p: T, q: T, r: T, s: T, t: T)
    ensures multiset([p, q, r, s, t]) == multiset([t, q, p, r, s])
  {
    assert [p, q, r, s, t] == [p] + [q] + [r, s] + [t] && [t, q, p, r, s] == [t] + [q] + [p] + [r, s];
  }
}
