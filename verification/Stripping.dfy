/** Removing bracketed groups from names: repeated deletion of innermost groups against matching pairs. */
module Stripping {

  datatype Brackets = Brackets(open: char, close: char) {
    predicate Valid() {
      open != close
    }

    predicate Plain(c: char) {
      c != open && c != close
    }

    function Step(c: char): int {
      if c == open then 1 else if c == close then -1 else 0
    }
  }

  // ----- matching pairs -----

  /** Opening minus closing brackets. */
  ghost function Depth(b: Brackets, s: string): int {
    if s == [] then 0 else Depth(b, s[..|s| - 1]) + b.Step(s[|s| - 1])
  }

  ghost predicate Balanced(b: Brackets, s: string) {
    Depth(b, s) == 0 && forall n :: 0 <= n <= |s| ==> Depth(b, s[..n]) >= 0
  }

  ghost predicate Pair(b: Brackets, s: string, i: nat, j: nat) {
    i < j < |s| && s[i] == b.open && s[j] == b.close && Balanced(b, s[i + 1..j])
  }

  /** Position `k` lies in a matching pair, brackets included. */
  ghost predicate InPair(b: Brackets, s: string, k: nat) {
    exists i: nat, j: nat :: Pair(b, s, i, j) && i <= k <= j
  }

  /** The characters among the first `n` that do not lie in a matching pair of `s`. */
  ghost function Outside(b: Brackets, s: string, n: nat): string
    requires n <= |s|
  {
    if n == 0 then [] else Outside(b, s, n - 1) + if InPair(b, s, n - 1) then [] else [s[n - 1]]
  }

  // ----- one pass with a stack -----

  /** The text before the first open bracket, and the text behind each of the open ones. */
  type Stack = s: seq<string> | |s| > 0 witness [""]

  ghost function Push(b: Brackets, stack: Stack, c: char): Stack {
    var last := |stack| - 1;
    if c == b.open then stack + [""]
    else if c == b.close && last > 0 then stack[..last]
    else stack[last := stack[last] + [c]]
  }

  ghost function PushAll(b: Brackets, stack: Stack, s: string): Stack {
    if s == [] then stack else Push(b, PushAll(b, stack, s[..|s| - 1]), s[|s| - 1])
  }

  ghost function Joined(b: Brackets, stack: Stack): string {
    if |stack| == 1 then stack[0] else Joined(b, stack[..|stack| - 1]) + [b.open] + stack[|stack| - 1]
  }

  /** What remains once all groups have been removed. */
  ghost function Residue(b: Brackets, s: string): string {
    Joined(b, PushAll(b, [""], s))
  }

  lemma {:induction false} PushConcat(b: Brackets, stack: Stack, s: string, t: string)
    ensures PushAll(b, stack, s + t) == PushAll(b, PushAll(b, stack, s), t)
    decreases t
  {
    if t == [] {
      assert s + t == s;
    } else {
      assert (s + t)[..|s + t| - 1] == s + t[..|t| - 1];
      PushConcat(b, stack, s, t[..|t| - 1]);
    }
  }

  // ----- deleting innermost groups -----

  predicate AllPlain(b: Brackets, s: string) {
    forall i :: 0 <= i < |s| ==> b.Plain(s[i])
  }

  lemma {:induction false} PushPlain(b: Brackets, stack: Stack, s: string)
    requires AllPlain(b, s)
    ensures PushAll(b, stack, s) == stack[|stack| - 1 := stack[|stack| - 1] + s]
  {
    if s == [] {
      assert stack[|stack| - 1] + s == stack[|stack| - 1];
    } else {
      PushPlain(b, stack, s[..|s| - 1]);
      assert s == s[..|s| - 1] + [s[|s| - 1]];
      assert stack[|stack| - 1] + s == stack[|stack| - 1] + s[..|s| - 1] + [s[|s| - 1]];
    }
  }

  /** An innermost group leaves the stack as it was. */
  lemma {:induction false} PushGroup(b: Brackets, stack: Stack, x: string)
    requires b.Valid() && AllPlain(b, x)
    ensures PushAll(b, stack, [b.open] + x + [b.close]) == stack
  {
    var s := [b.open] + x + [b.close];
    assert s[..|s| - 1] == [b.open] + x;
    PushConcat(b, stack, [b.open], x);
    assert [b.open][..0] == [];
    assert PushAll(b, stack, [b.open]) == stack + [""];
    PushPlain(b, stack + [""], x);
  }

  /** A group without brackets inside starts at `i`. */
  ghost predicate GroupAt(b: Brackets, s: string, i: nat, j: nat) {
    i < j < |s| && s[i] == b.open && s[j] == b.close && AllPlain(b, s[i + 1..j])
  }

  method SkipPlain(b: Brackets, s: string, i: nat) returns (j: nat)
    requires i <= |s|
    ensures i <= j <= |s| && AllPlain(b, s[i..j]) && (j < |s| ==> !b.Plain(s[j]))
  {
    j := i;
    while j < |s| && b.Plain(s[j])
      invariant i <= j <= |s| && forall k :: i <= k < j ==> b.Plain(s[k])
    {
      j := j + 1;
    }
  }

  lemma {:induction false} NoGroupAt(b: Brackets, s: string, i: nat, j: nat)
    requires i < j <= |s| && AllPlain(b, s[i + 1..j])
    requires s[i] != b.open || (j < |s| ==> !b.Plain(s[j]) && s[j] != b.close)
    ensures forall q: nat :: !GroupAt(b, s, i, q)
  {
    forall q: nat
      ensures !GroupAt(b, s, i, q)
    {
      if i < q < j {
        assert s[i + 1..j][q - i - 1] == s[q];
      } else if j < q < |s| && s[i] == b.open {
        assert s[i + 1..q][j - i - 1] == s[j];
      }
    }
  }

  lemma {:induction false} PushOne(b: Brackets, s: string, t: string, i: nat)
    requires i < |s| && PushAll(b, [""], t) == PushAll(b, [""], s[..i])
    ensures PushAll(b, [""], t + [s[i]]) == PushAll(b, [""], s[..i + 1])
    ensures t == s[..i] ==> t + [s[i]] == s[..i + 1]
  {
    assert s[..i + 1][..i] == s[..i] && (t + [s[i]])[..|t|] == t;
  }

  lemma {:induction false} PushSkipped(b: Brackets, s: string, i: nat, j: nat)
    requires b.Valid() && GroupAt(b, s, i, j)
    ensures PushAll(b, [""], s[..j + 1]) == PushAll(b, [""], s[..i])
  {
    var g := [b.open] + s[i + 1..j] + [b.close];
    assert s[..j + 1] == s[..i] + g by {
      assert s[i..j + 1] == g;
    }
    PushGroup(b, PushAll(b, [""], s[..i]), s[i + 1..j]);
    PushConcat(b, [""], s[..i], g);
  }

  ghost predicate InGroup(b: Brackets, s: string, k: nat) {
    exists i: nat, j: nat :: GroupAt(b, s, i, j) && i <= k <= j
  }

  /** The characters among the first `n` that do not lie in an innermost group of `s`. */
  ghost function Ungrouped(b: Brackets, s: string, n: nat): string
    requires n <= |s|
  {
    if n == 0 then [] else Ungrouped(b, s, n - 1) + if InGroup(b, s, n - 1) then [] else [s[n - 1]]
  }

  ghost predicate GroupStarts(b: Brackets, s: string, i: nat) {
    exists j: nat :: GroupAt(b, s, i, j)
  }

  /** The innermost groups that start among the first `n` characters. */
  ghost function NumGroups(b: Brackets, s: string, n: nat): nat {
    if n == 0 then 0 else NumGroups(b, s, n - 1) + if GroupStarts(b, s, n - 1) then 1 else 0
  }

  /** No group starts within a group. */
  lemma {:induction false} OneGroup(b: Brackets, s: string, i: nat, j: nat, n: nat)
    requires b.Valid() && GroupAt(b, s, i, j) && i < n <= j + 1
    ensures NumGroups(b, s, n) == NumGroups(b, s, i) + 1
    decreases n
  {
    if n == i + 1 {
      assert GroupStarts(b, s, i);
    } else {
      OneGroup(b, s, i, j, n - 1);
      NoStartWithin(b, s, i, j, n - 1);
    }
  }

  lemma {:induction false} NoStartWithin(b: Brackets, s: string, i: nat, j: nat, k: nat)
    requires b.Valid() && GroupAt(b, s, i, j) && i < k <= j
    ensures !GroupStarts(b, s, k)
  {
    assert k < j ==> b.Plain(s[i + 1..j][k - i - 1]);
  }

  /** No group reaches from before `i` to `i` or beyond. */
  ghost predicate NoneAcross(b: Brackets, s: string, i: nat) {
    forall p: nat, q: nat :: p < i <= q ==> !GroupAt(b, s, p, q)
  }

  lemma {:induction false} UngroupedOne(b: Brackets, s: string, i: nat)
    requires i < |s| && NoneAcross(b, s, i) && forall q: nat :: !GroupAt(b, s, i, q)
    ensures Ungrouped(b, s, i + 1) == Ungrouped(b, s, i) + [s[i]] && NoneAcross(b, s, i + 1)
    ensures NumGroups(b, s, i + 1) == NumGroups(b, s, i)
  {
    hide GroupAt;
  }

  lemma {:induction false} UngroupedGroup(b: Brackets, s: string, i: nat, j: nat, n: nat)
    requires GroupAt(b, s, i, j) && i <= n <= j + 1
    ensures Ungrouped(b, s, n) == Ungrouped(b, s, i)
    decreases n
  {
    hide GroupAt;
    GroupWithin(b, s, i, j);
    if n > i {
      UngroupedGroup(b, s, i, j, n - 1);
      assert InGroup(b, s, n - 1);
    }
  }

  lemma {:induction false} GroupWithin(b: Brackets, s: string, i: nat, j: nat)
    requires GroupAt(b, s, i, j)
    ensures i < j < |s|
  {
  }

  lemma {:induction false} NoneAcrossGroup(b: Brackets, s: string, i: nat, j: nat)
    requires b.Valid() && NoneAcross(b, s, i) && GroupAt(b, s, i, j)
    ensures NoneAcross(b, s, j + 1)
  {
    forall p: nat, q: nat | p < j + 1 <= q
      ensures !GroupAt(b, s, p, q)
    {
      if i < p < j {
        assert b.Plain(s[i + 1..j][p - i - 1]);
      } else if p == i && q < |s| {
        assert s[i + 1..q][j - i - 1] == s[j];
      }
    }
  }

  lemma {:induction false} NoneAcrossStart(b: Brackets, s: string)
    ensures NoneAcross(b, s, 0) && Ungrouped(b, s, 0) == [] && NumGroups(b, s, 0) == 0
  {
  }

  /** Replaces all innermost groups by nothing, from left to right, and counts them. */
  method Subn(b: Brackets, s: string) returns (t: string, n: nat)
    requires b.Valid()
    ensures t == Ungrouped(b, s, |s|) && n == NumGroups(b, s, |s|)
    ensures Residue(b, t) == Residue(b, s)
    ensures |t| + 2 * n <= |s|
    ensures n == 0 ==> t == s && forall i: nat, j: nat :: !GroupAt(b, s, i, j)
  {
    hide GroupAt, GroupStarts, PushAll, NoneAcross, Ungrouped, NumGroups;
    t, n := [], 0;
    var i := 0;
    NoneAcrossStart(b, s);
    while i < |s|
      invariant i <= |s| && |t| + 2 * n <= i
      invariant t == Ungrouped(b, s, i) && NoneAcross(b, s, i) && n == NumGroups(b, s, i)
      invariant PushAll(b, [""], t) == PushAll(b, [""], s[..i])
      invariant n == 0 ==> t == s[..i] && forall p: nat, q: nat :: p < i ==> !GroupAt(b, s, p, q)
    {
      var j := SkipPlain(b, s, i + 1);
      if s[i] == b.open && j < |s| && s[j] == b.close {
        assert GroupAt(b, s, i, j) by {
          IsGroup(b, s, i, j);
        }
        PushSkipped(b, s, i, j);
        UngroupedGroup(b, s, i, j, j + 1);
        NoneAcrossGroup(b, s, i, j);
        OneGroup(b, s, i, j, j + 1);
        n := n + 1;
        i := j + 1;
      } else {
        NoGroupAt(b, s, i, j);
        UngroupedOne(b, s, i);
        PushOne(b, s, t, i);
        t := t + [s[i]];
        i := i + 1;
      }
    }
    assert s[..i] == s;
    NoGroupBeyond(b, s);
  }

  lemma {:induction false} NoGroupBeyond(b: Brackets, s: string)
    ensures forall i: nat, j: nat :: i >= |s| ==> !GroupAt(b, s, i, j)
  {
  }

  lemma {:induction false} IsGroup(b: Brackets, s: string, i: nat, j: nat)
    requires i < j < |s| && s[i] == b.open && s[j] == b.close && AllPlain(b, s[i + 1..j])
    ensures GroupAt(b, s, i, j)
  {
  }

  /** Without groups, no open bracket comes before a closing one. */
  lemma {:induction false} NoGroups(b: Brackets, s: string, i: nat, j: nat)
    requires b.Valid() && i < j < |s| && s[i] == b.open && s[j] == b.close
    ensures exists p: nat, q: nat :: GroupAt(b, s, p, q)
    decreases j - i
  {
    if k :| i < k < j && s[k] == b.open {
      NoGroups(b, s, k, j);
    } else if k :| i < k < j && s[k] == b.close {
      NoGroups(b, s, i, k);
    } else {
      assert GroupAt(b, s, i, j);
    }
  }

  /** Every closing bracket comes before every open one. */
  ghost predicate Unpaired(b: Brackets, s: string) {
    forall i, j :: 0 <= i < j < |s| ==> !(s[i] == b.open && s[j] == b.close)
  }

  /** Deletes innermost groups until there are none. */
  method DeleteGroups(b: Brackets, name: string) returns (stripped: string)
    requires b.Valid()
    ensures stripped == Residue(b, name) && Unpaired(b, stripped)
  {
    hide GroupAt, Residue;
    stripped := name;
    while true
      invariant Residue(b, stripped) == Residue(b, name)
      decreases |stripped|
    {
      var n;
      stripped, n := Subn(b, stripped);
      if n == 0 {
        break;
      }
    }
    NothingToDelete(b, stripped);
  }

  lemma {:induction false} NothingToDelete(b: Brackets, s: string)
    requires b.Valid() && forall i: nat, j: nat :: !GroupAt(b, s, i, j)
    ensures Unpaired(b, s) && Residue(b, s) == s
  {
    forall i, j | 0 <= i < j < |s|
      ensures !(s[i] == b.open && s[j] == b.close)
    {
      if s[i] == b.open && s[j] == b.close {
        NoGroups(b, s, i, j);
      }
    }
    UnpairedStays(b, s);
  }

  /** Text without pairs goes through the stack unchanged. */
  lemma {:induction false} UnpairedStays(b: Brackets, s: string)
    requires b.Valid() && Unpaired(b, s)
    ensures Joined(b, PushAll(b, [""], s)) == s
    ensures |PushAll(b, [""], s)| > 1 <==> b.open in s
  {
    if s != [] {
      var rest, c := s[..|s| - 1], s[|s| - 1];
      UnpairedStays(b, rest);
      var stack := PushAll(b, [""], rest);
      assert s == rest + [c];
      JoinedPush(b, stack, c);
    }
  }

  lemma {:induction false} JoinedPush(b: Brackets, stack: Stack, c: char)
    ensures !(c == b.close && c != b.open && |stack| > 1) ==> Joined(b, Push(b, stack, c)) == Joined(b, stack) + [c]
    ensures c == b.close && c != b.open && |stack| > 1 ==>
      Joined(b, stack) == Joined(b, Push(b, stack, c)) + [b.open] + stack[|stack| - 1]
  {
    var last := |stack| - 1;
    if c == b.open {
      assert (stack + [""])[..|stack|] == stack;
    } else if last > 0 {
      assert stack[last := stack[last] + [c]][..last] == stack[..last];
    }
  }

  // ----- the residue is what lies outside all matching pairs -----

  lemma {:induction false} DepthConcat(b: Brackets, s: string, t: string)
    ensures Depth(b, s + t) == Depth(b, s) + Depth(b, t)
    decreases t
  {
    if t == [] {
      assert s + t == s;
    } else {
      assert (s + t)[..|s + t| - 1] == s + t[..|t| - 1];
      DepthConcat(b, s, t[..|t| - 1]);
    }
  }

  lemma {:induction false} DepthOne(b: Brackets, c: char)
    ensures Depth(b, [c]) == b.Step(c)
  {
    assert [c][..0] == [];
  }

  lemma {:induction false} BalancedConcat(b: Brackets, s: string, t: string)
    requires Balanced(b, s) && Balanced(b, t)
    ensures Balanced(b, s + t)
  {
    DepthConcat(b, s, t);
    forall n | 0 <= n <= |s + t|
      ensures Depth(b, (s + t)[..n]) >= 0
    {
      if n <= |s| {
        assert (s + t)[..n] == s[..n];
      } else {
        assert (s + t)[..n] == s + t[..n - |s|];
        DepthConcat(b, s, t[..n - |s|]);
      }
    }
  }

  lemma {:induction false} BalancedPlain(b: Brackets, c: char)
    requires b.Plain(c)
    ensures Balanced(b, [c])
  {
    DepthOne(b, c);
    assert [c][..0] == [] && [c][..1] == [c];
  }

  lemma {:induction false} BalancedGroup(b: Brackets, s: string)
    requires b.Valid() && Balanced(b, s)
    ensures Balanced(b, [b.open] + s + [b.close])
  {
    var t := [b.open] + s + [b.close];
    DepthOne(b, b.open);
    DepthOne(b, b.close);
    DepthConcat(b, [b.open], s);
    DepthConcat(b, [b.open] + s, [b.close]);
    forall n | 0 <= n <= |t|
      ensures Depth(b, t[..n]) >= 0
    {
      if n == |t| {
        assert t[..n] == t;
      } else if n > 0 {
        assert t[..n] == [b.open] + s[..n - 1];
        DepthConcat(b, [b.open], s[..n - 1]);
      }
    }
  }

  /** No open bracket waits for its match: no suffix goes deeper. */
  ghost predicate NoneOpen(b: Brackets, s: string) {
    forall i :: 0 <= i <= |s| ==> Depth(b, s[i..]) <= 0
  }

  /** The stack reached after `s`: what it holds lies outside all pairs of `s`, and its pieces start
      behind the open brackets that have no match in `s`. */
  ghost predicate Tracks(b: Brackets, s: string, stack: Stack)
    decreases |stack|
  {
    && Joined(b, stack) == Outside(b, s, |s|)
    && if |stack| == 1 then NoneOpen(b, s)
       else exists p: nat :: p < |s| && LastOpen(b, s, p) && Tracks(b, s[..p], stack[..|stack| - 1])
  }

  ghost predicate LastOpen(b: Brackets, s: string, p: nat) {
    p < |s| && s[p] == b.open && Balanced(b, s[p + 1..])
  }

  lemma {:induction false} PairInPrefix(b: Brackets, s: string, t: string, i: nat, j: nat)
    requires j < |s|
    ensures Pair(b, s + t, i, j) <==> Pair(b, s, i, j)
  {
    if i < j {
      assert (s + t)[i + 1..j] == s[i + 1..j];
    }
  }

  /** If no pair reaches from `s` into `t`, the pairs around positions of `s` are those of `s`. */
  lemma {:induction false} OutsideSame(b: Brackets, s: string, t: string, n: nat)
    requires n <= |s| && forall i: nat, j: nat :: i < |s| <= j ==> !Pair(b, s + t, i, j)
    ensures Outside(b, s + t, n) == Outside(b, s, n)
  {
    if n > 0 {
      OutsideSame(b, s, t, n - 1);
      forall i: nat, j: nat | i <= n - 1 <= j
        ensures Pair(b, s + t, i, j) <==> Pair(b, s, i, j)
      {
        if j < |s| {
          PairInPrefix(b, s, t, i, j);
        }
      }
      assert InPair(b, s + t, n - 1) <==> InPair(b, s, n - 1);
    }
  }

  /** A character that closes no pair stays. */
  lemma {:induction false} OutsideOne(b: Brackets, s: string, c: char)
    requires forall i: nat :: !Pair(b, s + [c], i, |s|)
    ensures Outside(b, s + [c], |s| + 1) == Outside(b, s, |s|) + [c]
  {
    OutsideSame(b, s, [c], |s|);
    forall i: nat, j: nat | i <= |s| <= j
      ensures !Pair(b, s + [c], i, j)
    {
    }
  }

  lemma {:induction false} NoneOpenOne(b: Brackets, s: string, c: char)
    requires NoneOpen(b, s) && c != b.open
    ensures NoneOpen(b, s + [c])
    ensures forall i: nat :: !Pair(b, s + [c], i, |s|)
  {
    DepthOne(b, c);
    forall i | 0 <= i <= |s| + 1
      ensures Depth(b, (s + [c])[i..]) <= 0
    {
      if i <= |s| {
        assert (s + [c])[i..] == s[i..] + [c];
        DepthConcat(b, s[i..], [c]);
      }
    }
    forall i: nat
      ensures !Pair(b, s + [c], i, |s|)
    {
      if i < |s| {
        assert (s + [c])[i + 1..|s|] == s[i + 1..] && s[i..] == [s[i]] + s[i + 1..];
        DepthOne(b, s[i]);
        DepthConcat(b, [s[i]], s[i + 1..]);
      }
    }
  }

  /** Inside a group the depth stays positive. */
  lemma {:induction false} GroupPrefix(b: Brackets, x: string, n: nat)
    requires b.Valid() && Balanced(b, x) && n <= |x| + 2
    ensures Depth(b, ([b.open] + x + [b.close])[..n]) >= if 0 < n < |x| + 2 then 1 else 0
  {
    var g := [b.open] + x + [b.close];
    BalancedGroup(b, x);
    if 0 < n < |g| {
      assert g[..n] == [b.open] + x[..n - 1];
      DepthOne(b, b.open);
      DepthConcat(b, [b.open], x[..n - 1]);
    }
  }

  /** No pair reaches from outside into a group. */
  lemma {:induction false} NoPairIntoGroup(b: Brackets, r: string, x: string, i: nat, j: nat)
    requires b.Valid() && Balanced(b, x) && i < |r| <= j
    ensures !Pair(b, r + ([b.open] + x + [b.close]), i, j)
  {
    var g := [b.open] + x + [b.close];
    var s := r + g;
    if j < |s| && Balanced(b, s[i + 1..j]) {
      assert s[i + 1..j] == r[i + 1..] + g[..j - |r|] && s[i + 1..j][..|r| - i - 1] == r[i + 1..];
      DepthConcat(b, r[i + 1..], g[..j - |r|]);
      GroupPrefix(b, x, j - |r|);
    }
  }

  lemma {:induction false} OutsideGroup(b: Brackets, r: string, x: string, n: nat)
    requires b.Valid() && Balanced(b, x) && |r| <= n <= |r| + |x| + 2
    ensures Outside(b, r + ([b.open] + x + [b.close]), n) == Outside(b, r, |r|)
    decreases n
  {
    var g := [b.open] + x + [b.close];
    if n == |r| {
      forall i: nat, j: nat | i < |r| <= j
        ensures !Pair(b, r + g, i, j)
      {
        NoPairIntoGroup(b, r, x, i, j);
      }
      OutsideSame(b, r, g, |r|);
    } else {
      OutsideGroup(b, r, x, n - 1);
      assert (r + g)[|r| + 1..|r + g| - 1] == x;
      assert Pair(b, r + g, |r|, |r + g| - 1);
    }
  }

  lemma {:induction false} NoneOpenGroup(b: Brackets, r: string, x: string)
    requires b.Valid() && Balanced(b, x) && NoneOpen(b, r)
    ensures NoneOpen(b, r + ([b.open] + x + [b.close]))
  {
    var g := [b.open] + x + [b.close];
    BalancedGroup(b, x);
    forall i | 0 <= i <= |r + g|
      ensures Depth(b, (r + g)[i..]) <= 0
    {
      if i <= |r| {
        assert (r + g)[i..] == r[i..] + g;
        DepthConcat(b, r[i..], g);
      } else {
        var n := i - |r|;
        assert (r + g)[i..] == g[n..] && g == g[..n] + g[n..];
        DepthConcat(b, g[..n], g[n..]);
        GroupPrefix(b, x, n);
      }
    }
  }

  lemma {:induction false} LastOpenLonger(b: Brackets, s: string, p: nat, t: string)
    requires LastOpen(b, s, p) && Balanced(b, t)
    ensures LastOpen(b, s + t, p) && (s + t)[..p] == s[..p]
  {
    BalancedConcat(b, s[p + 1..], t);
    assert (s + t)[p + 1..] == s[p + 1..] + t;
  }

  /** A whole group changes nothing. */
  lemma {:induction false} TracksGroup(b: Brackets, r: string, x: string, stack: Stack)
    requires b.Valid() && Balanced(b, x) && Tracks(b, r, stack)
    ensures Tracks(b, r + ([b.open] + x + [b.close]), stack)
  {
    hide Balanced, LastOpen, Outside, Depth, Joined, NoneOpen;
    var g := [b.open] + x + [b.close];
    OutsideGroup(b, r, x, |r + g|);
    if |stack| == 1 {
      NoneOpenGroup(b, r, x);
    } else {
      var p: nat :| p < |r| && LastOpen(b, r, p) && Tracks(b, r[..p], stack[..|stack| - 1]);
      BalancedGroup(b, x);
      LastOpenLonger(b, r, p, g);
    }
  }

  lemma {:induction false} TracksOpen(b: Brackets, s: string, stack: Stack)
    requires b.Valid() && Tracks(b, s, stack)
    ensures Tracks(b, s + [b.open], Push(b, stack, b.open))
  {
    hide Outside, Joined, NoneOpen;
    var s' := s + [b.open];
    JoinedPush(b, stack, b.open);
    OutsideOne(b, s, b.open);
    assert s'[..|s|] == s && s'[|s| + 1..] == [] && (stack + [""])[..|stack|] == stack;
    assert LastOpen(b, s', |s|);
  }

  lemma {:induction false} TracksClose(b: Brackets, s: string, stack: Stack)
    requires b.Valid() && Tracks(b, s, stack) && |stack| > 1
    ensures Tracks(b, s + [b.close], Push(b, stack, b.close))
  {
    hide Outside, Joined, NoneOpen, Balanced;
    var p: nat :| p < |s| && LastOpen(b, s, p) && Tracks(b, s[..p], stack[..|stack| - 1]);
    TracksGroup(b, s[..p], s[p + 1..], stack[..|stack| - 1]);
    assert s + [b.close] == s[..p] + ([b.open] + s[p + 1..] + [b.close]);
  }

  lemma {:induction false} TracksPlain(b: Brackets, s: string, stack: Stack, c: char)
    requires b.Valid() && Tracks(b, s, stack) && |stack| > 1 && b.Plain(c)
    ensures Tracks(b, s + [c], Push(b, stack, c))
  {
    hide Outside, Joined, NoneOpen, Balanced, LastOpen;
    var p: nat :| p < |s| && LastOpen(b, s, p) && Tracks(b, s[..p], stack[..|stack| - 1]);
    JoinedPush(b, stack, c);
    OutsideOne(b, s, c);
    BalancedPlain(b, c);
    LastOpenLonger(b, s, p, [c]);
    assert Push(b, stack, c)[..|stack| - 1] == stack[..|stack| - 1];
  }

  lemma {:induction false} TracksPush(b: Brackets, s: string, stack: Stack, c: char)
    requires b.Valid() && Tracks(b, s, stack)
    ensures Tracks(b, s + [c], Push(b, stack, c))
  {
    hide Outside, Balanced, LastOpen;
    if c == b.open {
      TracksOpen(b, s, stack);
    } else if |stack| == 1 {
      JoinedPush(b, stack, c);
      NoneOpenOne(b, s, c);
      OutsideOne(b, s, c);
    } else if c == b.close {
      TracksClose(b, s, stack);
    } else {
      TracksPlain(b, s, stack, c);
    }
  }

  lemma {:induction false} TracksAll(b: Brackets, s: string)
    requires b.Valid()
    ensures Tracks(b, s, PushAll(b, [""], s))
  {
    if s == [] {
      assert NoneOpen(b, s);
    } else {
      TracksAll(b, s[..|s| - 1]);
      TracksPush(b, s[..|s| - 1], PushAll(b, [""], s[..|s| - 1]), s[|s| - 1]);
      assert s == s[..|s| - 1] + [s[|s| - 1]];
    }
  }

  /** Deleting groups until none is left deletes exactly the characters in matching pairs. */
  lemma {:induction false} ResidueIsOutside(b: Brackets, s: string)
    requires b.Valid()
    ensures Residue(b, s) == Outside(b, s, |s|)
  {
    TracksAll(b, s);
  }

  // ----- the names of C++ functions -----

  const PARENTHESES := Brackets('(', ')')
  const ANGLES := Brackets('<', '>')

  predicate Space(c: char) {
    c in " \t\n\r" || c == '\U{000B}' || c == '\U{000C}'
  }

  /** White space: a blank, or one of the control characters from tab to carriage return. */
  ghost predicate AllSpace(s: string) {
    forall i :: 0 <= i < |s| ==> s[i] as int == 32 || 9 <= s[i] as int <= 13
  }

  lemma {:induction false} SpaceIs(c: char)
    ensures Space(c) <==> AllSpace([c])
  {
    assert [c][0] == c;
    assert ' ' as int == 32 && '\t' as int == 9 && '\n' as int == 10 && '\r' as int == 13;
  }

  /** The start of the white space that ends at `n`. */
  function SpaceStart(s: string, n: nat): (i: nat)
    requires n <= |s|
    ensures i <= n && (forall k :: i <= k < n ==> Space(s[k])) && (i > 0 ==> !Space(s[i - 1]))
  {
    if n > 0 && Space(s[n - 1]) then SpaceStart(s, n - 1) else n
  }

  /** Removes a const qualifier from the end, or from before a final line break. */
  function WithoutConst(name: string): string {
    var end := if |name| > 0 && name[|name| - 1] == '\n' then |name| - 1 else |name|;
    if end >= 5 && name[end - 5..end] == "const" && SpaceStart(name, end - 5) < end - 5 then
      name[..SpaceStart(name, end - 5)] + name[end..]
    else name
  }

  /** The name ends in a const qualifier behind all of the white space `space`, before the line break in
      `tail`, if there is one. */
  ghost predicate Qualified(name: string, bare: string, space: string, tail: string) {
    && name == bare + space + "const" + tail
    && (bare != "" ==> !AllSpace([bare[|bare| - 1]]))
    && space != "" && AllSpace(space) && (tail == "" || tail == "\n")
  }

  /** `unqualified` is the name without its const qualifier. */
  ghost predicate ConstRemoved(name: string, unqualified: string) {
    && (forall bare, space, tail :: Qualified(name, bare, space, tail) ==> unqualified == bare + tail)
    && (unqualified == name || exists bare, space, tail :: Qualified(name, bare, space, tail))
  }

  lemma {:induction false} SpaceStartIs(s: string, i: nat, n: nat)
    requires i <= n <= |s| && (forall k :: i <= k < n ==> Space(s[k])) && (i > 0 ==> !Space(s[i - 1]))
    ensures SpaceStart(s, n) == i
  {
    hide Space;
  }

  lemma {:induction false} QualifierGoes(name: string, bare: string, space: string, tail: string)
    requires Qualified(name, bare, space, tail)
    ensures WithoutConst(name) == bare + tail
  {
    hide SpaceStart, Space;
    var i, n := |bare|, |bare| + |space|;
    var end := n + 5;
    forall k | i <= k < n
      ensures Space(name[k])
    {
      SpaceIs(name[k]);
      assert name[k] == space[k - i];
    }
    if i > 0 {
      SpaceIs(name[i - 1]);
      assert name[i - 1] == bare[i - 1];
    }
    SpaceStartIs(name, i, n);
    assert name[n..end] == "const" && name[..i] == bare && name[end..] == tail;
    assert tail == "" ==> name[|name| - 1] == "const"[4] == 't';
    assert tail == "\n" ==> name[|name| - 1] == tail[0];
  }

  /** A const qualifier is removed with the white space before it, and nothing else is. */
  lemma {:induction false} QualifierRemoved(name: string)
    ensures ConstRemoved(name, WithoutConst(name))
  {
    hide SpaceStart, Space;
    forall bare, space, tail | Qualified(name, bare, space, tail)
      ensures WithoutConst(name) == bare + tail
    {
      QualifierGoes(name, bare, space, tail);
    }
    var end := if |name| > 0 && name[|name| - 1] == '\n' then |name| - 1 else |name|;
    if end >= 5 && name[end - 5..end] == "const" && SpaceStart(name, end - 5) < end - 5 {
      var i := SpaceStart(name, end - 5);
      var bare, space, tail := name[..i], name[i..end - 5], name[end..];
      forall k | 0 <= k < |space|
        ensures AllSpace([space[k]])
      {
        SpaceIs(name[i + k]);
      }
      assert forall k :: 0 <= k < |space| ==> [space[k]][0] == space[k];
      if i > 0 {
        SpaceIs(name[i - 1]);
      }
      assert name == bare + space + "const" + tail;
      assert Qualified(name, bare, space, tail);
    }
  }

  /** Removes parameters, const qualifier and template arguments. */
  method StripFunctionName(name: string) returns (stripped: string, ghost unqualified: string)
    ensures ConstRemoved(Outside(Brackets('(', ')'), name, |name|), unqualified)
    ensures stripped == Outside(Brackets('<', '>'), unqualified, |unqualified|)
    ensures Unpaired(Brackets('<', '>'), stripped)
  {
    stripped := DeleteGroups(PARENTHESES, name);
    ResidueIsOutside(PARENTHESES, name);
    QualifierRemoved(stripped);
    stripped := WithoutConst(stripped);
    unqualified := stripped;
    ResidueIsOutside(ANGLES, stripped);
    stripped := DeleteGroups(ANGLES, stripped);
  }
}
