/** Sampled call stacks: what they add up to per function and per call. */
module Callstacks {
  import opened Graphs
  import opened Sums
  import opened Ledger
  import opened Tallies

  /** A line of the samples file: a number of samples and the symbols on the stack, innermost first. */
  datatype Line = Line(samples: int, callstack: seq<string>)

  /** A line of the symbols file: a symbol and the function that it belongs to. */
  datatype Symbol = Symbol(id: string, owner: FunctionId)

  /** A line with its symbols resolved. */
  datatype Trace = Trace(samples: real, frames: seq<FunctionId>)

  type Symbols = map<string, FunctionId>

  /** Later lines override earlier ones; several symbols may belong to one function. */
  ghost function SymbolTable(lines: seq<Symbol>): Symbols {
    if lines == [] then map[] else SymbolTable(lines[..|lines| - 1])[lines[|lines| - 1].id := lines[|lines| - 1].owner]
  }

  /** The last line for the symbol names the function that it belongs to. */
  ghost predicate Means(lines: seq<Symbol>, id: string, u: FunctionId) {
    exists i :: 0 <= i < |lines| && LastFor(lines, id, i) && lines[i].owner == u
  }

  ghost predicate LastFor(lines: seq<Symbol>, id: string, i: int)
    requires 0 <= i < |lines|
  {
    lines[i].id == id && forall j :: i < j < |lines| ==> lines[j].id != id
  }

  lemma {:induction false} LastForMore(lines: seq<Symbol>, id: string, i: nat)
    requires i + 1 < |lines|
    ensures LastFor(lines, id, i) <==> LastFor(lines[..|lines| - 1], id, i) && lines[|lines| - 1].id != id
  {
  }

  lemma {:induction false} LastForLast(lines: seq<Symbol>, id: string)
    requires lines != []
    ensures LastFor(lines, id, |lines| - 1) <==> lines[|lines| - 1].id == id
  {
  }

  lemma {:induction false} MeansMore(lines: seq<Symbol>, id: string, u: FunctionId)
    requires lines != []
    ensures var n := |lines| - 1;
      Means(lines, id, u) <==> if lines[n].id == id then lines[n].owner == u else Means(lines[..n], id, u)
  {
    hide LastFor;
    var n := |lines| - 1;
    LastForLast(lines, id);
    forall i: nat | i < n
      ensures LastFor(lines, id, i) <==> LastFor(lines[..n], id, i) && lines[n].id != id
    {
      LastForMore(lines, id, i);
    }
    if i: nat :| i < n && LastFor(lines[..n], id, i) && lines[..n][i].owner == u {
      assert lines[n].id != id ==> LastFor(lines, id, i);
    }
  }

  lemma {:induction false} SymbolsMean(lines: seq<Symbol>, id: string, u: FunctionId)
    ensures id in SymbolTable(lines) && SymbolTable(lines)[id] == u <==> Means(lines, id, u)
  {
    hide Means;
    if lines == [] {
      NothingMeant(id, u);
    } else {
      SymbolsMean(lines[..|lines| - 1], id, u);
      MeansMore(lines, id, u);
    }
  }

  lemma {:induction false} NothingMeant(id: string, u: FunctionId)
    ensures !Means([], id, u)
  {
  }

  ghost function Owners(lines: seq<Symbol>): set<FunctionId> {
    set i | 0 <= i < |lines| :: lines[i].owner
  }

  lemma {:induction false} SymbolsMore(lines: seq<Symbol>, n: nat)
    requires n < |lines|
    ensures SymbolTable(lines[..n + 1]) == SymbolTable(lines[..n])[lines[n].id := lines[n].owner]
    ensures Owners(lines[..n + 1]) == Owners(lines[..n]) + {lines[n].owner}
  {
    assert lines[..n + 1][..n] == lines[..n];
    assert lines[..n + 1][n] == lines[n];
    assert forall i :: 0 <= i < n ==> lines[..n + 1][i] == lines[..n][i];
  }

  lemma {:induction false} SymbolsOwned(lines: seq<Symbol>)
    ensures SymbolTable(lines).Values <= Owners(lines)
  {
    if lines != [] {
      var rest := lines[..|lines| - 1];
      SymbolsOwned(rest);
      SymbolsMore(lines, |lines| - 1);
      assert lines[..|lines|] == lines;
    }
  }

  /** The line can be processed: its stack is not empty and all its symbols are known. */
  predicate Resolvable(line: Line, symbols: Symbols) {
    line.callstack != [] && forall i :: 0 <= i < |line.callstack| ==> line.callstack[i] in symbols
  }

  function Resolve(line: Line, symbols: Symbols): (t: Trace)
    requires Resolvable(line, symbols)
    ensures t.samples == line.samples as real && |t.frames| == |line.callstack|
    ensures forall i :: 0 <= i < |t.frames| ==> t.frames[i] == symbols[line.callstack[i]]
    ensures t.frames != [] && forall u :: u in t.frames ==> u in symbols.Values
  {
    var t := Trace(line.samples as real,
        seq(|line.callstack|, i requires 0 <= i < |line.callstack| => symbols[line.callstack[i]]));
    assert forall i :: 0 <= i < |t.frames| ==> t.frames[i] in symbols.Values;
    t
  }

  ghost predicate AllResolvable(lines: seq<Line>, symbols: Symbols) {
    forall i :: 0 <= i < |lines| ==> Resolvable(lines[i], symbols)
  }

  ghost function ResolveAll(lines: seq<Line>, symbols: Symbols): (ts: seq<Trace>)
    requires AllResolvable(lines, symbols)
    ensures |ts| == |lines|
    ensures forall i :: 0 <= i < |ts| ==> ts[i] == Resolve(lines[i], symbols)
  {
    seq(|lines|, i requires 0 <= i < |lines| => Resolve(lines[i], symbols))
  }

  // ----- weights -----

  /** The total weight of a key in a list of weighted keys. */
  ghost function Amount<K>(ws: seq<(K, real)>, k: K): real {
    if ws == [] then 0.0
    else Amount(ws[..|ws| - 1], k) + if ws[|ws| - 1].0 == k then ws[|ws| - 1].1 else 0.0
  }

  lemma {:induction false} AmountConcat<K>(a: seq<(K, real)>, b: seq<(K, real)>, k: K)
    ensures Amount(a + b, k) == Amount(a, k) + Amount(b, k)
    decreases b
  {
    if b == [] {
      assert a + b == a;
    } else {
      AmountConcat(a, b[..|b| - 1], k);
      assert (a + b)[..|a + b| - 1] == a + b[..|b| - 1];
    }
  }

  lemma {:induction false} AmountOne<K>(ws: seq<(K, real)>, k: K, x: real, other: K)
    ensures Amount(ws + [(k, x)], other) == Amount(ws, other) + if other == k then x else 0.0
  {
    assert (ws + [(k, x)])[..|ws + [(k, x)]| - 1] == ws;
  }

  ghost function KeysOf<K>(ws: seq<(K, real)>): set<K> {
    set i | 0 <= i < |ws| :: ws[i].0
  }

  /** The keys with their total weights, as events. */
  ghost function TallyEvents<K>(ws: seq<(K, real)>, event: Event): (m: map<K, Events>)
    ensures forall k :: k in m ==> event in m[k]
  {
    map k | k in KeysOf(ws) :: map[event := Amount(ws, k)]
  }

  lemma {:induction false} AbsentAmount<K>(ws: seq<(K, real)>, k: K)
    requires k !in KeysOf(ws)
    ensures Amount(ws, k) == 0.0
  {
    if ws != [] {
      var rest := ws[..|ws| - 1];
      assert forall i :: 0 <= i < |rest| ==> rest[i] == ws[i];
      AbsentAmount(rest, k);
    }
  }

  /** One more weighted key: a new entry, or more weight on an old one. */
  lemma {:induction false} TallyEventsMore<K>(ws: seq<(K, real)>, event: Event, k: K, x: real)
    ensures TallyEvents(ws + [(k, x)], event) ==
      TallyEvents(ws, event)[k := map[event :=
        if k in TallyEvents(ws, event) then TallyEvents(ws, event)[k][event] + x else x]]
  {
    var more := ws + [(k, x)];
    assert more[|ws|] == (k, x);
    assert forall i :: 0 <= i < |ws| ==> more[i] == ws[i];
    assert KeysOf(more) == KeysOf(ws) + {k};
    if k !in KeysOf(ws) {
      AbsentAmount(ws, k);
    }
    forall j | j in KeysOf(more)
      ensures Amount(more, j) == Amount(ws, j) + if j == k then x else 0.0
    {
      AmountOne(ws, k, x, j);
    }
  }

  lemma {:induction false} AmountSign<K>(ws: seq<(K, real)>, k: K)
    requires forall i :: 0 <= i < |ws| ==> ws[i].1 >= 0.0
    ensures Amount(ws, k) >= 0.0
    ensures k in KeysOf(ws) && (forall i :: 0 <= i < |ws| ==> ws[i].1 > 0.0) ==> Amount(ws, k) > 0.0
  {
    if ws != [] {
      var rest := ws[..|ws| - 1];
      assert forall i :: 0 <= i < |rest| ==> rest[i] == ws[i];
      AmountSign(rest, k);
    }
  }

  ghost function TotalAmount<K>(ws: seq<(K, real)>): real {
    if ws == [] then 0.0 else TotalAmount(ws[..|ws| - 1]) + ws[|ws| - 1].1
  }

  ghost function Amounts<K>(ws: seq<(K, real)>, keys: set<K>): map<K, real> {
    map k | k in keys :: Amount(ws, k)
  }

  /** Adding up the weights by key gives the total. */
  lemma {:induction false} AmountsTotal<K>(ws: seq<(K, real)>, keys: set<K>)
    requires KeysOf(ws) <= keys
    ensures SumOf(Amounts(ws, keys)) == TotalAmount(ws)
  {
    hide SumOf;
    if ws == [] {
      SumZero(Amounts(ws, keys));
    } else {
      var rest, last := ws[..|ws| - 1], ws[|ws| - 1];
      assert forall i :: 0 <= i < |rest| ==> rest[i] == ws[i];
      assert last.0 in KeysOf(ws);
      AmountsTotal(rest, keys);
      var a, b := Amounts(rest, keys), Amounts(ws, keys);
      var more := a[last.0] + last.1;
      assert b == a[last.0 := more];
      SumUpdate(a, last.0, more);
    }
  }

  // ----- what the traces contribute -----

  /** The calls on a stack, from caller to callee. */
  ghost function Links(t: Trace): seq<(Edge, real)>
    decreases |t.frames|
  {
    if |t.frames| <= 1 then []
    else
      var call := (t.frames[|t.frames| - 1], t.frames[|t.frames| - 2]);
      Links(Trace(t.samples, t.frames[..|t.frames| - 1])) + [(call, t.samples)]
  }

  ghost function AllLinks(ts: seq<Trace>): seq<(Edge, real)> {
    if ts == [] then [] else AllLinks(ts[..|ts| - 1]) + Links(ts[|ts| - 1])
  }

  /** The innermost functions. */
  ghost function Leaves(ts: seq<Trace>): seq<(FunctionId, real)>
    requires forall i :: 0 <= i < |ts| ==> ts[i].frames != []
  {
    seq(|ts|, i requires 0 <= i < |ts| => (ts[i].frames[0], ts[i].samples))
  }

  /** The outermost functions. */
  ghost function Tops(ts: seq<Trace>): seq<(FunctionId, real)>
    requires forall i :: 0 <= i < |ts| ==> ts[i].frames != []
  {
    seq(|ts|, i requires 0 <= i < |ts| => (ts[i].frames[|ts[i].frames| - 1], ts[i].samples))
  }

  ghost function CallersOf(ls: seq<(Edge, real)>): seq<(FunctionId, real)> {
    seq(|ls|, i requires 0 <= i < |ls| => (ls[i].0.0, ls[i].1))
  }

  ghost function CalleesOf(ls: seq<(Edge, real)>): seq<(FunctionId, real)> {
    seq(|ls|, i requires 0 <= i < |ls| => (ls[i].0.1, ls[i].1))
  }

  lemma {:induction false} EndsConcat(a: seq<(Edge, real)>, b: seq<(Edge, real)>)
    ensures CallersOf(a + b) == CallersOf(a) + CallersOf(b) && CalleesOf(a + b) == CalleesOf(a) + CalleesOf(b)
  {
  }

  lemma {:induction false} LinksShorter(t: Trace)
    ensures |t.frames| <= 1 ==> CallersOf(Links(t)) == [] && CalleesOf(Links(t)) == []
    ensures |t.frames| > 1 ==>
      var n := |t.frames| - 1;
      var shorter := Trace(t.samples, t.frames[..n]);
      && CallersOf(Links(t)) == CallersOf(Links(shorter)) + [(t.frames[n], t.samples)]
      && CalleesOf(Links(t)) == CalleesOf(Links(shorter)) + [(t.frames[n - 1], t.samples)]
  {
    if |t.frames| > 1 {
      var n := |t.frames| - 1;
      var link := ((t.frames[n], t.frames[n - 1]), t.samples);
      EndsConcat(Links(Trace(t.samples, t.frames[..n])), [link]);
      assert CallersOf([link]) == [(t.frames[n], t.samples)] && CalleesOf([link]) == [(t.frames[n - 1], t.samples)];
    }
  }

  /** Along one stack, everything but the innermost function has called, and everything but the
      outermost one has been called. */
  lemma {:induction false} TraceFlow(t: Trace, u: FunctionId)
    requires t.frames != []
    ensures Amount(CallersOf(Links(t)), u) + (if t.frames[0] == u then t.samples else 0.0) ==
      Amount(CalleesOf(Links(t)), u) + (if t.frames[|t.frames| - 1] == u then t.samples else 0.0)
    decreases |t.frames|
  {
    hide Links, CallersOf, CalleesOf;
    LinksShorter(t);
    var n := |t.frames| - 1;
    if n > 0 {
      var shorter := Trace(t.samples, t.frames[..n]);
      TraceFlow(shorter, u);
      AmountOne(CallersOf(Links(shorter)), t.frames[n], t.samples, u);
      AmountOne(CalleesOf(Links(shorter)), t.frames[n - 1], t.samples, u);
    }
  }

  lemma {:induction false} TracesMore(ts: seq<Trace>, t: Trace)
    requires (forall i :: 0 <= i < |ts| ==> ts[i].frames != []) && t.frames != []
    ensures AllLinks(ts + [t]) == AllLinks(ts) + Links(t)
    ensures Leaves(ts + [t]) == Leaves(ts) + [(t.frames[0], t.samples)]
    ensures Tops(ts + [t]) == Tops(ts) + [(t.frames[|t.frames| - 1], t.samples)]
    ensures TotalAmount(Leaves(ts + [t])) == TotalAmount(Leaves(ts)) + t.samples
  {
    assert (ts + [t])[..|ts + [t]| - 1] == ts;
    var more := Leaves(ts) + [(t.frames[0], t.samples)];
    assert more[..|more| - 1] == Leaves(ts);
  }

  lemma {:induction false} AllFlow(ts: seq<Trace>, u: FunctionId)
    requires forall i :: 0 <= i < |ts| ==> ts[i].frames != []
    ensures Amount(CallersOf(AllLinks(ts)), u) + Amount(Leaves(ts), u) ==
      Amount(CalleesOf(AllLinks(ts)), u) + Amount(Tops(ts), u)
  {
    if ts == [] {
      assert CallersOf(AllLinks(ts)) == [] && CalleesOf(AllLinks(ts)) == [];
    } else {
      hide Amount, Links, AllLinks, CallersOf, CalleesOf, Leaves, Tops;
      var rest, t := ts[..|ts| - 1], ts[|ts| - 1];
      assert ts == rest + [t];
      AllFlow(rest, u);
      TraceFlow(t, u);
      TracesMore(rest, t);
      EndsConcat(AllLinks(rest), Links(t));
      AmountConcat(CallersOf(AllLinks(rest)), CallersOf(Links(t)), u);
      AmountConcat(CalleesOf(AllLinks(rest)), CalleesOf(Links(t)), u);
      AmountOne(Leaves(rest), t.frames[0], t.samples, u);
      AmountOne(Tops(rest), t.frames[|t.frames| - 1], t.samples, u);
    }
  }

  /** The weights of the calls of `u`, by callee. */
  ghost function OutAmounts(ls: seq<(Edge, real)>, ids: set<FunctionId>, u: FunctionId): map<FunctionId, real> {
    map v | v in ids :: Amount(ls, (u, v))
  }

  /** The weights of the calls to `u`, by caller. */
  ghost function InAmounts(ls: seq<(Edge, real)>, ids: set<FunctionId>, u: FunctionId): map<FunctionId, real> {
    map v | v in ids :: Amount(ls, (v, u))
  }

  lemma {:induction false} OutMore(ls: seq<(Edge, real)>, e: Edge, x: real, ids: set<FunctionId>, u: FunctionId)
    requires e.1 in ids
    ensures SumOf(OutAmounts(ls + [(e, x)], ids, u)) == SumOf(OutAmounts(ls, ids, u)) + if e.0 == u then x else 0.0
  {
    hide SumOf, Amount;
    var a, b := OutAmounts(ls, ids, u), OutAmounts(ls + [(e, x)], ids, u);
    forall v | v in ids
      ensures b[v] == a[v] + if e == (u, v) then x else 0.0
    {
      AmountOne(ls, e, x, (u, v));
    }
    if e.0 == u {
      var more := a[e.1] + x;
      assert b == a[e.1 := more];
      SumUpdate(a, e.1, more);
    } else {
      assert b == a;
    }
  }

  lemma {:induction false} InMore(ls: seq<(Edge, real)>, e: Edge, x: real, ids: set<FunctionId>, u: FunctionId)
    requires e.0 in ids
    ensures SumOf(InAmounts(ls + [(e, x)], ids, u)) == SumOf(InAmounts(ls, ids, u)) + if e.1 == u then x else 0.0
  {
    hide SumOf, Amount;
    var a, b := InAmounts(ls, ids, u), InAmounts(ls + [(e, x)], ids, u);
    forall v | v in ids
      ensures b[v] == a[v] + if e == (v, u) then x else 0.0
    {
      AmountOne(ls, e, x, (v, u));
    }
    if e.1 == u {
      var more := a[e.0] + x;
      assert b == a[e.0 := more];
      SumUpdate(a, e.0, more);
    } else {
      assert b == a;
    }
  }

  /** Adding up the calls of `u` by callee, and the calls to `u` by caller. */
  lemma {:induction false} EndsTotal(ls: seq<(Edge, real)>, ids: set<FunctionId>, u: FunctionId)
    requires forall i :: 0 <= i < |ls| ==> ls[i].0.0 in ids && ls[i].0.1 in ids
    ensures SumOf(OutAmounts(ls, ids, u)) == Amount(CallersOf(ls), u)
    ensures SumOf(InAmounts(ls, ids, u)) == Amount(CalleesOf(ls), u)
  {
    if ls == [] {
      SumZero(OutAmounts(ls, ids, u));
      SumZero(InAmounts(ls, ids, u));
    } else {
      hide SumOf, Amount, OutAmounts, InAmounts;
      var rest, last := ls[..|ls| - 1], ls[|ls| - 1];
      EndsTotal(rest, ids, u);
      EndsConcat(rest, [last]);
      assert ls == rest + [(last.0, last.1)];
      assert CallersOf([last]) == [(last.0.0, last.1)] && CalleesOf([last]) == [(last.0.1, last.1)];
      AmountOne(CallersOf(rest), last.0.0, last.1, u);
      AmountOne(CalleesOf(rest), last.0.1, last.1, u);
      OutMore(rest, last.0, last.1, ids, u);
      InMore(rest, last.0, last.1, ids, u);
    }
  }

  /** Flow balance: a function's own samples and the samples on its calls add up to the samples on
      the calls to it and those of the stacks that it is the outermost function of.  This includes
      recursive stacks. */
  lemma {:induction false} FlowBalance(ts: seq<Trace>, ids: set<FunctionId>, u: FunctionId)
    requires forall i :: 0 <= i < |ts| ==> ts[i].frames != [] && forall v :: v in ts[i].frames ==> v in ids
    ensures Amount(Leaves(ts), u) + SumOf(OutAmounts(AllLinks(ts), ids, u)) ==
      SumOf(InAmounts(AllLinks(ts), ids, u)) + Amount(Tops(ts), u)
  {
    hide SumOf;
    LinksInside(ts, ids);
    EndsTotal(AllLinks(ts), ids, u);
    AllFlow(ts, u);
  }

  lemma {:induction false} TraceLinksInside(t: Trace, ids: set<FunctionId>)
    requires forall v :: v in t.frames ==> v in ids
    ensures forall i :: 0 <= i < |Links(t)| ==>
      Links(t)[i].0.0 in ids && Links(t)[i].0.1 in ids && Links(t)[i].1 == t.samples
    decreases |t.frames|
  {
    if |t.frames| > 1 {
      assert t.frames[|t.frames| - 1] in t.frames && t.frames[|t.frames| - 2] in t.frames;
      TraceLinksInside(Trace(t.samples, t.frames[..|t.frames| - 1]), ids);
    }
  }

  lemma {:induction false} LinksInside(ts: seq<Trace>, ids: set<FunctionId>)
    requires forall i :: 0 <= i < |ts| ==> forall v :: v in ts[i].frames ==> v in ids
    ensures forall i :: 0 <= i < |AllLinks(ts)| ==> AllLinks(ts)[i].0.0 in ids && AllLinks(ts)[i].0.1 in ids
    ensures (forall i :: 0 <= i < |ts| ==> ts[i].samples >= 0.0) ==> forall i :: 0 <= i < |AllLinks(ts)| ==>
      AllLinks(ts)[i].1 >= 0.0
    ensures (forall i :: 0 <= i < |ts| ==> ts[i].samples > 0.0) ==> forall i :: 0 <= i < |AllLinks(ts)| ==>
      AllLinks(ts)[i].1 > 0.0
  {
    if ts != [] {
      LinksInside(ts[..|ts| - 1], ids);
      TraceLinksInside(ts[|ts| - 1], ids);
    }
  }

  // ----- what the lines add up to -----

  /** The function is at the position of the stack, counted from the innermost one. */
  ghost predicate OnStack(line: Line, symbols: Symbols, p: int, u: FunctionId) {
    0 <= p < |line.callstack| && line.callstack[p] in symbols && symbols[line.callstack[p]] == u
  }

  /** The samples of the lines on whose stacks the function is innermost. */
  ghost function Innermost(lines: seq<Line>, symbols: Symbols, u: FunctionId): map<int, real> {
    map i | 0 <= i < |lines| && OnStack(lines[i], symbols, 0, u) :: lines[i].samples as real
  }

  ghost function AllSamples(lines: seq<Line>): map<int, real> {
    map i | 0 <= i < |lines| :: lines[i].samples as real
  }

  /** At the position, `v` has been called by `u`. */
  ghost predicate CallAt(line: Line, symbols: Symbols, p: int, u: FunctionId, v: FunctionId) {
    OnStack(line, symbols, p + 1, u) && OnStack(line, symbols, p, v)
  }

  /** The samples of the line, once for every position at which `u` calls `v`. */
  ghost function LineCalls(line: Line, symbols: Symbols, u: FunctionId, v: FunctionId): map<int, real> {
    map p | 0 <= p < |line.callstack| && CallAt(line, symbols, p, u, v) :: line.samples as real
  }

  ghost function AllCalls(lines: seq<Line>, symbols: Symbols, u: FunctionId, v: FunctionId): map<int, real> {
    map i | 0 <= i < |lines| :: SumOf(LineCalls(lines[i], symbols, u, v))
  }

  ghost predicate CallsIn(line: Line, symbols: Symbols, u: FunctionId, v: FunctionId) {
    exists p :: CallAt(line, symbols, p, u, v)
  }

  ghost predicate CallsOnStack(lines: seq<Line>, symbols: Symbols, u: FunctionId, v: FunctionId) {
    exists i :: 0 <= i < |lines| && CallsIn(lines[i], symbols, u, v)
  }

  /** All samples of the lines have been counted: for the functions that are innermost, and for the calls on
      the stacks. */
  ghost predicate Counted(functions: map<FunctionId, Events>, calls: map<Edge, Events>, lines: seq<Line>,
      symbols: Symbols)
  {
    && (forall u :: u in functions ==>
      Samples in functions[u] && functions[u][Samples] == SumOf(Innermost(lines, symbols, u)))
    && (forall u, v :: u in functions ==> ((u, v) in calls <==> CallsOnStack(lines, symbols, u, v)))
    && forall u, v :: (u, v) in calls ==>
      Samples2 in calls[(u, v)] && calls[(u, v)][Samples2] == SumOf(AllCalls(lines, symbols, u, v))
  }

  lemma {:induction false} CountedAll(ids: set<FunctionId>, lines: seq<Line>, symbols: Symbols)
    requires AllResolvable(lines, symbols)
    ensures Counted(LeafEvents(ids, Leaves(ResolveAll(lines, symbols))),
        TallyEvents(AllLinks(ResolveAll(lines, symbols)), Samples2), lines, symbols)
    ensures TotalAmount(Leaves(ResolveAll(lines, symbols))) == SumOf(AllSamples(lines))
  {
    hide AllResolvable, ResolveAll, Leaves, AllLinks, Amount, TotalAmount, KeysOf, SumOf, Innermost, AllSamples,
      AllCalls, CallsOnStack;
    LeavesAreSamples(lines, symbols, FunctionId(""));
    forall u
      ensures Amount(Leaves(ResolveAll(lines, symbols)), u) == SumOf(Innermost(lines, symbols, u))
    {
      LeavesAreSamples(lines, symbols, u);
    }
    forall u, v
      ensures Amount(AllLinks(ResolveAll(lines, symbols)), (u, v)) == SumOf(AllCalls(lines, symbols, u, v))
      ensures (u, v) in KeysOf(AllLinks(ResolveAll(lines, symbols))) <==> CallsOnStack(lines, symbols, u, v)
    {
      LinksAreCalls(lines, symbols, u, v);
    }
  }

  /** The samples that the parsing counts for a function, and in total. */
  lemma {:induction false} LeavesAreSamples(lines: seq<Line>, symbols: Symbols, u: FunctionId)
    requires AllResolvable(lines, symbols)
    ensures Amount(Leaves(ResolveAll(lines, symbols)), u) == SumOf(Innermost(lines, symbols, u))
    ensures TotalAmount(Leaves(ResolveAll(lines, symbols))) == SumOf(AllSamples(lines))
  {
    hide SumOf, Resolvable, OnStack, Innermost, AllSamples;
    var ts := ResolveAll(lines, symbols);
    if lines == [] {
      NothingCounted(symbols, u, u);
    } else {
      var n := |lines| - 1;
      LeavesAreSamples(lines[..n], symbols, u);
      LeafOf(lines[n], symbols, u);
      assert ResolveAll(lines[..n], symbols) == ts[..n];
      assert Leaves(ts)[..n] == Leaves(ts[..n]);
      SamplesMore(lines, symbols, u);
    }
  }

  lemma {:induction false} LeafOf(line: Line, symbols: Symbols, u: FunctionId)
    requires Resolvable(line, symbols)
    ensures Resolve(line, symbols).samples == line.samples as real
    ensures Resolve(line, symbols).frames[0] == u <==> OnStack(line, symbols, 0, u)
  {
  }

  lemma {:induction false} NothingCounted(symbols: Symbols, u: FunctionId, v: FunctionId)
    ensures SumOf(Innermost([], symbols, u)) == SumOf(AllSamples([])) == SumOf(AllCalls([], symbols, u, v)) == 0.0
    ensures Amount<FunctionId>([], u) == TotalAmount<FunctionId>([]) == Amount<Edge>([], (u, v)) == 0.0
    ensures (u, v) !in KeysOf<Edge>([]) && !CallsOnStack([], symbols, u, v)
  {
    SumZero(Innermost([], symbols, u));
    SumZero(AllSamples([]));
    SumZero(AllCalls([], symbols, u, v));
  }

  lemma {:induction false} SamplesMore(lines: seq<Line>, symbols: Symbols, u: FunctionId)
    requires lines != []
    ensures var n := |lines| - 1;
      SumOf(Innermost(lines, symbols, u)) ==
      SumOf(Innermost(lines[..n], symbols, u)) +
      if OnStack(lines[n], symbols, 0, u) then lines[n].samples as real else 0.0
    ensures SumOf(AllSamples(lines)) == SumOf(AllSamples(lines[..|lines| - 1])) + lines[|lines| - 1].samples as real
  {
    hide SumOf, OnStack;
    var n := |lines| - 1;
    var x, rest := lines[n].samples as real, lines[..n];
    if OnStack(lines[n], symbols, 0, u) {
      assert Innermost(lines, symbols, u) == Innermost(rest, symbols, u)[n := x];
      SumInsert(Innermost(rest, symbols, u), n, x);
    } else {
      assert Innermost(lines, symbols, u) == Innermost(rest, symbols, u);
    }
    assert AllSamples(lines) == AllSamples(rest)[n := x];
    SumInsert(AllSamples(rest), n, x);
  }

  ghost predicate LinkAt(t: Trace, p: int, u: FunctionId, v: FunctionId) {
    0 <= p < |t.frames| - 1 && t.frames[p + 1] == u && t.frames[p] == v
  }

  ghost function LinksAt(t: Trace, u: FunctionId, v: FunctionId): map<int, real> {
    map p | 0 <= p < |t.frames| && LinkAt(t, p, u, v) :: t.samples
  }

  lemma {:induction false} LinkSum(t: Trace, u: FunctionId, v: FunctionId)
    ensures Amount(Links(t), (u, v)) == SumOf(LinksAt(t, u, v))
    ensures (u, v) in KeysOf(Links(t)) <==> exists p :: LinkAt(t, p, u, v)
    decreases |t.frames|
  {
    hide SumOf, LinkAt, Amount, KeysOf;
    if |t.frames| <= 1 {
      NoLinks(t, u, v);
    } else {
      var n := |t.frames| - 1;
      var shorter := Trace(t.samples, t.frames[..n]);
      LinkSum(shorter, u, v);
      AmountOne(Links(shorter), (t.frames[n], t.frames[n - 1]), t.samples, (u, v));
      KeysOne(Links(shorter), (t.frames[n], t.frames[n - 1]), t.samples);
      LinksAtMore(t, u, v);
      if LinkAt(t, n - 1, u, v) {
        SumInsert(LinksAt(shorter, u, v), n - 1, t.samples);
      }
      if p :| LinkAt(shorter, p, u, v) {
        assert LinkAt(t, p, u, v);
      }
      if p :| LinkAt(t, p, u, v) {
        assert p == n - 1 || LinkAt(shorter, p, u, v);
      }
    }
  }

  lemma {:induction false} NoLinks(t: Trace, u: FunctionId, v: FunctionId)
    requires |t.frames| <= 1
    ensures SumOf(LinksAt(t, u, v)) == Amount(Links(t), (u, v)) == 0.0
    ensures (u, v) !in KeysOf(Links(t)) && forall p :: !LinkAt(t, p, u, v)
  {
    SumZero(LinksAt(t, u, v));
  }

  lemma {:induction false} LinksAtMore(t: Trace, u: FunctionId, v: FunctionId)
    requires |t.frames| > 1
    ensures var n := |t.frames| - 1;
      var some := LinksAt(Trace(t.samples, t.frames[..n]), u, v);
      && (LinkAt(t, n - 1, u, v) <==> (t.frames[n], t.frames[n - 1]) == (u, v))
      && n - 1 !in some
      && LinksAt(t, u, v) == if LinkAt(t, n - 1, u, v) then some[n - 1 := t.samples] else some
    ensures forall p :: p != |t.frames| - 2 ==>
      (LinkAt(t, p, u, v) <==> LinkAt(Trace(t.samples, t.frames[..|t.frames| - 1]), p, u, v))
    ensures !LinkAt(Trace(t.samples, t.frames[..|t.frames| - 1]), |t.frames| - 2, u, v)
  {
  }

  lemma {:induction false} KeysOne<K>(ws: seq<(K, real)>, k: K, x: real)
    ensures KeysOf(ws + [(k, x)]) == KeysOf(ws) + {k}
  {
    KeysConcat(ws, [(k, x)]);
    assert [(k, x)][0].0 == k;
  }

  lemma {:induction false} KeysConcat<K>(a: seq<(K, real)>, b: seq<(K, real)>)
    ensures KeysOf(a + b) == KeysOf(a) + KeysOf(b)
  {
    forall k | k in KeysOf(a)
      ensures k in KeysOf(a + b)
    {
      var i :| 0 <= i < |a| && a[i].0 == k;
      assert (a + b)[i].0 == k;
    }
    forall k | k in KeysOf(b)
      ensures k in KeysOf(a + b)
    {
      var i :| 0 <= i < |b| && b[i].0 == k;
      assert (a + b)[|a| + i].0 == k;
    }
  }

  /** The links of a resolved line are the calls on its stack. */
  lemma {:induction false} LinksOfLine(line: Line, symbols: Symbols, u: FunctionId, v: FunctionId)
    requires Resolvable(line, symbols)
    ensures Amount(Links(Resolve(line, symbols)), (u, v)) == SumOf(LineCalls(line, symbols, u, v))
    ensures (u, v) in KeysOf(Links(Resolve(line, symbols))) <==> CallsIn(line, symbols, u, v)
  {
    hide SumOf, Links, KeysOf, Amount;
    var t := Resolve(line, symbols);
    LinkSum(t, u, v);
    forall p
      ensures CallAt(line, symbols, p, u, v) <==> LinkAt(t, p, u, v)
    {
    }
    assert LineCalls(line, symbols, u, v) == LinksAt(t, u, v);
  }

  /** The samples that the parsing counts for a call, and the calls that it finds. */
  lemma {:induction false} LinksAreCalls(lines: seq<Line>, symbols: Symbols, u: FunctionId, v: FunctionId)
    requires AllResolvable(lines, symbols)
    ensures Amount(AllLinks(ResolveAll(lines, symbols)), (u, v)) == SumOf(AllCalls(lines, symbols, u, v))
    ensures (u, v) in KeysOf(AllLinks(ResolveAll(lines, symbols))) <==> CallsOnStack(lines, symbols, u, v)
  {
    hide SumOf, Resolvable, Links, KeysOf, Amount, LineCalls, AllCalls, CallsIn, CallsOnStack;
    var ts := ResolveAll(lines, symbols);
    if lines == [] {
      NothingCounted(symbols, u, v);
    } else {
      var n := |lines| - 1;
      LinksAreCalls(lines[..n], symbols, u, v);
      LinksOfLine(lines[n], symbols, u, v);
      assert ResolveAll(lines[..n], symbols) == ts[..n];
      AmountConcat(AllLinks(ts[..n]), Links(ts[n]), (u, v));
      KeysConcat(AllLinks(ts[..n]), Links(ts[n]));
      CallsMore(lines, symbols, u, v);
    }
  }

  lemma {:induction false} CallsMore(lines: seq<Line>, symbols: Symbols, u: FunctionId, v: FunctionId)
    requires lines != []
    ensures var n := |lines| - 1;
      SumOf(AllCalls(lines, symbols, u, v)) ==
      SumOf(AllCalls(lines[..n], symbols, u, v)) + SumOf(LineCalls(lines[n], symbols, u, v))
    ensures CallsOnStack(lines, symbols, u, v) <==>
      CallsOnStack(lines[..|lines| - 1], symbols, u, v) || CallsIn(lines[|lines| - 1], symbols, u, v)
  {
    hide SumOf, LineCalls, CallsIn;
    var n := |lines| - 1;
    var x, rest := SumOf(LineCalls(lines[n], symbols, u, v)), lines[..n];
    assert AllCalls(lines, symbols, u, v) == AllCalls(rest, symbols, u, v)[n := x];
    SumInsert(AllCalls(rest, symbols, u, v), n, x);
    if i :| 0 <= i < n && CallsIn(lines[i], symbols, u, v) {
      assert CallsIn(rest[i], symbols, u, v);
    }
    if i :| 0 <= i < n && CallsIn(rest[i], symbols, u, v) {
      assert CallsIn(lines[i], symbols, u, v);
    }
  }

  // ----- parsing step by step -----

  /** Every function carries the samples of the stacks that it is the innermost function of. */
  ghost function LeafEvents(ids: set<FunctionId>, leaves: seq<(FunctionId, real)>): map<FunctionId, Events> {
    map u | u in ids :: map[Samples := Amount(leaves, u)]
  }

  lemma {:induction false} LeafAt(ids: set<FunctionId>, leaves: seq<(FunctionId, real)>, u: FunctionId)
    requires u in ids
    ensures LeafEvents(ids, leaves)[u] == map[Samples := Amount(leaves, u)]
  {
  }

  lemma {:induction false} LeafMore(ids: set<FunctionId>, leaves: seq<(FunctionId, real)>, u: FunctionId, x: real,
      more: real)
    requires u in ids && more == Amount(leaves, u) + x
    ensures LeafEvents(ids, leaves + [(u, x)]) ==
      LeafEvents(ids, leaves)[u := LeafEvents(ids, leaves)[u][Samples := more]]
  {
    hide Amount;
    var next := leaves + [(u, x)];
    forall v | v in ids
      ensures Amount(next, v) == if v == u then more else Amount(leaves, v)
    {
      AmountOne(leaves, u, x, v);
    }
    assert map[Samples := Amount(leaves, u)][Samples := more] == map[Samples := more];
  }

  lemma {:induction false} LinkMore(links: seq<(Edge, real)>, e: Edge, x: real, more: real)
    requires e in TallyEvents(links, Samples2) ==> more == TallyEvents(links, Samples2)[e][Samples2] + x
    requires e !in TallyEvents(links, Samples2) ==> more == x
    ensures TallyEvents(links + [(e, x)], Samples2) == TallyEvents(links, Samples2)[e := map[Samples2 := more]]
    ensures e in TallyEvents(links, Samples2) ==>
      TallyEvents(links, Samples2)[e][Samples2 := more] == map[Samples2 := more]
  {
    TallyEventsMore(links, Samples2, e, x);
  }

  /** The links of the first `n` frames. */
  ghost function LinksUpTo(t: Trace, n: nat): seq<(Edge, real)>
    requires n <= |t.frames|
  {
    Links(Trace(t.samples, t.frames[..n]))
  }

  lemma {:induction false} LinksStep(t: Trace, n: nat)
    requires 0 < n < |t.frames|
    ensures LinksUpTo(t, n + 1) == LinksUpTo(t, n) + [((t.frames[n], t.frames[n - 1]), t.samples)]
    ensures LinksUpTo(t, 1) == [] && LinksUpTo(t, |t.frames|) == Links(t)
  {
    var next := Trace(t.samples, t.frames[..n + 1]);
    assert next.frames[..n] == t.frames[..n];
    assert t.frames[..|t.frames|] == t.frames;
  }

  lemma {:induction false} LinksEnds(t: Trace)
    requires t.frames != []
    ensures LinksUpTo(t, 1) == [] && LinksUpTo(t, |t.frames|) == Links(t)
  {
    assert t.frames[..|t.frames|] == t.frames;
  }

  /** A line is refused exactly if its stack is empty or has an unknown symbol. */
  lemma {:induction false} UnresolvableIff(line: Line, symbols: Symbols)
    ensures !Resolvable(line, symbols) <==> line.callstack == [] || exists id :: id in line.callstack && id !in symbols
  {
  }

  lemma {:induction false} NothingResolved(lines: seq<Line>, symbols: Symbols)
    ensures AllResolvable(lines[..0], symbols) && ResolveAll(lines[..0], symbols) == []
  {
  }

  lemma {:induction false} ResolvedFrames(line: Line, symbols: Symbols)
    requires Resolvable(line, symbols)
    ensures Resolve(line, symbols).frames != []
    ensures forall u :: u in Resolve(line, symbols).frames ==> u in symbols.Values
  {
  }

  lemma {:induction false} ResolveMore(lines: seq<Line>, symbols: Symbols, n: nat)
    requires n < |lines| && AllResolvable(lines[..n], symbols) && Resolvable(lines[n], symbols)
    ensures AllResolvable(lines[..n + 1], symbols)
    ensures ResolveAll(lines[..n + 1], symbols) == ResolveAll(lines[..n], symbols) + [Resolve(lines[n], symbols)]
  {
  }

  lemma {:induction false} LeavesInside(ts: seq<Trace>, ids: set<FunctionId>)
    requires forall i :: 0 <= i < |ts| ==> ts[i].frames != [] && forall v :: v in ts[i].frames ==> v in ids
    ensures KeysOf(Leaves(ts)) <= ids && |Leaves(ts)| == |ts|
    ensures forall i :: 0 <= i < |ts| ==> Leaves(ts)[i].1 == ts[i].samples
  {
    forall i | 0 <= i < |ts|
      ensures Leaves(ts)[i].0 in ids
    {
      assert ts[i].frames[0] in ts[i].frames;
    }
  }

  lemma {:induction false} TotalSign<K>(ws: seq<(K, real)>)
    requires forall i :: 0 <= i < |ws| ==> ws[i].1 >= 0.0
    ensures TotalAmount(ws) >= 0.0
    ensures ws != [] && (forall i :: 0 <= i < |ws| ==> ws[i].1 > 0.0) ==> TotalAmount(ws) > 0.0
  {
    if ws != [] {
      var rest := ws[..|ws| - 1];
      assert forall i :: 0 <= i < |rest| ==> rest[i] == ws[i];
      TotalSign(rest);
    }
  }

  lemma {:induction false} ResolvedInside(lines: seq<Line>, symbols: Symbols, ids: set<FunctionId>)
    requires AllResolvable(lines, symbols) && symbols.Values <= ids
    ensures forall i :: 0 <= i < |lines| ==>
      ResolveAll(lines, symbols)[i].frames != [] && forall v :: v in ResolveAll(lines, symbols)[i].frames ==> v in ids
    ensures forall i :: 0 <= i < |lines| ==> ResolveAll(lines, symbols)[i].samples == lines[i].samples as real
  {
  }
}
