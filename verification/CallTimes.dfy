/** The times that the integration leaves in the calls: they add up to the times of the callees, and
    with the self time to the time of the caller. */
module CallTimes {
  import opened Graphs
  import opened Sums
  import opened Inclusive
  import opened Ratios
  import opened Charging
  import opened Totals
  import opened CycleFlow
  import opened Settlement
  import opened Bounds
  import opened Assertions
  import Passes

  /** The integrated time of the call from `u` to `v`; zero if it gets none. */
  ghost function CallTime(f: Flow, u: FunctionId, v: FunctionId): real
    requires f.Valid()
  {
    if HasCallOut(f, u, v) then CallOut(f, u, v) else 0.0
  }

  ghost function Incoming(f: Flow, v: FunctionId): map<FunctionId, real>
    requires f.Valid()
  {
    map u | u in f.calls :: CallTime(f, u, v)
  }

  ghost function Outgoing(f: Flow, u: FunctionId): map<FunctionId, real>
    requires f.Valid()
  {
    map v | v in f.calls :: CallTime(f, u, v)
  }

  // ----- calls within a component -----

  /** The entries of the component of `u`. */
  ghost function EntriesOf(g: Graph, u: FunctionId): (es: set<FunctionId>)
    ensures es <= Component(g, u)
  {
    Entries(g, Component(g, u))
  }

  /** What the pass for `e` moves along the call from `u` to `v`. */
  ghost function MovedIn(f: Flow, e: FunctionId, u: FunctionId, v: FunctionId): real
    requires f.Valid()
  {
    if PassOf(f, e).Valid() then InnerPassing(PassOf(f, e))(u, v) else 0.0
  }

  ghost function MovedTo(f: Flow, v: FunctionId): (FunctionId, FunctionId) -> real
    requires f.Valid()
  {
    (u, e) => MovedIn(f, e, u, v)
  }

  ghost function MovedFrom(f: Flow, u: FunctionId): (FunctionId, FunctionId) -> real
    requires f.Valid()
  {
    (v, e) => MovedIn(f, e, u, v)
  }

  ghost function InnerPart(f: Flow, u: FunctionId, v: FunctionId): real
    requires f.Valid()
  {
    if v in Component(f.calls, u) then InnerTime(f, EntriesOf(f.calls, u), u, v) else 0.0
  }

  lemma {:induction false} MovedAlong(f: Flow, e: FunctionId, u: FunctionId, v: FunctionId)
    requires f.Valid() && e in Component(f.calls, u)
    ensures v in PassOf(f, e).Uphill(u) ==> MovedIn(f, e, u, v) == PassingIn(f, e, u, v)
    ensures v !in PassOf(f, e).Uphill(u) ==> MovedIn(f, e, u, v) == 0.0
  {
    hide Reach, SumOf, RanksOf, Inflow, Partial, Component;
    EntryOf(f, e, u);
    var p := PassOf(f, e);
    TimesPlus(PartialOf(p, v), 0.0, 0.0);
    if v in p.Uphill(u) {
      UphillSmaller(p, u, v);
      TimesCommutes(PartialOf(p, v), p.InnerRatio(u, v));
    }
  }

  /** The time along an inner call is what all passes move along it. */
  lemma {:induction false} InnerTimeMoved(f: Flow, es: set<FunctionId>, u: FunctionId, v: FunctionId)
    requires f.Valid() && es <= Component(f.calls, u)
    ensures InnerTime(f, es, u, v) == SumOf(map e | e in es :: MovedIn(f, e, u, v))
  {
    hide Reach, SumOf, PassOf, MovedIn, PassingIn, Component;
    var moved := map e | e in es :: MovedIn(f, e, u, v);
    forall e | e in es
      ensures v in PassOf(f, e).Uphill(u) ==> moved[e] == PassingIn(f, e, u, v)
      ensures v !in PassOf(f, e).Uphill(u) ==> moved[e] == 0.0
    {
      MovedAlong(f, e, u, v);
    }
    SumExtend(InnerTimes(f, es, u, v), moved);
  }

  /** A call crosses between components or stays in one. */
  lemma {:induction false} CallTimeSplit(f: Flow, u: FunctionId, v: FunctionId)
    requires f.Valid() && u in f.calls
    ensures CallTime(f, u, v) == Transfer(f)(u, v) + InnerPart(f, u, v)
  {
    hide Reach, SumOf, PassOf, InclusiveTime, PassingIn, Transfer;
    TransferAt(f, u, v);
    var es := EntriesOf(f.calls, u);
    if UphillPasses(f, es, u, v) == {} {
      SumZero(InnerTimes(f, es, u, v));
    } else {
      UphillInComponent(f, es, u, v);
    }
  }

  lemma {:induction false} UphillInComponent(f: Flow, es: set<FunctionId>, u: FunctionId, v: FunctionId)
    requires f.Valid() && es <= Component(f.calls, u) && UphillPasses(f, es, u, v) != {}
    ensures u in f.calls && v in f.calls[u] && v in Component(f.calls, u)
  {
    hide Reach, RanksOf, Inflow;
    var e :| e in es && v in PassOf(f, e).Uphill(u);
    EntryOf(f, e, u);
    UphillSmaller(PassOf(f, e), u, v);
  }

  // ----- what is passed to a function's callers -----

  /** What the passes for all entries pass on from `v` to its callers in the cycle. */
  ghost function PassedUp(f: Flow, v: FunctionId): map<FunctionId, real>
    requires f.Valid()
  {
    map e | e in EntriesOf(f.calls, v) :: EntryOf(f, e, v); PassedDown(PassOf(f, e), Component(f.calls, v))[v]
  }

  lemma {:induction false} MovedColumn(f: Flow, e: FunctionId, v: FunctionId)
    requires f.Valid() && e in EntriesOf(f.calls, v)
    ensures SumOf(Column(MovedTo(f, v), Component(f.calls, v), e)) == PassedUp(f, v)[e]
  {
    hide Reach, SumOf, RanksOf, Inflow, Partial, Component, Times, Entries;
    var p, c := PassOf(f, e), Component(f.calls, v);
    EntryOf(f, e, v);
    var ratios := map u | u in c :: p.InnerRatio(u, v);
    SumScale(PartialOf(p, v), ratios, Column(MovedTo(f, v), c, e));
  }

  lemma {:induction false} InnerColumns(f: Flow, v: FunctionId)
    requires f.Valid() && v in f.calls
    ensures ColumnSums(MovedTo(f, v), Component(f.calls, v), EntriesOf(f.calls, v)) == PassedUp(f, v)
  {
    hide Reach, SumOf, PassOf, MovedTo, Entries, Partial, Component, Column, PassedDown;
    forall e | e in EntriesOf(f.calls, v)
      ensures ColumnSums(MovedTo(f, v), Component(f.calls, v), EntriesOf(f.calls, v))[e] == PassedUp(f, v)[e]
    {
      MovedColumn(f, e, v);
    }
  }

  lemma {:induction false} InnerRows(f: Flow, v: FunctionId)
    requires f.Valid() && v in f.calls
    ensures SumOf(map u | u in f.calls :: InnerPart(f, u, v)) ==
      SumOf(RowSums(MovedTo(f, v), Component(f.calls, v), EntriesOf(f.calls, v)))
  {
    hide Reach, SumOf, PassOf, MovedTo, InnerPart, Entries, Row;
    var rows := RowSums(MovedTo(f, v), Component(f.calls, v), EntriesOf(f.calls, v));
    forall u | u in f.calls
      ensures InnerPart(f, u, v) == if u in rows then rows[u] else 0.0
    {
      InnerRow(f, u, v);
    }
    SumExtend(rows, map u | u in f.calls :: InnerPart(f, u, v));
  }

  lemma {:induction false} InnerRow(f: Flow, u: FunctionId, v: FunctionId)
    requires f.Valid() && u in f.calls && v in f.calls
    ensures u in Component(f.calls, v) <==> v in Component(f.calls, u)
    ensures InnerPart(f, u, v) ==
      if u in Component(f.calls, v) then SumOf(Row(MovedTo(f, v), u, EntriesOf(f.calls, v))) else 0.0
  {
    hide Reach, SumOf, PassOf, MovedIn, InnerTime, Entries;
    if u in Component(f.calls, v) {
      ComponentShared(f.calls, v, u);
      InnerTimeMoved(f, EntriesOf(f.calls, u), u, v);
      assert Row(MovedTo(f, v), u, EntriesOf(f.calls, v)) == map e | e in EntriesOf(f.calls, u) :: MovedIn(f, e, u, v);
    }
  }

  /** For arbitrary ratios: a call from outside takes over its part of the component's time, and the
      passes pass on what they leave in the function once for every uphill call. */
  lemma {:induction false} IncomingExact(f: Flow, v: FunctionId)
    requires f.Valid() && v in f.calls
    ensures SumOf(Incoming(f, v)) == Times(InclusiveTime(f, v), Inflow(f, f.calls.Keys, v)) + SumOf(PassedUp(f, v))
  {
    hide Reach, SumOf, PassOf, InnerTime, Entries, Partial, Component, CallTime, Transfer, InnerPart, InclusiveTime,
      Inflow, MovedTo, RowSums, ColumnSums, PassedDown;
    var crossing := Column(Transfer(f), f.calls.Keys, v);
    var inner := map u | u in f.calls :: InnerPart(f, u, v);
    forall u | u in f.calls
      ensures Incoming(f, v)[u] == crossing[u] + inner[u]
    {
      CallTimeSplit(f, u, v);
    }
    SumPlus(crossing, inner, Incoming(f, v));
    TransferColumn(f, f.calls.Keys, v);
    InnerRows(f, v);
    SumExchange(MovedTo(f, v), Component(f.calls, v), EntriesOf(f.calls, v));
    InnerColumns(f, v);
  }

  /** What the passes for other entries pass on from `v` repeatedly. */
  ghost function RepeatedTimes(f: Flow, v: FunctionId): map<FunctionId, real>
    requires f.Valid()
  {
    map e | e in EntriesOf(f.calls, v) && Repeated(PassOf(f, e), v) :: EntryOf(f, e, v); Repetition(PassOf(f, e), v)
  }

  /** What the repetitions in its own pass leave in `v`, if it is an entry. */
  ghost function OwnSurplus(f: Flow, v: FunctionId): real
    requires f.Valid()
  {
    if v in EntriesOf(f.calls, v) then EntryOf(f, v, v); PassSurplus(PassOf(f, v)) else 0.0
  }

  lemma {:induction false} PassedOnce(f: Flow, e: FunctionId, v: FunctionId)
    requires f.Valid() && f.Nonnegative() && e in EntriesOf(f.calls, v)
    ensures PassedUp(f, v)[e] == (if e == v then 0.0 else MemberTimes(f, EntriesOf(f.calls, v), v)[e]) +
      if e in RepeatedTimes(f, v) then RepeatedTimes(f, v)[e] else 0.0
  {
    hide Reach, SumOf, RanksOf, Inflow, Partial, Component, Times, Entries, PassedDown, Repeated, Repetition;
    EntryOf(f, e, v);
    PassedAt(PassOf(f, e), v);
  }

  lemma {:induction false} PassedTotal(f: Flow, v: FunctionId)
    requires f.Valid() && f.Nonnegative() && v in f.calls
    ensures SumOf(PassedUp(f, v)) + (if v in EntriesOf(f.calls, v) then PartialOf(PassOf(f, v), v) else 0.0) ==
      MemberTime(f, EntriesOf(f.calls, v), v) + SumOf(RepeatedTimes(f, v))
  {
    hide Reach, SumOf, PassOf, Partial, Component, Entries, PassedDown, Repeated, Repetition;
    var es := EntriesOf(f.calls, v);
    var others := if v in es then MemberTimes(f, es, v)[v := 0.0] else MemberTimes(f, es, v);
    var extra := map e | e in es :: if e in RepeatedTimes(f, v) then RepeatedTimes(f, v)[e] else 0.0;
    forall e | e in es
      ensures PassedUp(f, v)[e] == others[e] + extra[e]
    {
      PassedOnce(f, e, v);
    }
    SumPlus(others, extra, PassedUp(f, v));
    SumExtend(RepeatedTimes(f, v), extra);
    if v in es {
      EntryOf(f, v, v);
      SumUpdate(MemberTimes(f, es, v), v, 0.0);
    }
  }

  /** For arbitrary ratios that are not negative: the integrated times of the calls to a function are its
      own time, apart from repetitions; from outside of a cycle of its own they are its part. */
  lemma {:induction false} EdgeBalance(f: Flow, v: FunctionId)
    requires f.Valid() && f.Nonnegative() && v in f.calls
    ensures Recursive(f.calls, v) ==>
      SumOf(Incoming(f, v)) + OwnSurplus(f, v) == FunctionOut(f, v) + SumOf(RepeatedTimes(f, v))
    ensures !Recursive(f.calls, v) ==> SumOf(Incoming(f, v)) == Times(FunctionOut(f, v), Inflow(f, f.calls.Keys, v))
  {
    hide Reach, SumOf, PassOf, Incoming, Entries, Partial, InclusiveTime, Inflow, Component, PassSurplus, RepeatedTimes,
      PassedUp, MemberTime;
    IncomingExact(f, v);
    if Recursive(f.calls, v) {
      PassedTotal(f, v);
      OwnPass(f, v);
    } else {
      LonePassed(f, v);
    }
  }

  lemma {:induction false} OwnPass(f: Flow, v: FunctionId)
    requires f.Valid() && f.Nonnegative() && v in f.calls
    ensures Times(InclusiveTime(f, v), Inflow(f, f.calls.Keys, v)) + OwnSurplus(f, v) ==
      if v in EntriesOf(f.calls, v) then PartialOf(PassOf(f, v), v) else 0.0
  {
    hide Reach, SumOf, RanksOf, Entries, Partial, InclusiveTime, Inflow, Component, PassSurplus, Times;
    if v in EntriesOf(f.calls, v) {
      EntryOf(f, v, v);
      SurplusExact(PassOf(f, v));
      TimesCommutes(InclusiveTime(f, v), Inflow(f, f.calls.Keys, v));
    } else {
      NoInflow(f, v);
      TimesPlus(InclusiveTime(f, v), 0.0, 0.0);
    }
  }

  lemma {:induction false} LonePassed(f: Flow, v: FunctionId)
    requires f.Valid() && v in f.calls && Component(f.calls, v) == {v}
    ensures SumOf(PassedUp(f, v)) == 0.0
  {
    hide Reach, SumOf, Entries, Partial, Inflow, RanksOf, Pass.RatioSum, Pass.UphillRatio;
    forall e | e in PassedUp(f, v)
      ensures PassedUp(f, v)[e] == 0.0
    {
      var p := PassOf(f, e);
      EntryOf(f, e, v);
      TimesPlus(PartialOf(p, v), 0.0, 0.0);
      SumZero(map m | m in Component(f.calls, v) :: p.InnerRatio(m, v));
    }
    SumZero(PassedUp(f, v));
  }

  /** Positive ratios leave nothing to repeat. */
  lemma {:induction false} NoRepetitions(p: Pass)
    requires p.Valid() && UphillPositive(p)
    ensures forall v :: v in p.Members() ==> !Repeated(p, v)
    ensures PassSurplus(p) == 0.0
  {
    hide Reach, SumOf, Component, Pass.RatioSum, Pass.UphillRatio, Pass.Uphill, ShortestRanks, Partial;
    forall v | v in p.Members()
      ensures !Repeated(p, v)
    {
      if v != p.entry {
        var k := CalledFromBelow(p, v);
        RatioSumBounds(p, k, v);
      }
    }
    SumZero(Repetitions(p));
  }

  /** With positive ratios the integrated times of the calls to a function add up to its own, unless the
      function is alone in its component and nobody else calls it. */
  lemma {:induction false} EdgeConservation(f: Flow, v: FunctionId)
    requires f.Valid() && f.Nonnegative() && f.Positive() && v in f.calls
    ensures Recursive(f.calls, v) ==> SumOf(Incoming(f, v)) == FunctionOut(f, v)
    ensures Balanced(f) ==>
      SumOf(Incoming(f, v)) == if Entered(f.calls, Component(f.calls, v)) then FunctionOut(f, v) else 0.0
  {
    hide Reach, SumOf, PassOf, Incoming, Entries, Partial, InclusiveTime, Inflow, ComponentInflow, Balanced, Entered,
      PassSurplus, Repeated, Repetition;
    EdgeBalance(f, v);
    forall e | e in EntriesOf(f.calls, v)
      ensures PassOf(f, e).Valid() && !Repeated(PassOf(f, e), v) && PassSurplus(PassOf(f, e)) == 0.0
    {
      EntryOf(f, e, v);
      Passes.PositivePass(f, e);
      NoRepetitions(PassOf(f, e));
    }
    SumZero(RepeatedTimes(f, v));
    EntriesEntered(f.calls, v);
    if !Entered(f.calls, Component(f.calls, v)) {
      NoInflow(f, v);
      TimesPlus(FunctionOut(f, v), 0.0, 0.0);
      SumZero(MemberTimes(f, EntriesOf(f.calls, v), v));
    } else if !Recursive(f.calls, v) && Balanced(f) {
      LoneInflow(f, v);
      TimesOne(FunctionOut(f, v));
    }
  }

  lemma {:induction false} LoneInflow(f: Flow, v: FunctionId)
    requires f.Valid() && Balanced(f) && v in f.calls && Component(f.calls, v) == {v} && Entered(f.calls, {v})
    ensures Inflow(f, f.calls.Keys, v) == 1.0
  {
    hide Reach, SumOf, Inflow, Entered;
    var c, s := {v}, f.calls.Keys;
    assert IsComponent(f.calls, c);
    SumSingle(map u | u in c :: Inflow(f, s, u), v);
  }

  // ----- what a function takes over -----

  /** In a pass, the partial time of a member is its part of its own share and what moves to it. */
  lemma {:induction false} PartialMoved(f: Flow, e: FunctionId, u: FunctionId)
    requires f.Valid() && e in Component(f.calls, u)
    ensures PassOf(f, e).Valid() && u in PassOf(f, e).Members()
    ensures Partial(PassOf(f, e), u) ==
      Times(Share(f, u), Inflow(f, f.calls.Keys, e)) + SumOf(Column(MovedFrom(f, u), Component(f.calls, u), e))
  {
    hide Reach, SumOf, RanksOf, Inflow, Partial, Component, Share, InnerPassing, ShortestRanks;
    var p, c := PassOf(f, e), Component(f.calls, u);
    EntryOf(f, e, u);
    MembersRanked(p);
    PartialSplit(p, c, u);
    assert Row(InnerPassing(p), u, c) == Column(MovedFrom(f, u), c, e);
    TimesCommutes(p.share, Share(f, u));
  }

  /** What a function takes over from its own component. */
  lemma {:induction false} InnerOutgoing(f: Flow, u: FunctionId)
    requires f.Valid() && u in f.calls
    ensures SumOf(map v | v in f.calls :: InnerPart(f, u, v)) ==
      SumOf(ColumnSums(MovedFrom(f, u), Component(f.calls, u), EntriesOf(f.calls, u)))
  {
    hide Reach, SumOf, PassOf, Entries, InnerTime, MovedIn;
    var c, es := Component(f.calls, u), EntriesOf(f.calls, u);
    var rows := RowSums(MovedFrom(f, u), c, es);
    forall v | v in c
      ensures rows[v] == InnerTime(f, es, u, v)
    {
      InnerTimeMoved(f, es, u, v);
      assert Row(MovedFrom(f, u), v, es) == map e | e in es :: MovedIn(f, e, u, v);
    }
    SumExtend(rows, map v | v in f.calls :: InnerPart(f, u, v));
    SumExchange(MovedFrom(f, u), c, es);
  }

  /** What the passes leave in a function: its share, as far as the component is entered at all, and
      what it takes over from its own component. */
  lemma {:induction false} MemberTimeSplit(f: Flow, u: FunctionId)
    requires f.Valid() && u in f.calls
    ensures MemberTime(f, EntriesOf(f.calls, u), u) ==
      Times(Share(f, u), ComponentInflow(f, f.calls.Keys, Component(f.calls, u))) +
      SumOf(map v | v in f.calls :: InnerPart(f, u, v))
  {
    hide Reach, SumOf, PassOf, Entries, InnerPart, Partial, Column, Component, ComponentInflow, Inflow, Share, Times,
      MovedFrom;
    var c, es := Component(f.calls, u), EntriesOf(f.calls, u);
    var inflows := map e | e in es :: Inflow(f, f.calls.Keys, e);
    var own := map e | e in es :: Times(Share(f, u), Inflow(f, f.calls.Keys, e));
    forall e | e in es
      ensures MemberTimes(f, es, u)[e] == own[e] + ColumnSums(MovedFrom(f, u), c, es)[e]
    {
      PartialMoved(f, e, u);
    }
    SumPlus(own, ColumnSums(MovedFrom(f, u), c, es), MemberTimes(f, es, u));
    SumScale(Share(f, u), inflows, own);
    EntriesInflow(f, u);
    InnerOutgoing(f, u);
  }

  lemma {:induction false} OutgoingSplit(f: Flow, u: FunctionId)
    requires f.Valid() && u in f.calls
    ensures SumOf(Outgoing(f, u)) == SumOf(Outflow(f, u)) + SumOf(map v | v in f.calls :: InnerPart(f, u, v))
  {
    hide Reach, SumOf, CallTime, Transfer, InnerPart, Outflow;
    var crossing, inner := Row(Transfer(f), u, f.calls.Keys), map v | v in f.calls :: InnerPart(f, u, v);
    forall v | v in f.calls
      ensures Outgoing(f, u)[v] == crossing[v] + inner[v]
    {
      CallTimeSplit(f, u, v);
    }
    SumPlus(crossing, inner, Outgoing(f, u));
    TransferRow(f, f.calls.Keys, u);
  }

  /** A function's time is its own time and what its calls take over, provided that all of the time
      of its component is passed on if that is a cycle. */
  lemma {:induction false} NodeBalance(f: Flow, u: FunctionId)
    requires f.Valid() && u in f.calls
    requires Recursive(f.calls, u) ==> ComponentInflow(f, f.calls.Keys, Component(f.calls, u)) == 1.0
    ensures FunctionOut(f, u) == f.time[u] + SumOf(Outgoing(f, u))
  {
    hide Reach, SumOf, PassOf, Entries, InnerTime, Outgoing, Partial, InclusiveTime, ComponentInflow;
    OutgoingSplit(f, u);
    if Recursive(f.calls, u) {
      MemberTimeSplit(f, u);
      TimesOne(Share(f, u));
    } else {
      LoneOutflow(f, u);
      forall v | v in f.calls
        ensures InnerPart(f, u, v) == 0.0
      {
        LoneInner(f, u, v);
      }
      SumZero(map v | v in f.calls :: InnerPart(f, u, v));
    }
  }

  lemma {:induction false} LoneInner(f: Flow, u: FunctionId, v: FunctionId)
    requires f.Valid() && u in f.calls && !Recursive(f.calls, u)
    ensures InnerPart(f, u, v) == 0.0
  {
    hide Reach, SumOf, RanksOf, Inflow, PassingIn;
    var es := EntriesOf(f.calls, u);
    if v == u {
      forall e | e in es
        ensures v !in PassOf(f, e).Uphill(u)
      {
      }
      SumZero(InnerTimes(f, es, u, v));
    }
  }

  /** What is missing is the part of the member's share that nobody takes over. */
  lemma {:induction false} NodeBalanceExact(f: Flow, u: FunctionId)
    requires f.Valid() && u in f.calls && Recursive(f.calls, u)
    ensures FunctionOut(f, u) ==
      f.time[u] + SumOf(Outgoing(f, u)) +
      Times(Share(f, u), ComponentInflow(f, f.calls.Keys, Component(f.calls, u)) - 1.0)
  {
    hide Reach, SumOf, PassOf, Entries, InnerTime, Outgoing, Partial, InclusiveTime, ComponentInflow, Outflow;
    OutgoingSplit(f, u);
    MemberTimeSplit(f, u);
    TimesPlus(Share(f, u), ComponentInflow(f, f.calls.Keys, Component(f.calls, u)) - 1.0, 1.0);
    TimesOne(Share(f, u));
  }

  /** The balance fails exactly for members that contribute to a cycle whose time is not passed on exactly
      once; with balanced ratios that is a cycle that nobody enters. */
  lemma {:induction false} NodeBalanceIff(f: Flow, u: FunctionId)
    requires f.Valid() && f.Nonnegative() && u in f.calls
    ensures FunctionOut(f, u) == f.time[u] + SumOf(Outgoing(f, u)) <==>
      !(Recursive(f.calls, u) && ComponentInflow(f, f.calls.Keys, Component(f.calls, u)) != 1.0 && Contributes(f, u))
    ensures Balanced(f) ==>
      (ComponentInflow(f, f.calls.Keys, Component(f.calls, u)) != 1.0 <==> !Entered(f.calls, Component(f.calls, u)))
    ensures Recursive(f.calls, u) && !Entered(f.calls, Component(f.calls, u)) ==> FunctionOut(f, u) == 0.0
  {
    hide Reach, SumOf, PassOf, Entries, InnerTime, Outgoing, Partial, InclusiveTime, ComponentInflow, Entered,
      Contributes, Share, Times;
    assert IsComponent(f.calls, Component(f.calls, u));
    ContributesIff(f, u);
    EntriesEntered(f.calls, u);
    if Recursive(f.calls, u) {
      NodeBalanceExact(f, u);
      TimesZero(Share(f, u), ComponentInflow(f, f.calls.Keys, Component(f.calls, u)) - 1.0);
      if !Entered(f.calls, Component(f.calls, u)) {
        SumZero(MemberTimes(f, EntriesOf(f.calls, u), u));
      }
    } else {
      NodeBalance(f, u);
    }
  }

  lemma {:induction false} TimesZero(a: real, b: real)
    ensures Times(a, b) == 0.0 <==> a == 0.0 || b == 0.0
  {
  }

  // Two functions that call each other, and only one of them takes time: the stack `LEFT RIGHT LEFT`.
  const MUTUAL_CALLS: Graph := map[LEFT := {RIGHT}, RIGHT := {LEFT}]
  const MUTUAL_COUNTS := Counts(MUTUAL_CALLS, map[(LEFT, RIGHT) := 1.0, (RIGHT, LEFT) := 1.0])
  const MUTUAL_TIMES: map<FunctionId, real> := map[LEFT := 1.0, RIGHT := 0.0]

  lemma {:induction false} MutualComponent()
    ensures Component(MUTUAL_CALLS, LEFT) == {LEFT, RIGHT} && RIGHT != LEFT && !Entered(MUTUAL_CALLS, {LEFT, RIGHT})
  {
    hide Reach;
    ReachCall(MUTUAL_CALLS, LEFT, RIGHT);
    ReachCall(MUTUAL_CALLS, RIGHT, LEFT);
    ReachSelf(MUTUAL_CALLS, LEFT);
    ComponentShared(MUTUAL_CALLS, LEFT, RIGHT);
  }

  /** A cycle that nobody enters: the function that takes all the time is left with none of it. */
  lemma {:induction false} BalanceFails()
    ensures MUTUAL_COUNTS.Valid() && MUTUAL_COUNTS.Nonnegative() && MUTUAL_COUNTS.Positive()
    ensures Normalised(MUTUAL_COUNTS, MUTUAL_TIMES).Valid() && LEFT in MUTUAL_CALLS
    ensures var f := Normalised(MUTUAL_COUNTS, MUTUAL_TIMES);
      f.time[LEFT] == 1.0 && FunctionOut(f, LEFT) == 0.0 &&
      FunctionOut(f, LEFT) != f.time[LEFT] + SumOf(Outgoing(f, LEFT))
  {
    hide Reach, SumOf, CallRatioOf, FunctionOut, Outgoing, ComponentInflow, Entered, Balanced, Component;
    MutualComponent();
    NormalisedPositive(MUTUAL_COUNTS, MUTUAL_TIMES);
    PositiveBalanced(MUTUAL_COUNTS, MUTUAL_TIMES);
    NodeBalanceIff(Normalised(MUTUAL_COUNTS, MUTUAL_TIMES), LEFT);
  }

  // ----- bounds -----

  lemma {:induction false} CallTimeNonnegative(f: Flow, u: FunctionId, v: FunctionId)
    requires f.Valid() && f.Nonnegative() && u in f.calls
    ensures CallTime(f, u, v) >= 0.0
  {
    hide Reach, SumOf, PassOf, InclusiveTime, Outflow, Partial;
    if v in Outflow(f, u) {
      OutflowNonnegative(f, u, v);
    }
    var es := EntriesOf(f.calls, u);
    forall e | e in InnerTimes(f, es, u, v)
      ensures InnerTimes(f, es, u, v)[e] >= 0.0
    {
      PassingNonnegative(f, e, u, v);
    }
    SumNonnegative(InnerTimes(f, es, u, v));
  }

  lemma {:induction false} PassingNonnegative(f: Flow, e: FunctionId, u: FunctionId, v: FunctionId)
    requires f.Valid() && f.Nonnegative() && e in Component(f.calls, u) && v in PassOf(f, e).Uphill(u)
    ensures PassingIn(f, e, u, v) >= 0.0
  {
    hide Reach, SumOf, RanksOf, Inflow, Partial, Component;
    var p := PassOf(f, e);
    EntryOf(f, e, u);
    UphillSmaller(p, u, v);
    InflowNonnegative(f, e);
    PartialNonnegative(p, v);
    InnerRatioNonnegative(p, u, v);
    ProductNonnegative(p.InnerRatio(u, v), Partial(p, v));
  }

  /** No call takes over more than its callee's time. */
  lemma {:induction false} CallBound(f: Flow, u: FunctionId, v: FunctionId)
    requires f.Valid() && f.Nonnegative() && f.Positive() && Balanced(f) && u in f.calls && v in f.calls
    ensures 0.0 <= CallTime(f, u, v) <= FunctionOut(f, v)
  {
    hide Reach, SumOf, CallTime, InclusiveTime, FunctionOut, Balanced, Entered;
    forall w | w in f.calls
      ensures Incoming(f, v)[w] >= 0.0
    {
      CallTimeNonnegative(f, w, v);
    }
    SumNonnegative(Incoming(f, v));
    assert Incoming(f, v)[u] == CallTime(f, u, v);
    EdgeConservation(f, v);
    MemberBound(f, v);
  }
}
