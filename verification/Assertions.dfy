/** When the assertions about the passes hold: always, if every call has a positive ratio, and
    otherwise depending on where the zeros are. */
module Assertions {
  import opened Graphs
  import opened Sums
  import opened Inclusive
  import opened Ratios
  import opened Charging
  import opened CycleFlow
  import opened Settlement
  import opened Bounds
  import Passes
  import opened Totals

  lemma {:induction false} ExactQuotient(partial: real, share: real, total: real)
    requires share > 0.0 && total != 0.0 && partial == Times(share, total)
    ensures Times(share, total) != 0.0 && partial / Times(share, total) == 1.0
  {
  }

  /** Somebody outside calls an entry. */
  lemma {:induction false} EntryCalled(f: Flow, e: FunctionId) returns (u: FunctionId)
    requires f.Valid() && e in f.calls && e in Entries(f.calls, Component(f.calls, e))
    ensures u in f.calls && e in f.calls[u] && e !in Component(f.calls, u) && u !in Component(f.calls, e)
    ensures (u, e) in f.ratio && Weight(f, u, e) == f.ratio[(u, e)] && u != e
  {
    hide Reach;
    u :| u in f.calls && u !in Component(f.calls, e) && e in f.calls[u];
    InOwnComponent(f.calls, e);
    InOwnComponent(f.calls, u);
    if e in Component(f.calls, u) {
      ComponentShared(f.calls, u, e);
    }
  }

  /** The callers of an entry take something over. */
  lemma {:induction false} EntryShared(f: Flow, e: FunctionId)
    requires f.Valid() && f.Nonnegative() && f.Positive() && e in f.calls
    requires e in Entries(f.calls, Component(f.calls, e))
    ensures Inflow(f, f.calls.Keys, e) > 0.0
  {
    hide Reach, SumOf, Component, Weight;
    var u := EntryCalled(f, e);
    var weights := map m | m in f.calls.Keys :: Weight(f, m, e);
    forall m | m in weights
      ensures weights[m] >= 0.0
    {
      WeightNonnegative(f, m, e);
    }
    SumNonnegative(weights);
    assert weights[u] > 0.0;
  }

  /** Positive ratios meet both assertions in every pass, the second one exactly. */
  lemma {:induction false} PositiveAsserted(f: Flow)
    requires f.Valid() && f.Nonnegative() && f.Positive()
    ensures PassesAsserted(f)
  {
    hide Reach, Component, Recursive, Entries, PassOf, Partial, InclusiveTime, Times, Inflow;
    forall e | e in f.calls && Recursive(f.calls, e) && e in Entries(f.calls, Component(f.calls, e))
      ensures PassOf(f, e).Valid() && Asserted(PassOf(f, e))
    {
      PositivePassAsserted(f, e);
    }
  }

  lemma {:induction false} PositivePassAsserted(f: Flow, e: FunctionId)
    requires f.Valid() && f.Nonnegative() && f.Positive() && e in f.calls
    requires e in Entries(f.calls, Component(f.calls, e))
    ensures PassOf(f, e).Valid() && Asserted(PassOf(f, e))
  {
    hide Reach, Component, Entries, Partial, InclusiveTime, Inflow, RanksOf;
    var p := PassOf(f, e);
    Passes.PositivePass(f, e);
    EntryShared(f, e);
    EntryTakesShare(p);
    forall m | m in p.Members()
      ensures Partial(p, m) <= Partial(p, p.entry)
    {
      EntryIsMaximal(p, m);
    }
    if InclusiveTime(f, e) != 0.0 {
      ExactQuotient(Partial(p, e), p.share, InclusiveTime(f, e));
    }
  }

  // ----- ratios of zero -----

  /** Several calls lead uphill to the member, and all of them have a ratio of zero. */
  ghost predicate Repeated(p: Pass, v: FunctionId) {
    v != p.entry && p.RatioSum(v) == 0.0 && |UphillCallers(p, v)| > 1
  }

  /** The member contributes to the time of the cycle, or takes over some from uphill. */
  ghost predicate Carries(p: Pass, m: FunctionId)
    requires p.Valid() && m in p.Members()
    decreases p.Above(m)
  {
    || Contributes(p.f, m)
    || exists v ::
         && v in p.Uphill(m)
         && (p.UphillRatio(m, v) > 0.0 || p.RatioSum(v) == 0.0)
         && (UphillSmaller(p, m, v); AboveShrinks(p, m, v); Carries(p, v))
  }

  lemma {:induction false} RatioPositive(n: real, d: real)
    requires 0.0 <= n <= d
    ensures Ratio(n, d) > 0.0 <==> n > 0.0 || d == 0.0
  {
    if d > 0.0 {
      RatioExact(n, d);
    }
  }

  lemma {:induction false} InnerRatioPositive(p: Pass, m: FunctionId, v: FunctionId)
    requires p.Valid() && p.f.Nonnegative() && v in p.Uphill(m)
    ensures p.InnerRatio(m, v) > 0.0 <==> p.UphillRatio(m, v) > 0.0 || p.RatioSum(v) == 0.0
  {
    hide SumOf, Reach, Pass.RatioSum, Pass.UphillRatio, Ratio;
    NonnegativePass(p);
    UphillSmaller(p, m, v);
    MembersRanked(p);
    RatioSumBounds(p, m, v);
    RatioPositive(p.UphillRatio(m, v), p.RatioSum(v));
  }

  lemma {:induction false} TimesPositive(a: real, b: real)
    requires a >= 0.0 && b >= 0.0
    ensures Times(a, b) >= 0.0 && (Times(a, b) > 0.0 <==> a > 0.0 && b > 0.0)
  {
    ProductPositive(a, b);
  }

  lemma {:induction false} RowCarries(p: Pass, m: FunctionId, v: FunctionId)
    requires p.Valid() && p.f.Nonnegative() && m in p.Members() && v in p.Members()
    requires v in p.Uphill(m) ==> Partial(p, v) >= 0.0 && (Partial(p, v) > 0.0 <==> Carries(p, v))
    ensures InnerPassing(p)(m, v) >= 0.0
    ensures InnerPassing(p)(m, v) > 0.0 <==>
      v in p.Uphill(m) && (p.UphillRatio(m, v) > 0.0 || p.RatioSum(v) == 0.0) && Carries(p, v)
  {
    hide SumOf, Reach, Component, Partial, Carries, Pass.RatioSum, Pass.UphillRatio, ShortestRanks;
    if v in p.Uphill(m) {
      InnerRatioPositive(p, m, v);
      InnerRatioNonnegative(p, m, v);
      TimesPositive(Partial(p, v), p.InnerRatio(m, v));
    } else {
      TimesPlus(PartialOf(p, v), 0.0, 0.0);
    }
  }

  /** Once the entry has a share, a member's partial time is positive exactly if it carries time. */
  lemma {:induction false} CarriesIff(p: Pass, m: FunctionId)
    requires p.Valid() && p.f.Nonnegative() && p.share > 0.0 && m in p.Members()
    ensures Partial(p, m) >= 0.0 && (Partial(p, m) > 0.0 <==> Carries(p, m))
    decreases p.Above(m)
  {
    hide SumOf, Reach, Component, Partial, Pass.RatioSum, Pass.UphillRatio, ShortestRanks, Contributes, Share,
      InnerPassing;
    MembersRanked(p);
    PartialSplit(p, p.Members(), m);
    ContributesIff(p.f, m);
    TimesPositive(p.share, Share(p.f, m));
    var row := Row(InnerPassing(p), m, p.Members());
    forall v | v in p.Members()
      ensures row[v] >= 0.0
      ensures row[v] > 0.0 <==> v in p.Uphill(m) && (p.UphillRatio(m, v) > 0.0 || p.RatioSum(v) == 0.0) && Carries(p, v)
    {
      if v in p.Uphill(m) {
        AboveShrinks(p, m, v);
        CarriesIff(p, v);
      }
      RowCarries(p, m, v);
    }
    SumNonnegative(row);
    SumZeroIff(row);
  }

  /** What a member adds by being gone along repeatedly: its time for every uphill call but one. */
  ghost function Repetition(p: Pass, v: FunctionId): real
    requires p.Valid() && v in p.Members()
  {
    Times(Partial(p, v), |UphillCallers(p, v)| as real - 1.0)
  }

  ghost function Repetitions(p: Pass): map<FunctionId, real>
    requires p.Valid()
  {
    map v | v in p.Members() && Repeated(p, v) :: Repetition(p, v)
  }

  /** What all repetitions add to the partial time of the entry. */
  ghost function PassSurplus(p: Pass): real
    requires p.Valid()
  {
    SumOf(Repetitions(p))
  }

  /** The partial time of the entry is its callers' share of the cycle's time and the repetitions. */
  lemma {:induction false} SurplusExact(p: Pass)
    requires p.Valid() && p.f.Nonnegative()
    ensures Partial(p, p.entry) == Times(p.share, InclusiveTime(p.f, p.entry)) + PassSurplus(p)
  {
    hide SumOf, Reach, Component, Partial, InclusiveTime, Shares, PassedDown, ShortestRanks, Repeated, Times,
      Repetition;
    MembersRanked(p);
    assert UphillClosed(p, p.Members());
    PartialsBalance(p, p.Members());
    InclusiveIsSumOfShares(p.f, p.entry);
    var others, passed := Partials(p, p.Members())[p.entry := 0.0], PassedDown(p, p.Members());
    SumUpdate(Partials(p, p.Members()), p.entry, 0.0);
    PassedKeys(p);
    var extra := map v | v in p.Members() :: if Repeated(p, v) then Repetition(p, v) else 0.0;
    forall v | v in p.Members()
      ensures passed[v] == others[v] + extra[v]
    {
      PassedAt(p, v);
    }
    SumPlus(others, extra, passed);
    SumExtend(Repetitions(p), extra);
  }

  lemma {:induction false} PassedKeys(p: Pass)
    requires p.Valid()
    ensures PassedDown(p, p.Members()).Keys == p.Members()
  {
  }

  lemma {:induction false} PassedAt(p: Pass, v: FunctionId)
    requires p.Valid() && p.f.Nonnegative() && v in p.Members()
    ensures PassedDown(p, p.Members())[v] ==
      (if v == p.entry then 0.0 else Partial(p, v)) + if Repeated(p, v) then Repetition(p, v) else 0.0
  {
    hide SumOf, Reach, Component, Partial, Pass.RatioSum, UphillInflow, UphillCallers, ShortestRanks, Times;
    NonnegativePass(p);
    UphillInflowOf(p, v);
    var inflow := UphillInflow(p, p.Members(), v);
    TimesPlus(Partial(p, v), 0.0, 0.0);
    TimesPlus(Partial(p, v), inflow - 1.0, 1.0);
    TimesOne(Partial(p, v));
    if v != p.entry {
      RatioSumNonnegative(p, v);
    }
  }

  /** The partial time of the entry is never less than its callers' share of the cycle's time, and
      more than that exactly if some member that carries time is gone along repeatedly. */
  lemma {:induction false} QuotientExactIff(p: Pass)
    requires p.Valid() && p.f.Nonnegative() && p.share > 0.0
    ensures PassSurplus(p) >= 0.0 && Partial(p, p.entry) >= Times(p.share, InclusiveTime(p.f, p.entry))
    ensures Partial(p, p.entry) == Times(p.share, InclusiveTime(p.f, p.entry)) <==>
      forall v :: v in p.Members() && Repeated(p, v) ==> !Carries(p, v)
  {
    hide SumOf, Reach, Component, Partial, InclusiveTime, ShortestRanks, Carries, Repeated, Times, Repetition;
    SurplusExact(p);
    forall v | v in p.Members() && Repeated(p, v)
      ensures v in Repetitions(p) && Repetitions(p)[v] >= 0.0 && (Repetitions(p)[v] == 0.0 <==> !Carries(p, v))
    {
      RepetitionPositive(p, v);
    }
    SumNonnegative(Repetitions(p));
    SumZeroIff(Repetitions(p));
  }

  lemma {:induction false} RepetitionPositive(p: Pass, v: FunctionId)
    requires p.Valid() && p.f.Nonnegative() && p.share > 0.0 && v in p.Members() && Repeated(p, v)
    ensures Repetition(p, v) >= 0.0 && (Repetition(p, v) == 0.0 <==> !Carries(p, v))
  {
    hide SumOf, Reach, Component, Partial, Carries, Pass.RatioSum, UphillCallers, ShortestRanks;
    CarriesIff(p, v);
    TimesPositive(Partial(p, v), |UphillCallers(p, v)| as real - 1.0);
  }

  lemma {:induction false} RatioSumNonnegative(p: Pass, v: FunctionId)
    requires p.Valid() && p.f.Nonnegative() && v in p.Members() && v != p.entry
    ensures p.RatioSum(v) >= 0.0
  {
    hide SumOf, Reach, Component;
    NonnegativePass(p);
    var k := CalledFromBelow(p, v);
    RatioSumBounds(p, k, v);
  }

  // ----- the quotient -----

  /** The quotient of the second assertion has a divisor of zero. */
  ghost predicate DividesByZero(p: Pass)
    requires p.Valid()
  {
    InclusiveTime(p.f, p.entry) != 0.0 && Times(p.share, InclusiveTime(p.f, p.entry)) == 0.0
  }

  /** The assertions about a pass hold exactly if the cycle takes no time, or the entry has a share and
      the repetitions do not add more than a thousandth to it. */
  lemma {:induction false} AssertedIff(p: Pass)
    requires p.Valid() && p.f.Nonnegative() && p.share >= 0.0
    ensures DividesByZero(p) <==> Charged(p.f, p.entry) && p.share == 0.0
    ensures Asserted(p) <==> (Charged(p.f, p.entry) ==>
      p.share > 0.0 && PassSurplus(p) <= 0.001 * Times(p.share, InclusiveTime(p.f, p.entry)))
  {
    hide SumOf, Reach, Component, Partial, InclusiveTime, ShortestRanks, Charged, PassSurplus;
    MembersRanked(p);
    ChargedIff(p.f, p.entry);
    forall m | m in p.Members()
      ensures Partial(p, m) <= Partial(p, p.entry)
    {
      EntryIsMaximal(p, m);
    }
    TimesPositive(p.share, InclusiveTime(p.f, p.entry));
    if Charged(p.f, p.entry) && p.share > 0.0 {
      QuotientExactIff(p);
      SurplusExact(p);
      AcceptedIff(Partial(p, p.entry), Times(p.share, InclusiveTime(p.f, p.entry)));
    }
  }

  lemma {:induction false} AcceptedIff(partial: real, expected: real)
    requires 0.0 < expected <= partial
    ensures Accepted(partial, expected) <==> partial <= 1.001 * expected
  {
    QuotientAtMost(partial, expected, 1.001);
    QuotientInverse(partial, expected);
  }

  lemma {:induction false} QuotientAtMost(a: real, b: real, bound: real)
    requires b > 0.0
    ensures a / b <= bound <==> a <= bound * b
  {
    var q := a / b;
    assert a == q * b;
    if q <= bound {
      ProductNonnegative(bound - q, b);
    } else {
      ProductIsPositive(q - bound, b);
    }
  }

  lemma {:induction false} QuotientInverse(a: real, b: real)
    requires 0.0 < b <= a
    ensures a / b >= 1.0
  {
  }

  // ----- what the assertions guarantee -----

  /** A cycle without time leaves nothing in its members. */
  lemma {:induction false} NothingPartial(p: Pass, m: FunctionId)
    requires p.Valid() && p.f.Nonnegative() && m in p.Members()
    requires forall v :: v in p.Members() ==> Share(p.f, v) == 0.0
    ensures Partial(p, m) == 0.0
    decreases p.Above(m)
  {
    hide SumOf, Reach, Component, Partial, Pass.RatioSum, Pass.UphillRatio, ShortestRanks, Share;
    MembersRanked(p);
    PartialSplit(p, p.Members(), m);
    TimesPlus(p.share, 0.0, 0.0);
    var row := Row(InnerPassing(p), m, p.Members());
    forall v | v in p.Members()
      ensures row[v] == 0.0
    {
      if v in p.Uphill(m) {
        AboveShrinks(p, m, v);
        NothingPartial(p, v);
      }
    }
    SumZero(row);
  }

  /** A pass that meets the assertions leaves no more in a member than its callers' part of the cycle's
      time, with a tolerance of a thousandth. */
  lemma {:induction false} AssertedPassBound(p: Pass, m: FunctionId)
    requires p.Valid() && p.f.Nonnegative() && p.share >= 0.0 && Asserted(p) && m in p.Members()
    ensures 0.0 <= Partial(p, m) <= 1.001 * Times(p.share, InclusiveTime(p.f, p.entry))
  {
    hide SumOf, Reach, Component, Partial, InclusiveTime, ShortestRanks, Charged, Share, PassSurplus;
    MembersRanked(p);
    EntryIsMaximal(p, m);
    AssertedIff(p);
    if Charged(p.f, p.entry) {
      SurplusExact(p);
    } else {
      ChargedIff(p.f, p.entry);
      InclusiveIsSumOfShares(p.f, p.entry);
      forall v | v in p.Members()
        ensures Shares(p.f, p.Members())[v] >= 0.0
      {
        ShareNonnegative(p.f, v);
      }
      SumZeroIff(Shares(p.f, p.Members()));
      NothingPartial(p, m);
    }
  }

  /** If the assertions hold, no member of a cycle gets more than the part of the cycle's time that is
      passed on at all, with a tolerance of a thousandth. */
  lemma {:induction false} AssertedBound(f: Flow, u: FunctionId)
    requires f.Valid() && f.Nonnegative() && PassesAsserted(f) && u in f.calls
    ensures 0.0 <= FunctionOut(f, u)
    ensures Recursive(f.calls, u) ==>
      FunctionOut(f, u) <= 1.001 * Times(InclusiveTime(f, u), ComponentInflow(f, f.calls.Keys, Component(f.calls, u)))
    ensures Balanced(f) ==> FunctionOut(f, u) <= 1.001 * InclusiveTime(f, u)
  {
    hide Reach, SumOf, InclusiveTime, PassOf, Inflow, ComponentInflow, Times, Partial, Component, Entered, Entries,
      Asserted;
    InclusiveNonnegative(f, u);
    var c := Component(f.calls, u);
    assert IsComponent(f.calls, c);
    TimesPlus(InclusiveTime(f, u), 0.0, 0.0);
    TimesOne(InclusiveTime(f, u));
    if Recursive(f.calls, u) {
      var es := Entries(f.calls, c);
      Passes.EntriesInside(f.calls, c);
      var inflows := map e | e in es :: Inflow(f, f.calls.Keys, e);
      var parts := map e | e in es :: Times(InclusiveTime(f, u), Inflow(f, f.calls.Keys, e));
      var bounds := map e | e in es :: Times(1.001, parts[e]);
      forall e | e in es
        ensures 0.0 <= MemberTimes(f, es, u)[e] <= bounds[e]
      {
        AssertedPart(f, e, u);
        TimesIs(1.001, parts[e]);
      }
      SumNonnegative(MemberTimes(f, es, u));
      SumLeq(MemberTimes(f, es, u), bounds);
      SumScale(1.001, parts, bounds);
      SumScale(InclusiveTime(f, u), inflows, parts);
      EntriesInflow(f, u);
      TimesIs(1.001, SumOf(parts));
    }
  }

  lemma {:induction false} TimesIs(a: real, b: real)
    ensures Times(a, b) == a * b
  {
  }

  lemma {:induction false} AssertedPart(f: Flow, e: FunctionId, u: FunctionId)
    requires f.Valid() && f.Nonnegative() && PassesAsserted(f) && u in f.calls && Recursive(f.calls, u)
    requires e in Entries(f.calls, Component(f.calls, u))
    ensures e in Component(f.calls, u) && PassOf(f, e).Valid() && u in PassOf(f, e).Members()
    ensures 0.0 <= Partial(PassOf(f, e), u) <= 1.001 * Times(InclusiveTime(f, u), Inflow(f, f.calls.Keys, e))
  {
    hide Reach, SumOf, InclusiveTime, RanksOf, Inflow, Partial, Component, Asserted, Times;
    EntryOf(f, e, u);
    ComponentShared(f.calls, u, e);
    InOwnComponent(f.calls, u);
    InclusiveShared(f, u, e);
    InflowNonnegative(f, e);
    assert Recursive(f.calls, e) && Asserted(PassOf(f, e)) by {
      InOwnComponent(f.calls, e);
    }
    AssertedPassBound(PassOf(f, e), u);
    TimesCommutes(InclusiveTime(f, u), Inflow(f, f.calls.Keys, e));
  }

  // ----- counts -----

  /** In terms of counts: the division by zero happens exactly for an entry whose callers from outside
      all have a count of zero, while others call the cycle, and the cycle is charged with time. */
  lemma {:induction false} DividesByZeroIff(k: Counts, time: map<FunctionId, real>, e: FunctionId)
    requires k.Valid() && k.Nonnegative()
    requires Normalised(k, time).Valid() && Normalised(k, time).Nonnegative()
    requires e in k.calls && e in Entries(k.calls, Component(k.calls, e))
    ensures PassOf(Normalised(k, time), e).Valid()
    ensures DividesByZero(PassOf(Normalised(k, time), e)) <==>
      Charged(Normalised(k, time), e) && CrossInto(k, e) == 0.0 && CrossTotal(k, Component(k.calls, e)) > 0.0
  {
    hide SumOf, Reach, Component, Entries, Charged, CrossInto, CrossTotal, InclusiveTime, RanksOf, Inflow,
      DividesByZero;
    var f := Normalised(k, time);
    PassValid(f, e);
    InflowNonnegative(f, e);
    AssertedIff(PassOf(f, e));
    EntryInflow(k, time, e);
  }

  lemma {:induction false} EntryInflow(k: Counts, time: map<FunctionId, real>, e: FunctionId)
    requires k.Valid() && k.Nonnegative() && Normalised(k, time).Valid()
    requires e in k.calls && e in Entries(k.calls, Component(k.calls, e))
    ensures Inflow(Normalised(k, time), k.calls.Keys, e) == 0.0 <==>
      CrossInto(k, e) == 0.0 && CrossTotal(k, Component(k.calls, e)) > 0.0
  {
    hide SumOf, Reach, Component, CrossInto, CrossTotal, Inflow, CrossCallsInto;
    var c := Component(k.calls, e);
    InOwnComponent(k.calls, e);
    assert IsComponent(k.calls, c);
    InflowAt(k, time, c, e);
    CrossTotalNonnegative(k, c);
    if CrossTotal(k, c) > 0.0 {
      InverseTimesZero(CrossTotal(k, c), CrossInto(k, e));
    } else {
      var u := EntryCalled(Normalised(k, time), e);
      EntryCounted(k.calls, u, e);
    }
  }

  lemma {:induction false} InverseTimesZero(a: real, b: real)
    requires a > 0.0
    ensures Times(1.0 / a, b) == 0.0 <==> b == 0.0
  {
    assert Times(1.0 / a, b) == b / a;
  }

  lemma {:induction false} EntryCounted(g: Graph, u: FunctionId, v: FunctionId)
    requires Crosses(g, u, v)
    ensures CrossCallsInto(g, v) >= 1.0
  {
    hide Reach, SumOf, Crosses;
    CrossesFrom(g, u, v);
    var row := map w | w in g :: CrossCall(g, w, v);
    SumNonnegative(row);
    assert row[u] == 1.0;
  }

  // Two stacks: five samples of a cycle of two functions that is entered at the first one, and none of
  // a late call of the second one.
  const OUTER := FunctionId("main")
  const LEFT := FunctionId("A")
  const RIGHT := FunctionId("B")
  const LATE := FunctionId("D")
  const LATE_CALLS: Graph := map[OUTER := {LEFT}, LEFT := {RIGHT}, RIGHT := {LEFT}, LATE := {RIGHT}]
  const LATE_COUNTS := Counts(LATE_CALLS,
    map[(OUTER, LEFT) := 5.0, (LEFT, RIGHT) := 5.0, (RIGHT, LEFT) := 5.0, (LATE, RIGHT) := 0.0])
  const LATE_TIMES: map<FunctionId, real> := map[OUTER := 0.0, LEFT := 1.0, RIGHT := 0.0, LATE := 0.0]

  lemma {:induction false} LateComponents()
    ensures Component(LATE_CALLS, LEFT) == Component(LATE_CALLS, RIGHT) == {LEFT, RIGHT}
    ensures LEFT !in Component(LATE_CALLS, OUTER) && RIGHT !in Component(LATE_CALLS, LATE)
  {
    hide Reach;
    var g, s := LATE_CALLS, {LEFT, RIGHT};
    ReachCall(g, LEFT, RIGHT);
    ReachCall(g, RIGHT, LEFT);
    ReachSelf(g, RIGHT);
    assert ClosedUnder(g, s);
    forall u, v | u in s && v in g && Reach(g, u, v)
      ensures v in s
    {
      ReachStaysIn(g, s, u, v);
    }
    assert Component(g, RIGHT) == s;
    ComponentShared(g, RIGHT, LEFT);
  }

  lemma {:induction false} LateCounts()
    ensures CrossInto(LATE_COUNTS, RIGHT) == 0.0 && CrossTotal(LATE_COUNTS, {LEFT, RIGHT}) > 0.0
  {
    hide Reach, Component;
    LateComponents();
    var k, c := LATE_COUNTS, {LEFT, RIGHT};
    SumZero(map u | u in k.calls :: CrossCount(k, u, RIGHT));
    CrossCountBound(k, c, OUTER, LEFT);
  }

  lemma {:induction false} LateValid()
    ensures LATE_COUNTS.Valid() && LATE_COUNTS.Nonnegative()
    ensures Normalised(LATE_COUNTS, LATE_TIMES).Valid() && Normalised(LATE_COUNTS, LATE_TIMES).Nonnegative()
    ensures RIGHT in LATE_COUNTS.calls
  {
    hide Normalised;
    NormalisedValid(LATE_COUNTS, LATE_TIMES);
    RatiosNonnegative(LATE_COUNTS, LATE_TIMES);
  }

  lemma {:induction false} LateEntry()
    requires Normalised(LATE_COUNTS, LATE_TIMES).Valid()
    ensures RIGHT in Entries(LATE_CALLS, {LEFT, RIGHT}) && Charged(Normalised(LATE_COUNTS, LATE_TIMES), RIGHT)
  {
    hide Reach, Component, CallRatioOf;
    LateComponents();
    assert LATE in LATE_CALLS && RIGHT in LATE_CALLS[LATE];
    assert Contributes(Normalised(LATE_COUNTS, LATE_TIMES), LEFT);
  }

  /** A cycle whose entry takes nothing over: the second assertion divides by zero. */
  lemma {:induction false} DivisionFails()
    ensures LATE_COUNTS.Valid() && LATE_COUNTS.Nonnegative()
    ensures Normalised(LATE_COUNTS, LATE_TIMES).Valid() && Normalised(LATE_COUNTS, LATE_TIMES).Nonnegative()
    ensures PassOf(Normalised(LATE_COUNTS, LATE_TIMES), RIGHT).Valid()
    ensures DividesByZero(PassOf(Normalised(LATE_COUNTS, LATE_TIMES), RIGHT))
    ensures !PassesAsserted(Normalised(LATE_COUNTS, LATE_TIMES))
  {
    hide Reach, Component, CallRatioOf, CrossInto, CrossTotal, PassOf, DividesByZero, Asserted, InclusiveTime, Entries,
      Charged, Counts.Valid, Counts.Nonnegative, Flow.Valid, Flow.Nonnegative;
    LateValid();
    LateComponents();
    LateCounts();
    LateEntry();
    DividesByZeroIff(LATE_COUNTS, LATE_TIMES, RIGHT);
    DividedPassFails(PassOf(Normalised(LATE_COUNTS, LATE_TIMES), RIGHT));
    assert Recursive(LATE_CALLS, RIGHT);
  }

  lemma {:induction false} DividedPassFails(p: Pass)
    requires p.Valid() && DividesByZero(p)
    ensures !Asserted(p)
  {
    hide Reach, Component, Partial, InclusiveTime;
  }

  // Seven stacks: a cycle of four functions, each of them sampled once.  Two of them call the last one,
  // and there are no samples of these calls.
  const FRONT := FunctionId("C")
  const JOINT := FunctionId("E")
  const JOINT_CALLS: Graph :=
    map[OUTER := {FRONT, JOINT}, FRONT := {LEFT, RIGHT}, LEFT := {JOINT}, RIGHT := {JOINT}, JOINT := {FRONT}]
  const JOINT_COUNTS := Counts(JOINT_CALLS,
    map[(OUTER, FRONT) := 1.0, (OUTER, JOINT) := 1.0, (FRONT, LEFT) := 1.0, (FRONT, RIGHT) := 1.0,
      (LEFT, JOINT) := 0.0, (RIGHT, JOINT) := 0.0, (JOINT, FRONT) := 0.0])
  const JOINT_TIMES: map<FunctionId, real> :=
    map[OUTER := 0.0, FRONT := 0.25, LEFT := 0.25, RIGHT := 0.25, JOINT := 0.25]
  const JOINT_MEMBERS := {FRONT, LEFT, RIGHT, JOINT}

  lemma {:induction false} JointNames()
    ensures OUTER !in {FRONT, LEFT, RIGHT, JOINT} && FRONT !in {LEFT, RIGHT, JOINT}
    ensures LEFT !in {RIGHT, JOINT} && RIGHT != JOINT
  {
  }

  lemma {:induction false} JointCalls()
    ensures JOINT_CALLS.Keys == {OUTER} + JOINT_MEMBERS
    ensures JOINT_CALLS[OUTER] == {FRONT, JOINT} && JOINT_CALLS[FRONT] == {LEFT, RIGHT}
    ensures JOINT_CALLS[LEFT] == JOINT_CALLS[RIGHT] == {JOINT} && JOINT_CALLS[JOINT] == {FRONT}
  {
    hide OUTER, FRONT, LEFT, RIGHT, JOINT;
    JointNames();
  }

  lemma {:induction false} JointComponent()
    ensures Component(JOINT_CALLS, FRONT) == JOINT_MEMBERS
    ensures OUTER !in JOINT_MEMBERS
  {
    hide Reach;
    var g, s := JOINT_CALLS, JOINT_MEMBERS;
    ReachSelf(g, FRONT);
    ReachCall(g, FRONT, LEFT);
    ReachCall(g, FRONT, RIGHT);
    ReachCall(g, LEFT, JOINT);
    ReachCall(g, RIGHT, JOINT);
    ReachCall(g, JOINT, FRONT);
    ReachTransitive(g, FRONT, LEFT, JOINT);
    ReachTransitive(g, LEFT, JOINT, FRONT);
    ReachTransitive(g, RIGHT, JOINT, FRONT);
    assert ClosedUnder(g, s);
    forall v | v in g && Reach(g, FRONT, v)
      ensures v in s
    {
      ReachStaysIn(g, s, FRONT, v);
    }
  }

  lemma {:induction false} JointValid()
    ensures JOINT_COUNTS.Valid() && JOINT_COUNTS.Nonnegative()
    ensures Normalised(JOINT_COUNTS, JOINT_TIMES).Valid() && Normalised(JOINT_COUNTS, JOINT_TIMES).Nonnegative()
  {
    hide Normalised;
    NormalisedValid(JOINT_COUNTS, JOINT_TIMES);
    RatiosNonnegative(JOINT_COUNTS, JOINT_TIMES);
  }

  /** The calls without samples get a ratio of zero. */
  lemma {:induction false} JointRatios(u: FunctionId)
    requires u == LEFT || u == RIGHT
    ensures CallRatioOf(JOINT_COUNTS, u, JOINT) == 0.0
  {
    hide Reach, Component, SumOf, OUTER, FRONT, LEFT, RIGHT, JOINT, JOINT_CALLS;
    var k := JOINT_COUNTS;
    JointNames();
    JointCalls();
    JointComponent();
    ComponentShared(k.calls, FRONT, u);
    var row := map m | m in k.calls :: CallCount(k, m, JOINT);
    SumNonnegative(row);
    assert row[OUTER] == 1.0;
  }

  /** Nothing leaves the cycle. */
  lemma {:induction false} JointShare(f: Flow, m: FunctionId)
    requires f == Normalised(JOINT_COUNTS, JOINT_TIMES) && f.Valid() && m in JOINT_MEMBERS
    ensures m in f.calls && Share(f, m) == 0.25
  {
    hide Reach, Component, CallRatioOf, InclusiveTime, OUTER, FRONT, LEFT, RIGHT, JOINT, JOINT_CALLS, SumOf;
    JointNames();
    JointCalls();
    JointComponent();
    ComponentShared(f.calls, FRONT, m);
    assert f.calls[m] <= JOINT_MEMBERS && f.time[m] == 0.25;
    SumZero(Outflow(f, m));
  }

  lemma {:induction false} JointTotal(f: Flow)
    requires f == Normalised(JOINT_COUNTS, JOINT_TIMES) && f.Valid() && FRONT in f.calls
    ensures InclusiveTime(f, FRONT) == 1.0
  {
    hide Reach, Component, CallRatioOf, InclusiveTime, OUTER, FRONT, LEFT, RIGHT, JOINT, JOINT_CALLS, SumOf, Share;
    JointNames();
    JointComponent();
    InclusiveIsSumOfShares(f, FRONT);
    var shares := Shares(f, JOINT_MEMBERS);
    forall m | m in JOINT_MEMBERS
      ensures shares[m] == 0.25
    {
      JointShare(f, m);
    }
    SumRemove(shares, FRONT);
    SumRemove(shares - {FRONT}, LEFT);
    SumRemove(shares - {FRONT} - {LEFT}, RIGHT);
    SumSingle(shares - {FRONT} - {LEFT} - {RIGHT}, JOINT);
  }

  lemma {:induction false} WalkOne(h: Graph, u: FunctionId, v: FunctionId)
    ensures Walk(h, 1, u, v) <==> u in h && v in h && v in h[u]
  {
    if u in h && v in h && v in h[u] {
      assert Walk(h, 0, u, u);
    }
  }

  lemma {:induction false} JointRanks(p: Pass)
    requires p.Valid() && p.f.calls == JOINT_CALLS && p.entry == FRONT
    ensures p.ranks.Keys == JOINT_MEMBERS && p.ranks[FRONT] == 0
    ensures p.ranks[LEFT] <= 1 && p.ranks[RIGHT] <= 1 && p.ranks[JOINT] > 1
  {
    hide Reach, Component, OUTER, FRONT, LEFT, RIGHT, JOINT, JOINT_CALLS;
    JointNames();
    JointCalls();
    JointComponent();
    MembersRanked(p);
    var h := Inner(p.f.calls, p.Members());
    WalkOne(h, FRONT, LEFT);
    WalkOne(h, FRONT, RIGHT);
    WalkOne(h, FRONT, JOINT);
    assert Walk(h, p.ranks[JOINT], FRONT, JOINT);
  }

  /** Two calls lead uphill to the last function of the cycle, and one to the others. */
  lemma {:induction false} JointUphill(p: Pass)
    requires p.Valid() && p.f.calls == JOINT_CALLS && p.entry == FRONT
    ensures UphillCallers(p, JOINT) == {LEFT, RIGHT} && p.Uphill(JOINT) == {}
    ensures UphillCallers(p, LEFT) <= {FRONT} && UphillCallers(p, RIGHT) <= {FRONT}
  {
    hide Pass.Valid, OUTER, FRONT, LEFT, RIGHT, JOINT, JOINT_CALLS;
    JointNames();
    JointCalls();
    JointRanks(p);
  }

  lemma {:induction false} JointRepeated(p: Pass)
    requires p.Valid() && p.f == Normalised(JOINT_COUNTS, JOINT_TIMES) && p.entry == FRONT
    ensures p.RatioSum(JOINT) == 0.0 && JOINT != p.entry
    ensures |UphillCallers(p, JOINT)| == 2 && |UphillCallers(p, LEFT)| <= 1 && |UphillCallers(p, RIGHT)| <= 1
  {
    hide Reach, Component, CallRatioOf, SumOf, UphillCallers, Pass.Uphill, ShortestRanks, OUTER, FRONT, LEFT, RIGHT,
      JOINT, JOINT_CALLS;
    JointNames();
    JointUphill(p);
    forall m | m in p.ranks
      ensures p.UphillRatio(m, JOINT) == 0.0
    {
      UphillCallersAre(p, m, JOINT);
      if m == LEFT || m == RIGHT {
        JointRatios(m);
      }
    }
    SumZero(map m | m in p.ranks :: p.UphillRatio(m, JOINT));
    assert |{FRONT}| == 1 && |{LEFT, RIGHT}| == 2;
    SubsetSize(UphillCallers(p, LEFT), {FRONT});
    SubsetSize(UphillCallers(p, RIGHT), {FRONT});
  }

  lemma {:induction false} SubsetSize<T>(a: set<T>, b: set<T>)
    requires a <= b
    ensures |a| <= |b|
  {
    assert b == a + (b - a);
  }

  lemma {:induction false} JointPartial(p: Pass)
    requires p.Valid() && p.f == Normalised(JOINT_COUNTS, JOINT_TIMES) && p.entry == FRONT
    ensures JOINT in p.Members() && Partial(p, JOINT) == Times(p.share, 0.25)
  {
    hide Reach, Component, CallRatioOf, SumOf, Partial, Share, UphillCallers, Pass.Uphill, ShortestRanks, Times, OUTER,
      FRONT, LEFT, RIGHT, JOINT, JOINT_CALLS;
    JointComponent();
    JointUphill(p);
    JointShare(p.f, JOINT);
    PartialSplit(p, {}, JOINT);
    SumZero(Row(InnerPassing(p), JOINT, {}));
  }

  lemma {:induction false} JointSurplus(p: Pass)
    requires p.Valid() && p.f == Normalised(JOINT_COUNTS, JOINT_TIMES) && p.entry == FRONT
    ensures PassSurplus(p) == Times(p.share, 0.25)
  {
    hide Reach, Component, CallRatioOf, SumOf, Partial, UphillCallers, ShortestRanks, Times, Pass.RatioSum, OUTER,
      FRONT, LEFT, RIGHT, JOINT, JOINT_CALLS;
    JointComponent();
    JointRepeated(p);
    JointPartial(p);
    assert Repetitions(p).Keys == {JOINT};
    SumSingle(Repetitions(p), JOINT);
    TimesOne(Partial(p, JOINT));
  }

  lemma {:induction false} UphillCallersAre(p: Pass, m: FunctionId, v: FunctionId)
    ensures m in UphillCallers(p, v) <==> m in p.ranks && v in p.Uphill(m)
  {
  }

  /** Two calls without samples: the entry gets a quarter more than its callers' share. */
  lemma {:induction false} QuotientFails()
    ensures JOINT_COUNTS.Valid() && JOINT_COUNTS.Nonnegative()
    ensures Normalised(JOINT_COUNTS, JOINT_TIMES).Valid() && Normalised(JOINT_COUNTS, JOINT_TIMES).Nonnegative()
    ensures PassOf(Normalised(JOINT_COUNTS, JOINT_TIMES), FRONT).Valid()
    ensures var p := PassOf(Normalised(JOINT_COUNTS, JOINT_TIMES), FRONT);
      !DividesByZero(p) && Partial(p, FRONT) == 1.25 * Times(p.share, InclusiveTime(p.f, FRONT))
    ensures !PassesAsserted(Normalised(JOINT_COUNTS, JOINT_TIMES))
  {
    hide Reach, Component, CallRatioOf, CrossInto, Asserted, Partial, InclusiveTime, Entries, Charged, PassSurplus,
      Counts.Valid, Counts.Nonnegative, Flow.Valid, Flow.Nonnegative, Inflow, RanksOf;
    var f := Normalised(JOINT_COUNTS, JOINT_TIMES);
    JointValid();
    JointComponent();
    JointTotal(f);
    PassValid(f, FRONT);
    JointEntry(f);
    var p := PassOf(f, FRONT);
    JointSurplus(p);
    SurplusExact(p);
    AssertedIff(p);
    ChargedIff(f, FRONT);
    assert Recursive(JOINT_CALLS, FRONT);
  }

  lemma {:induction false} JointEntry(f: Flow)
    requires f == Normalised(JOINT_COUNTS, JOINT_TIMES) && f.Valid() && f.Nonnegative()
    ensures FRONT in Entries(JOINT_CALLS, Component(JOINT_CALLS, FRONT)) && Inflow(f, f.calls.Keys, FRONT) > 0.0
  {
    hide Reach, Component, CallRatioOf, CrossTotal, CrossInto, Inflow, SumOf, OUTER, FRONT, LEFT, RIGHT, JOINT,
      JOINT_CALLS;
    JointNames();
    JointCalls();
    JointComponent();
    JointValid();
    assert OUTER in f.calls && FRONT in f.calls[OUTER];
    InflowNonnegative(f, FRONT);
    EntryInflow(JOINT_COUNTS, JOINT_TIMES, FRONT);
    JointEntered();
  }

  lemma {:induction false} JointEntered()
    ensures CrossInto(JOINT_COUNTS, FRONT) > 0.0
  {
    hide Reach, Component, SumOf, OUTER, FRONT, LEFT, RIGHT, JOINT, JOINT_CALLS;
    JointNames();
    JointCalls();
    OuterCrosses();
    var k := JOINT_COUNTS;
    var row := map u | u in k.calls :: CrossCount(k, u, FRONT);
    SumNonnegative(row);
    assert row[OUTER] == 1.0;
  }

  lemma {:induction false} OuterCrosses()
    ensures Crosses(JOINT_CALLS, OUTER, FRONT)
  {
    hide Reach, OUTER, FRONT, LEFT, RIGHT, JOINT, JOINT_CALLS;
    JointNames();
    JointCalls();
    JointComponent();
    if FRONT in Component(JOINT_CALLS, OUTER) {
      hide Component;
      ComponentShared(JOINT_CALLS, OUTER, FRONT);
      InOwnComponent(JOINT_CALLS, OUTER);
    }
  }
}
