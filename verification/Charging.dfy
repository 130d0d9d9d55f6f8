/** Which functions get any time at all: a question about self times and ratios only. */
module Charging {
  import opened Graphs
  import opened Sums
  import opened Inclusive

  /** `m` takes time itself, or takes over some from another component. */
  ghost predicate Contributes(f: Flow, m: FunctionId)
    requires f.Valid() && m in f.calls
    decreases Below(f.calls, m), 0
  {
    || f.time[m] > 0.0
    || exists v ::
         && v in f.calls[m] - Component(f.calls, m)
         && (OutsideOwnComponent(f, m, v); f.ratio[(m, v)] > 0.0 && Charged(f, v))
  }

  /** Some function of `u`'s component contributes to its time. */
  ghost predicate Charged(f: Flow, u: FunctionId)
    requires f.Valid() && u in f.calls
    decreases Below(f.calls, u), 1
  {
    exists m :: m in Component(f.calls, u) && (BelowShared(f.calls, u, m); Contributes(f, m))
  }

  lemma {:induction false} ProductPositive(a: real, b: real)
    requires a >= 0.0 && b >= 0.0
    ensures a * b >= 0.0 && (a * b > 0.0 <==> a > 0.0 && b > 0.0)
  {
  }

  lemma {:induction false} OutflowCharged(f: Flow, m: FunctionId)
    requires f.Valid() && f.Nonnegative() && m in f.calls
    requires forall v :: v in f.calls[m] - Component(f.calls, m) && v in f.calls ==>
      InclusiveTime(f, v) >= 0.0 && (InclusiveTime(f, v) > 0.0 <==> Charged(f, v))
    ensures Share(f, m) >= 0.0 && (Share(f, m) > 0.0 <==> Contributes(f, m))
  {
    hide SumOf, Reach, InclusiveTime, Charged, Component;
    var outflow := Outflow(f, m);
    forall v | v in outflow
      ensures v in f.calls && (m, v) in f.ratio
      ensures outflow[v] >= 0.0 && (outflow[v] > 0.0 <==> f.ratio[(m, v)] > 0.0 && Charged(f, v))
    {
      OutsideOwnComponent(f, m, v);
      ProductPositive(f.ratio[(m, v)], InclusiveTime(f, v));
    }
    SumNonnegative(outflow);
    SumZeroIff(outflow);
  }

  /** A component has a positive time exactly if it is charged. */
  lemma {:induction false} ChargedIff(f: Flow, u: FunctionId)
    requires f.Valid() && f.Nonnegative() && u in f.calls
    ensures InclusiveTime(f, u) >= 0.0 && (InclusiveTime(f, u) > 0.0 <==> Charged(f, u))
    decreases Below(f.calls, u)
  {
    hide SumOf, Reach, InclusiveTime, Share, Contributes;
    var shares := Shares(f, Component(f.calls, u));
    InclusiveIsSumOfShares(f, u);
    forall m | m in shares
      ensures shares[m] >= 0.0 && (shares[m] > 0.0 <==> Contributes(f, m))
    {
      BelowShared(f.calls, u, m);
      forall v | v in f.calls[m] - Component(f.calls, m) && v in f.calls
        ensures InclusiveTime(f, v) >= 0.0 && (InclusiveTime(f, v) > 0.0 <==> Charged(f, v))
      {
        OutsideOwnComponent(f, m, v);
        ChargedIff(f, v);
      }
      OutflowCharged(f, m);
    }
    SumNonnegative(shares);
    SumZeroIff(shares);
  }

  lemma {:induction false} ContributesIff(f: Flow, m: FunctionId)
    requires f.Valid() && f.Nonnegative() && m in f.calls
    ensures Share(f, m) >= 0.0 && (Share(f, m) > 0.0 <==> Contributes(f, m))
  {
    hide Reach, InclusiveTime, Charged, Share, Contributes, Component;
    forall v | v in f.calls[m] - Component(f.calls, m) && v in f.calls
      ensures InclusiveTime(f, v) >= 0.0 && (InclusiveTime(f, v) > 0.0 <==> Charged(f, v))
    {
      ChargedIff(f, v);
    }
    OutflowCharged(f, m);
  }
}
