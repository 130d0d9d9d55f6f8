/** Events expressed as ratios of a total. */
module Scaling {
  import opened Graphs
  import opened Sums
  import opened Ratios
  import opened Ledger

  ghost function ScaledAt(events: Events, out: Event, inn: Event, total: real): Events {
    if inn in events then events[out := Ratio(events[inn], total)] else events
  }

  /** Every key in `done` that carries `inn` has got its ratio under `out`. */
  ghost function Scaled<K>(m: map<K, Events>, done: set<K>, out: Event, inn: Event, total: real): map<K, Events> {
    map k | k in m :: if k in done then ScaledAt(m[k], out, inn, total) else m[k]
  }

  lemma {:induction false} ScaledNone<K>(m: map<K, Events>, out: Event, inn: Event, total: real)
    ensures Scaled(m, {}, out, inn, total) == m
  {
  }

  lemma {:induction false} ScaledMore<K>(m: map<K, Events>, done: set<K>, k: K, out: Event, inn: Event, total: real)
    requires k in m && k !in done
    ensures Scaled(m, done + {k}, out, inn, total) ==
      Scaled(m, done, out, inn, total)[k := ScaledAt(m[k], out, inn, total)]
    ensures Scaled(m, done, out, inn, total)[k] == m[k]
    ensures inn !in m[k] ==> Scaled(m, done + {k}, out, inn, total) == Scaled(m, done, out, inn, total)
  {
  }

  /** Only the event `out` is set, and only next to `inn`. */
  lemma {:induction false} ScaledPick<K>(m: map<K, Events>, done: set<K>, k: K, out: Event, inn: Event, total: real)
    requires k in m
    ensures k in Scaled(m, done, out, inn, total)
    ensures forall event :: event != out ==> (event in Scaled(m, done, out, inn, total)[k] <==> event in m[k])
    ensures forall event :: event != out && event in m[k] ==> Scaled(m, done, out, inn, total)[k][event] == m[k][event]
    ensures k in done && inn in m[k] ==>
      out in Scaled(m, done, out, inn, total)[k] && Scaled(m, done, out, inn, total)[k][out] == Ratio(m[k][inn], total)
  {
  }

  lemma {:induction false} ScaledKeys<K>(m: map<K, Events>, done: set<K>, out: Event, inn: Event, total: real)
    ensures Scaled(m, done, out, inn, total).Keys == m.Keys
  {
  }

  /** The ratios of all parts of a positive total add up to one; if the total is zero, every part
      counts as a whole. */
  lemma {:induction false} RatiosTotal(parts: map<FunctionId, real>, ratios: map<FunctionId, real>, total: real)
    requires ratios.Keys == parts.Keys && total == SumOf(parts)
    requires forall u :: u in parts ==> parts[u] >= 0.0 && ratios[u] == Ratio(parts[u], total)
    ensures forall u :: u in ratios ==> 0.0 <= ratios[u] <= 1.0
    ensures total > 0.0 ==> SumOf(ratios) == 1.0
    ensures total == 0.0 ==> SumOf(ratios) == |ratios| as real
  {
    hide SumOf, Times, Ratio;
    SumNonnegative(parts);
    forall u | u in parts
      ensures 0.0 <= ratios[u] <= 1.0
      ensures total > 0.0 ==> ratios[u] == Times(1.0 / total, parts[u])
      ensures total == 0.0 ==> ratios[u] == 1.0
    {
      RatioBounds(parts[u], total);
      if total > 0.0 {
        RatioExact(parts[u], total);
      }
    }
    if total > 0.0 {
      SumScale(1.0 / total, parts, ratios);
      TimesInverse(total);
    } else {
      SumOnes(ratios);
    }
  }

  lemma {:induction false} RatioBounds(n: real, d: real)
    ensures 0.0 <= Ratio(n, d) <= 1.0
    ensures d == 0.0 ==> Ratio(n, d) == 1.0
  {
  }
}
