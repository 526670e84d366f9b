/** The chances with which the sampler's drift mode evicts its slots (data/reservoir_sampler.py, lines 138-152). */
module EvictionChances {
  import opened Common
  import opened ReservoirSampler

  lemma {:induction false} MaxOfIsMax(ts: seq<real>)
    requires ts != []
    ensures MaxOf(ts) in ts && forall i :: 0 <= i < |ts| ==> ts[i] <= MaxOf(ts)
  {
    if |ts| > 1 {
      var n := |ts| - 1;
      MaxOfIsMax(ts[..n]);
      assert forall i :: 0 <= i < n ==> ts[..n][i] == ts[i];
    }
  }

  ghost predicate IsProduct(x: real, y: real, p: real) { x * y == p }

  lemma WeightTimesScale(t: real, s: real, w: real)
    requires s > 0.0 && w == 1.0 + t / s
    ensures IsProduct(w, s, s + t)
  {
    assert t / s * s == t;
  }

  lemma QuotientTimes(p: real, total: real, x: real)
    requires total > 0.0 && x == p / total
    ensures IsProduct(x, total, p)
  {
  }

  /** The chance of a slot times the total weight is its weight, and that times the scale is scale plus timestamp. */
  lemma {:induction false} ChanceProducts(ts: seq<real>, i: nat, s: real)
    requires i < |ts| && TotalWeight(ts, |ts|) > 0.0 && s == Scale(ts)
    ensures IsProduct(Chance(ts, i), TotalWeight(ts, |ts|), Weight(ts, i)) && IsProduct(Weight(ts, i), s, s + ts[i])
  {
    WeightTimesScale(ts[i], s, Weight(ts, i));
    QuotientTimes(Weight(ts, i), TotalWeight(ts, |ts|), Chance(ts, i));
  }

  lemma CrossRatio(x: real, y: real, total: real, p: real, q: real, s: real, a: real, b: real)
    requires IsProduct(x, total, p) && IsProduct(y, total, q) && IsProduct(p, s, a) && IsProduct(q, s, b)
    ensures x * b == y * a
  {
    assert x * ((y * total) * s) == y * ((x * total) * s);
  }

  lemma {:induction false} ScaleIs(ts: seq<real>, m: real, s: real)
    requires m in ts && (forall k :: 0 <= k < |ts| ==> ts[k] <= m) && s == if m > 0.0 then m else 1.0
    ensures ts != [] && Scale(ts) == s
  {
    MaxOfIsMax(ts);
  }

  /** The chances of two slots are as the largest timestamp plus their own ones, or one plus those if none is
      positive. */
  lemma {:induction false} ChanceRatio(ts: seq<real>, i: nat, j: nat, m: real, s: real)
    requires i < |ts| && j < |ts| && TotalWeight(ts, |ts|) > 0.0
    requires m in ts && (forall k :: 0 <= k < |ts| ==> ts[k] <= m) && s == if m > 0.0 then m else 1.0
    ensures Chance(ts, i) * (s + ts[j]) == Chance(ts, j) * (s + ts[i])
  {
    ScaleIs(ts, m, s);
    ChanceProducts(ts, i, s);
    ChanceProducts(ts, j, s);
    CrossRatio(Chance(ts, i), Chance(ts, j), TotalWeight(ts, |ts|), Weight(ts, i), Weight(ts, j), s, s + ts[i],
               s + ts[j]);
  }

  lemma AddQuotients(a: real, b: real, d: real)
    requires d > 0.0
    ensures a / d + b / d == (a + b) / d
  {
  }

  lemma {:induction false} ChancesSum(ts: seq<real>, cs: seq<real>, n: nat, total: real)
    requires total == TotalWeight(ts, |ts|) > 0.0 && n <= |ts| == |cs|
    requires forall i :: 0 <= i < |ts| ==> cs[i] == Chance(ts, i)
    ensures Sum(cs, 0, n) == TotalWeight(ts, n) / total
  {
    if n > 0 {
      ChancesSum(ts, cs, n - 1, total);
      AddQuotients(TotalWeight(ts, n - 1), Weight(ts, n - 1), total);
    }
  }

  lemma OverItself(d: real)
    requires d > 0.0
    ensures d / d == 1.0
  {
  }

  /** All chances together are one. */
  lemma {:induction false} ChancesAddUp(ts: seq<real>, cs: seq<real>)
    requires TotalWeight(ts, |ts|) > 0.0 && |cs| == |ts|
    requires forall i :: 0 <= i < |ts| ==> cs[i] == Chance(ts, i)
    ensures Sum(cs, 0, |cs|) == 1.0
  {
    ChancesSum(ts, cs, |ts|, TotalWeight(ts, |ts|));
    OverItself(TotalWeight(ts, |ts|));
  }
}
