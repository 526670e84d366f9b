/** The numbers of the drift detector, each told without the functions that compute it
    (detection/benford_drift_detector.py, lines 277-399). */
module DriftNumbers {
  import opened BenfordDrift
  import opened Common
  import opened PairDrift

  /** Samples are absorbed if and only if both metrics are finite and not negative; then both counts go up by one. */
  lemma AbsorbedIff(p: PairState, s: Sample)
    ensures var next := FitPair(p, s);
            && (next != p <==>
                  && s.Some? && s.value.0.Finite? && s.value.1.Finite?
                  && s.value.0.value >= 0.0 && s.value.1.value >= 0.0)
            && next.streak == p.streak
            && (next != p ==>
                  var before, after := p.base.GetOr(NEW_BASE), next.base.GetOr(NEW_BASE);
                  && after.chiSquare.count == before.chiSquare.count + 1 && after.mad.count == before.mad.count + 1
                  && after.driftCountTotal == before.driftCountTotal)
  {
  }

  lemma FirstUpdate(x: real)
    ensures Welford(Running(0.0, 0.0, 0), x) == Running(x, 0.0, 1)
  {
    assert (x - 0.0) / 1.0 == x;
    assert (x - 0.0) * (x - x) == 0.0;
  }

  /** The first metric of a sample goes to the chi-square statistics, the second to the other ones. */
  lemma FirstSample(chi: real, mad: real)
    requires chi >= 0.0 && mad >= 0.0
    ensures FitPair(NEW_PAIR, Some((Finite(chi), Finite(mad)))).base ==
            Some(Base(Running(chi, 0.0, 1), Running(mad, 0.0, 1), 0))
  {
    FirstUpdate(chi);
    FirstUpdate(mad);
  }

  /** The squared distances from `c`. */
  ghost predicate AreSquares(xs: seq<real>, c: real, ds: seq<real>) {
    |ds| == |xs| && forall j :: 0 <= j < |xs| ==> ds[j] == (xs[j] - c) * (xs[j] - c)
  }

  lemma {:induction false} DeviationsAreSum(xs: seq<real>, c: real, ds: seq<real>, n: nat)
    requires AreSquares(xs, c, ds) && n <= |xs|
    ensures SquaredDeviations(xs, c, n) == Sum(ds, 0, n)
  {
    if n > 0 { DeviationsAreSum(xs, c, ds, n - 1); }
  }

  lemma MeanTimesCount(xs: seq<real>)
    requires xs != []
    ensures Mean(xs) * |xs| as real == Sum(xs, 0, |xs|)
  {
  }

  /** The statistics of samples: their average, and the sum of the squared distances from it. */
  lemma {:induction false} StatisticsTold(xs: seq<real>, r: Running, ds: seq<real>)
    requires xs != [] && r == TwoPass(xs) && AreSquares(xs, r.mean, ds)
    ensures r.count == |xs| && r.mean * |xs| as real == Sum(xs, 0, |xs|) && r.variance == Sum(ds, 0, |xs|)
  {
    MeanTimesCount(xs);
    DeviationsAreSum(xs, r.mean, ds, |xs|);
  }

  /** What a check of a run answers: too little data, stable for metrics that are not finite, drifted if one of them is
      an outlier among the samples before it, and else stable. A fit answers nothing. */
  lemma AnswerTold(cfg: Settings, ops: seq<Op>, ps: seq<PairState>, n: nat)
    requires IsRun(cfg, ops, ps) && n < |ops| && IsSqrt(cfg.sqrt) && cfg.zThreshold >= 0.0
    ensures ops[n].Fit? ==> AnswerAt(cfg, ops, ps, n) == None
    ensures ops[n].Check? ==>
              var xs, ys, chi, mad := ChiSquares(ops, n), Mads(ops, n), ops[n].chi, ops[n].mad;
              AnswerAt(cfg, ops, ps, n) ==
              if |xs| < cfg.minSamples || |xs| == 0 || |ys| == 0 then Some(InsufficientData)
              else if chi.NonFinite? || mad.NonFinite? then Some(Stable)
              else if IsOutlier(cfg.zThreshold, xs, chi.value) || IsOutlier(cfg.zThreshold, ys, mad.value)
              then Some(Drifted)
              else Some(Stable)
  {
    assert Moves(cfg, ps, ops, n);
    if ops[n].Check? { CheckDecides(cfg, ops, ps, n); }
  }

  /** The standard deviation of `n` samples whose squared distances from the mean add up to `v`. */
  ghost predicate IsDeviation(std: real, n: real, v: real) { std >= 0.0 && std * std * n == v }

  /** A value is an outlier if its distance to the mean exceeds z standard deviations, none of them being zero. */
  lemma {:induction false} OutlierTold(z: real, xs: seq<real>, x: real, r: Running, std: real)
    requires xs != [] && r == TwoPass(xs) && z >= 0.0
    requires IsDeviation(std, r.count as real, r.variance)
    ensures IsOutlier(z, xs, x) <==> std > 0.0 && (x - r.mean > z * std || r.mean - x > z * std)
  {
    SpreadIff(std, r.count as real, r.variance);
    if std > 0.0 {
      var d := x - r.mean;
      DistanceIff(d, z, std, r.count as real, r.variance);
      assert IsOutlier(z, xs, x) <==> Square(d) * r.count as real > Square(z) * r.variance;
      assert r.mean - x == -d;
    }
  }

  lemma SpreadIff(std: real, n: real, v: real)
    requires n > 0.0 && IsDeviation(std, n, v)
    ensures v > 0.0 <==> std > 0.0
  {
    if std > 0.0 {
      Positive(std, std, std * std);
      Positive(std * std, n, v);
    }
  }

  lemma DistanceIff(d: real, z: real, std: real, n: real, v: real)
    requires z >= 0.0 && std > 0.0 && n > 0.0 && IsDeviation(std, n, v)
    ensures Square(d) * n > Square(z) * v <==> d > z * std || -d > z * std
  {
    var a, b := if d < 0.0 then -d else d, z * std;
    NonNegative(z, std);
    SquaresCompare(a, b);
    assert Square(z) * v == b * b * n by { assert b * b == z * z * (std * std); }
    assert Square(d) == a * a;
    ScaledCompare(a * a, b * b, n);
  }

  lemma ScaledCompare(p: real, q: real, n: real)
    requires n > 0.0
    ensures p * n > q * n <==> p > q
  {
    if p > q { assert (p - q) * n > 0.0; } else { assert (q - p) * n >= 0.0; }
  }

  /** The streak is the number of drifted verdicts at the end. */
  lemma {:induction false} TrailingTold(vs: seq<bool>)
    ensures var t := Trailing(vs);
            && t <= |vs| && (forall i :: |vs| - t <= i < |vs| ==> vs[i])
            && (t < |vs| ==> !vs[|vs| - t - 1])
  {
    if vs != [] && vs[|vs| - 1] {
      var before := vs[..|vs| - 1];
      TrailingTold(before);
      forall i | |vs| - Trailing(vs) <= i < |vs|
        ensures vs[i]
      {
        assert i < |before| ==> before[i] == vs[i];
      }
    }
  }

  /** A drifted verdict that follows none or a stable one. */
  ghost predicate IsEntry(vs: seq<bool>, i: nat) {
    i < |vs| && vs[i] && (i > 0 ==> !vs[i - 1])
  }

  ghost function EntryPoints(vs: seq<bool>): set<nat> {
    set i: nat | i < |vs| && IsEntry(vs, i)
  }

  /** The total is the number of entries into drift. */
  lemma {:induction false} EntriesTold(vs: seq<bool>)
    ensures Entries(vs) == |EntryPoints(vs)|
  {
    if vs == [] {
      assert EntryPoints(vs) == {};
    } else {
      var n, before := |vs| - 1, vs[..|vs| - 1];
      EntriesTold(before);
      forall i: nat
        ensures i in EntryPoints(vs) <==> i in EntryPoints(before) || (i == n && IsEntry(vs, n))
      {
      }
      assert EntryPoints(vs) == EntryPoints(before) + if IsEntry(vs, n) then {n} else {};
    }
  }
}
