/** Benford drift baselines (detection/benford_drift_detector.py, lines 55-82, 255-399, 429-452). */
module BenfordDrift {
  import opened Common
  import opened Tenancy

  // ------------------------------------------- running statistics, one sample at a time

  datatype Running = Running(mean: real, variance: real, count: nat)

  function Welford(r: Running, x: real): Running {
    var mean := r.mean + (x - r.mean) / (r.count + 1) as real;
    Running(mean, r.variance + (x - r.mean) * (x - mean), r.count + 1)
  }

  ghost predicate Follows(rs: seq<Running>, xs: seq<real>, j: nat)
    requires j < |xs| < |rs|
  {
    rs[j + 1] == Welford(rs[j], xs[j])
  }

  ghost predicate AreStates(xs: seq<real>, rs: seq<Running>) {
    |rs| == |xs| + 1 && rs[0] == Running(0.0, 0.0, 0) && forall j :: 0 <= j < |xs| ==> Follows(rs, xs, j)
  }

  /** `r` is what the updates leave after the samples `xs`. */
  ghost predicate IsFitted(xs: seq<real>, r: Running) {
    exists rs :: AreStates(xs, rs) && rs[|xs|] == r
  }

  lemma NothingFitted()
    ensures IsFitted([], Running(0.0, 0.0, 0))
  {
    assert AreStates([], [Running(0.0, 0.0, 0)]);
  }

  lemma FitMore(xs: seq<real>, r: Running, x: real)
    requires IsFitted(xs, r)
    ensures IsFitted(xs + [x], Welford(r, x))
  {
    var rs :| AreStates(xs, rs) && rs[|xs|] == r;
    var all := rs + [Welford(r, x)];
    forall j | 0 <= j < |xs| + 1
      ensures Follows(all, xs + [x], j)
    {
      assert j < |xs| ==> Follows(rs, xs, j);
    }
    assert AreStates(xs + [x], all);
  }

  function Square(x: real): real { x * x }

  function SumOfSquares(xs: seq<real>, n: nat): real
    requires n <= |xs|
  {
    if n == 0 then 0.0 else SumOfSquares(xs, n - 1) + Square(xs[n - 1])
  }

  function Mean(xs: seq<real>): real
    requires xs != []
  {
    Sum(xs, 0, |xs|) / |xs| as real
  }

  function SquaredDeviations(xs: seq<real>, c: real, n: nat): real
    requires n <= |xs|
  {
    if n == 0 then 0.0 else SquaredDeviations(xs, c, n - 1) + Square(xs[n - 1] - c)
  }

  ghost predicate Expands(d: real, q: real, s: real, n: nat, c: real) {
    d == q - 2.0 * c * s + n as real * (c * c)
  }

  lemma AddDeviation(d: real, q: real, s: real, n: nat, x: real, c: real)
    requires Expands(d, q, s, n, c)
    ensures Expands(d + Square(x - c), q + Square(x), s + x, n + 1, c)
  {
    assert (n + 1) as real * (c * c) == n as real * (c * c) + c * c;
    assert c * (s + x) == c * s + c * x;
    assert Square(x - c) == Square(x) - 2.0 * (c * x) + c * c;
  }

  lemma {:induction false} DeviationsBySquares(xs: seq<real>, c: real, n: nat)
    requires n <= |xs|
    ensures Expands(SquaredDeviations(xs, c, n), SumOfSquares(xs, n), Sum(xs, 0, n), n, c)
  {
    if n > 0 {
      DeviationsBySquares(xs, c, n - 1);
      AddDeviation(SquaredDeviations(xs, c, n - 1), SumOfSquares(xs, n - 1), Sum(xs, 0, n - 1), n - 1, xs[n - 1], c);
    }
  }

  lemma WelfordMean(mean: real, s: real, n: real, x: real)
    requires n >= 0.0 && mean * n == s
    ensures (mean + (x - mean) / (n + 1.0)) * (n + 1.0) == s + x
  {
    var d := (x - mean) / (n + 1.0);
    assert d * (n + 1.0) == x - mean;
    assert (mean + d) * (n + 1.0) == mean * n + mean + d * (n + 1.0);
  }

  lemma WelfordVariance(mean: real, next: real, s: real, n: real, x: real, q: real)
    requires mean * n == s && next * (n + 1.0) == s + x
    ensures q - mean * s + (x - mean) * (x - next) == (q + x * x) - next * (s + x)
  {
    assert mean * (next * (n + 1.0)) == next * (mean * n) + next * mean;
    assert mean * (s + x) == next * s + next * mean;
  }

  /** The running fields belong to samples with sum `s` and sum of squares `q`. */
  ghost predicate Fits(r: Running, s: real, q: real) {
    r.mean * r.count as real == s && r.variance == q - r.mean * s
  }

  lemma WelfordStep(r: Running, next: Running, s: real, q: real, x: real, sx: real, qx: real)
    requires Fits(r, s, q) && next == Welford(r, x) && sx == s + x && qx == q + Square(x)
    ensures Fits(next, sx, qx)
  {
    var n := r.count as real;
    WelfordMean(r.mean, s, n, x);
    WelfordVariance(r.mean, next.mean, s, n, x, q);
  }

  lemma {:induction false} StatesFit(xs: seq<real>, rs: seq<Running>, n: nat)
    requires AreStates(xs, rs) && n <= |xs|
    ensures rs[n].count == n && Fits(rs[n], Sum(xs, 0, n), SumOfSquares(xs, n))
  {
    if n > 0 {
      StatesFit(xs, rs, n - 1);
      assert Follows(rs, xs, n - 1);
      WelfordStep(rs[n - 1], rs[n], Sum(xs, 0, n - 1), SumOfSquares(xs, n - 1), xs[n - 1], Sum(xs, 0, n),
                  SumOfSquares(xs, n));
    }
  }

  lemma FitsDetermines(r: Running, s: real, q: real)
    requires r.count > 0 && Fits(r, s, q)
    ensures r.mean == s / r.count as real
    ensures r.variance == q - 2.0 * r.mean * s + r.count as real * (r.mean * r.mean)
  {
    AtTheMean(r.mean, s, r.count as real);
    MeanFromSum(r.mean, s, r.count as real);
  }

  /** The running fields are the two-pass mean and sum of squared deviations. */
  lemma WelfordIsTwoPass(xs: seq<real>, r: Running)
    requires IsFitted(xs, r) && xs != []
    ensures r == Running(Mean(xs), SquaredDeviations(xs, Mean(xs), |xs|), |xs|)
  {
    var rs :| AreStates(xs, rs) && rs[|xs|] == r;
    StatesFit(xs, rs, |xs|);
    FitsDetermines(r, Sum(xs, 0, |xs|), SumOfSquares(xs, |xs|));
    DeviationsBySquares(xs, r.mean, |xs|);
  }

  lemma MeanFromSum(mean: real, s: real, n: real)
    requires n > 0.0 && mean * n == s
    ensures mean == s / n
  {
  }

  lemma AtTheMean(mean: real, s: real, n: real)
    requires mean * n == s
    ensures - 2.0 * mean * s + n * (mean * mean) == - (mean * s)
  {
    assert n * (mean * mean) == mean * (mean * n);
  }

  lemma {:induction false} DeviationsNonNegative(xs: seq<real>, c: real, n: nat)
    requires n <= |xs|
    ensures SquaredDeviations(xs, c, n) >= 0.0
  {
    if n > 0 {
      DeviationsNonNegative(xs, c, n - 1);
    }
  }

  // --------------------------------------------------------------- the z-score

  /** The square root is taken as given: any function that is one. */
  ghost predicate IsSqrt(f: real -> real) {
    forall v :: v >= 0.0 ==> f(v) >= 0.0 && f(v) * f(v) == v
  }

  function Abs(x: real): real { if x < 0.0 then -x else x }

  function ZScore(f: real -> real, r: Running, x: real): real
    requires r.count > 0
  {
    var std := f(r.variance / r.count as real);
    if std > 0.0 then Abs(x - r.mean) / std else 0.0
  }

  /** The squared deviation times n exceeds z squared times the sum of squared deviations. A baseline that never
      varied flags nothing. */
  predicate Deviates(z: real, r: Running, x: real) {
    r.variance > 0.0 && Square(x - r.mean) * r.count as real > Square(z) * r.variance
  }

  lemma Positive(a: real, b: real, p: real)
    requires a > 0.0 && b > 0.0 && p == a * b
    ensures p > 0.0
  {
  }

  lemma SquaresCompare(a: real, b: real)
    requires a >= 0.0 && b >= 0.0
    ensures a > b <==> a * a > b * b
  {
    assert a * a - b * b == (a - b) * (a + b);
    if a > b { Positive(a - b, a + b, a * a - b * b); } else { NonNegative(b - a, a + b); }
  }

  lemma QuotientCompare(d: real, s: real, z: real)
    requires s > 0.0
    ensures d / s > z <==> d > z * s
  {
    var q := d / s;
    assert d == q * s;
    if q > z { assert (q - z) * s > 0.0; } else { assert (z - q) * s >= 0.0; }
  }

  lemma ScaledSquares(d: real, z: real, s: real, v: real, n: real)
    requires n > 0.0 && s * s * n == v
    ensures d * d > (z * s) * (z * s) <==> d * d * n > z * z * v
  {
    var a, b := d * d, z * z * (s * s);
    assert (z * s) * (z * s) == b;
    assert b * n == z * z * v by { assert b * n == z * z * (s * s * n); }
    if a > b { assert (a - b) * n > 0.0; } else { assert (b - a) * n >= 0.0; }
  }

  lemma RootIsPositiveIff(s: real, q: real, v: real, n: real)
    requires s >= 0.0 && n > 0.0 && q == s * s && q * n == v
    ensures s > 0.0 <==> v > 0.0
  {
    if s > 0.0 {
      Positive(s, s, q);
      Positive(q, n, v);
    } else {
      assert q == 0.0;
    }
  }

  lemma RatioExceedsIff(d: real, s: real, z: real, v: real, n: real)
    requires s > 0.0 && z >= 0.0 && d >= 0.0 && n > 0.0 && s * s * n == v
    ensures d / s > z <==> Square(d) * n > Square(z) * v
  {
    QuotientCompare(d, s, z);
    assert z * s >= 0.0;
    SquaresCompare(d, z * s);
    ScaledSquares(d, z, s, v, n);
  }

  lemma SquareOfAbs(x: real)
    ensures Square(Abs(x)) == Square(x)
  {
  }

  lemma RootOfMean(f: real -> real, v: real, n: real)
    requires IsSqrt(f) && v >= 0.0 && n > 0.0
    ensures var s := f(v / n); s >= 0.0 && s * s * n == v && (s > 0.0 <==> v > 0.0)
  {
    var q := v / n;
    assert q >= 0.0 && q * n == v;
    var s := f(q);
    assert s >= 0.0 && s * s == q;
    RootIsPositiveIff(s, q, v, n);
  }

  /** The z-score test is the square-root-free test. */
  lemma ZScoreExceedsIff(f: real -> real, z: real, r: Running, x: real)
    requires IsSqrt(f) && z >= 0.0 && r.count > 0 && r.variance >= 0.0
    ensures ZScore(f, r, x) > z <==> Deviates(z, r, x)
  {
    var n := r.count as real;
    RootOfMean(f, r.variance, n);
    var s := f(r.variance / n);
    if s > 0.0 {
      RatioExceedsIff(Abs(x - r.mean), s, z, r.variance, n);
      SquareOfAbs(x - r.mean);
    }
  }

  // ------------------------------------------------------------- one pair

  /** Statistics computed from trade amounts; the computation itself is not part of this model. */
  datatype Metric = Finite(value: real) | NonFinite

  datatype Status = Stable | Drifted | InsufficientData

  datatype Base = Base(chiSquare: Running, mad: Running, driftCountTotal: nat)

  const NEW_BASE := Base(Running(0.0, 0.0, 0), Running(0.0, 0.0, 0), 0)

  /** `streak` counts consecutive drifted checks; zero stands for a pair that is not listed as drifted. */
  datatype PairState = PairState(base: Option<Base>, streak: nat)

  /** A sample is missing when no positive amount is left to compute it from. */
  type Sample = Option<(Metric, Metric)>

  predicate Usable(m: Metric) { m.Finite? && m.value >= 0.0 }

  predicate IsAccepted(s: Sample) { s.Some? && Usable(s.value.0) && Usable(s.value.1) }

  function ChiSquareOf(s: Sample): real
    requires IsAccepted(s)
  {
    s.value.0.value
  }

  function MadOf(s: Sample): real
    requires IsAccepted(s)
  {
    s.value.1.value
  }

  function Absorbed(b: Base, chi: real, mad: real): Base {
    b.(chiSquare := Welford(b.chiSquare, chi), mad := Welford(b.mad, mad))
  }

  function FitPair(p: PairState, s: Sample): PairState {
    if !IsAccepted(s) then p
    else
      p.(base := Some(Absorbed(p.base.GetOr(NEW_BASE), ChiSquareOf(s), MadOf(s))))
  }

  datatype Settings = Settings(zThreshold: real, minSamples: nat, sqrt: real -> real)

  predicate Exceeds(cfg: Settings, b: Base, chi: real, mad: real)
    requires b.chiSquare.count > 0 && b.mad.count > 0
  {
    ZScore(cfg.sqrt, b.chiSquare, chi) > cfg.zThreshold || ZScore(cfg.sqrt, b.mad, mad) > cfg.zThreshold
  }

  predicate IsSound(b: Option<Base>) { b.Some? ==> b.value.chiSquare.count > 0 && b.value.mad.count > 0 }

  /** What a check compares: nothing when there is too little data or no finite metric, else the z-scores. */
  datatype Verdict = Skipped(status: Status) | Compared(drifted: bool)

  function Judged(cfg: Settings, b: Option<Base>, chi: Metric, mad: Metric): Verdict
    requires IsSound(b)
  {
    if b.None? || b.value.chiSquare.count < cfg.minSamples then Skipped(InsufficientData)
    else if chi.NonFinite? || mad.NonFinite? then Skipped(Stable)
    else Compared(Exceeds(cfg, b.value, chi.value, mad.value))
  }

  /** Only the first of consecutive drifted checks counts as an entry into drift. */
  function Concluded(p: PairState, v: Verdict): PairState
    requires v.Compared? ==> p.base.Some?
  {
    match v
    case Skipped(_) => p
    case Compared(false) => p.(streak := 0)
    case Compared(true) =>
      var b := p.base.value;
      PairState(Some(if p.streak > 0 then b else b.(driftCountTotal := b.driftCountTotal + 1)), p.streak + 1)
  }

  function StatusOf(v: Verdict): Status {
    match v
    case Skipped(s) => s
    case Compared(drifted) => if drifted then Drifted else Stable
  }

  // --------------------------------------------------------------- the detector

  function StateOf(views: map<string, Base>, drifted: map<string, nat>, pair: string): PairState {
    PairState(Lookup(views, pair), Lookup(drifted, pair).GetOr(0))
  }

  function Streak(m: map<string, nat>, pair: string, n: nat): map<string, nat> {
    if n == 0 then m - {pair} else m[pair := n]
  }

  class BenfordBaseline {
    var chiSquareMean: real
    var chiSquareVariance: real
    var chiSquareCount: nat
    var madMean: real
    var madVariance: real
    var madCount: nat
    var driftCountTotal: nat

    ghost function View(): Base
      reads this
    {
      Base(Running(chiSquareMean, chiSquareVariance, chiSquareCount), Running(madMean, madVariance, madCount),
           driftCountTotal)
    }

    constructor ()
      ensures View() == NEW_BASE
    {
      chiSquareMean, chiSquareVariance, chiSquareCount := 0.0, 0.0, 0;
      madMean, madVariance, madCount := 0.0, 0.0, 0;
      driftCountTotal := 0;
    }

    method AbsorbChiSquare(x: real)
      modifies this`chiSquareMean, this`chiSquareVariance, this`chiSquareCount
      ensures View() == old(View()).(chiSquare := Welford(old(View()).chiSquare, x))
    {
      chiSquareCount := chiSquareCount + 1;
      var delta := x - chiSquareMean;
      chiSquareMean := chiSquareMean + delta / chiSquareCount as real;
      var delta2 := x - chiSquareMean;
      chiSquareVariance := chiSquareVariance + delta * delta2;
    }

    method AbsorbMad(x: real)
      modifies this`madMean, this`madVariance, this`madCount
      ensures View() == old(View()).(mad := Welford(old(View()).mad, x))
    {
      madCount := madCount + 1;
      var delta := x - madMean;
      madMean := madMean + delta / madCount as real;
      var delta2 := x - madMean;
      madVariance := madVariance + delta * delta2;
    }

    method Absorb(chi: real, mad: real)
      modifies this
      ensures View() == Absorbed(old(View()), chi, mad)
    {
      AbsorbChiSquare(chi);
      AbsorbMad(mad);
    }
  }

  class BenfordDriftDetector {
    const cfg: Settings
    var baselines: map<string, BenfordBaseline>
    var driftedPairs: map<string, nat>

    constructor (cfg: Settings)
      ensures this.cfg == cfg && Valid() && Sound() && Views() == map[] && driftedPairs == map[]
    {
      this.cfg := cfg;
      baselines, driftedPairs := map[], map[];
    }

    ghost predicate Valid()
      reads this`baselines, this`driftedPairs
    {
      && (forall k, l :: k in baselines && l in baselines && k != l ==> baselines[k] != baselines[l])
      && (forall k :: k in driftedPairs ==> driftedPairs[k] > 0)
    }

    /** No division by zero: a baseline is stored only with at least one sample in it. */
    ghost predicate Sound()
      reads this`baselines, baselines.Values
    {
      forall k :: k in Views() ==> IsSound(Some(Views()[k]))
    }

    ghost function Views(): (views: map<string, Base>)
      reads this`baselines, baselines.Values
      ensures views.Keys == baselines.Keys
      ensures forall k :: k in baselines ==> views[k] == baselines[k].View()
    {
      map k | k in baselines :: baselines[k].View()
    }

    ghost function PairView(pair: string): PairState
      reads this`baselines, this`driftedPairs, baselines.Values
    {
      StateOf(Views(), driftedPairs, pair)
    }

    method AbsorbInto(pair: string, baseline: BenfordBaseline, chi: real, mad: real)
      requires Valid() && pair in baselines && baselines[pair] == baseline
      modifies baseline
      ensures Valid()
      ensures Views() == old(Views())[pair := Absorbed(old(Views())[pair], chi, mad)]
    {
      ghost var before := Views();
      baseline.Absorb(chi, mad);
      assert Views() == before[pair := baseline.View()];
    }

    method Adopt(pair: string, baseline: BenfordBaseline)
      requires Valid() && pair !in baselines && baseline !in baselines.Values
      modifies this`baselines
      ensures Valid() && baselines == old(baselines)[pair := baseline]
      ensures Views() == old(Views())[pair := baseline.View()]
    {
      baselines := baselines[pair := baseline];
    }

    method FitValues(pair: string, chi: real, mad: real)
      requires Valid()
      modifies this`baselines, baselines.Values
      ensures Valid() && fresh(baselines.Values - old(baselines.Values))
      ensures Views() == old(Views())[pair := Absorbed(Lookup(old(Views()), pair).GetOr(NEW_BASE), chi, mad)]
    {
      if pair in baselines {
        AbsorbInto(pair, baselines[pair], chi, mad);
      } else {
        var baseline := new BenfordBaseline();
        baseline.Absorb(chi, mad);
        Adopt(pair, baseline);
      }
    }

    method FitBaseline(pair: string, sample: Sample)
      requires Valid() && Sound()
      modifies this`baselines, baselines.Values
      ensures Valid() && Sound() && fresh(baselines.Values - old(baselines.Values))
      ensures Views() == Put(old(Views()), pair, FitPair(old(PairView(pair)), sample).base)
    {
      if sample.None? {
        return;
      }
      var (chi, mad) := sample.value;
      if chi.NonFinite? || chi.value < 0.0 || mad.NonFinite? || mad.value < 0.0 {
        return;
      }
      FitValues(pair, chi.value, mad.value);
    }

    method IsExceeded(baseline: BenfordBaseline, chi: real, mad: real) returns (drifted: bool)
      requires IsSound(Some(baseline.View()))
      ensures drifted == Exceeds(cfg, baseline.View(), chi, mad)
    {
      var chiStd := cfg.sqrt(baseline.chiSquareVariance / baseline.chiSquareCount as real);
      var madStd := cfg.sqrt(baseline.madVariance / baseline.madCount as real);
      var chiZ := if chiStd > 0.0 then Abs(chi - baseline.chiSquareMean) / chiStd else 0.0;
      var madZ := if madStd > 0.0 then Abs(mad - baseline.madMean) / madStd else 0.0;
      drifted := chiZ > cfg.zThreshold || madZ > cfg.zThreshold;
    }

    method Judge(pair: string, chi: Metric, mad: Metric) returns (v: Verdict)
      requires Valid() && Sound()
      ensures v == Judged(cfg, PairView(pair).base, chi, mad)
    {
      if pair !in baselines {
        return Skipped(InsufficientData);
      }
      var baseline := baselines[pair];
      assert baseline.View() == Views()[pair];
      if baseline.chiSquareCount < cfg.minSamples {
        return Skipped(InsufficientData);
      }
      if chi.NonFinite? || mad.NonFinite? {
        return Skipped(Stable);
      }
      var drifted := IsExceeded(baseline, chi.value, mad.value);
      return Compared(drifted);
    }

    method CountEntry(pair: string, baseline: BenfordBaseline)
      requires Valid() && pair in baselines && baselines[pair] == baseline
      modifies baseline
      ensures Valid()
      ensures var b := old(Views())[pair];
              Views() == old(Views())[pair := b.(driftCountTotal := b.driftCountTotal + 1)]
    {
      ghost var before := Views();
      baseline.driftCountTotal := baseline.driftCountTotal + 1;
      assert Views() == before[pair := baseline.View()];
    }

    method RecordDrift(pair: string)
      requires Valid() && pair in baselines
      modifies this`driftedPairs, baselines.Values
      ensures Valid()
      ensures Views() == if pair in old(driftedPairs) then old(Views()) else
        old(Views())[pair := old(Views())[pair].(driftCountTotal := old(Views())[pair].driftCountTotal + 1)]
      ensures driftedPairs ==
              old(driftedPairs)[pair := if pair in old(driftedPairs) then old(driftedPairs)[pair] + 1 else 1]
    {
      if pair !in driftedPairs {
        CountEntry(pair, baselines[pair]);
        driftedPairs := driftedPairs[pair := 1];
      } else {
        driftedPairs := driftedPairs[pair := driftedPairs[pair] + 1];
      }
    }

    method Conclude(pair: string, v: Verdict)
      requires Valid() && (v.Compared? ==> pair in baselines)
      modifies this`driftedPairs, baselines.Values
      ensures Valid()
      ensures var p := Concluded(old(PairView(pair)), v);
              Views() == Put(old(Views()), pair, p.base) && driftedPairs == Streak(old(driftedPairs), pair, p.streak)
    {
      ghost var before, p := Views(), PairView(pair);
      assert p.base.Some? ==> before == before[pair := p.base.value];
      assert p.streak > 0 <==> pair in driftedPairs;
      match v
      case Skipped(_) =>
      case Compared(true) => RecordDrift(pair);
      case Compared(false) => driftedPairs := driftedPairs - {pair};
    }

    method Check(pair: string, chi: Metric, mad: Metric) returns (status: Status)
      requires Valid() && Sound()
      modifies this`driftedPairs, baselines.Values
      ensures Valid() && Sound()
      ensures var v := Judged(cfg, old(PairView(pair)).base, chi, mad);
              var p := Concluded(old(PairView(pair)), v);
              && status == StatusOf(v) && Views() == Put(old(Views()), pair, p.base)
              && driftedPairs == Streak(old(driftedPairs), pair, p.streak)
    {
      var v := Judge(pair, chi, mad);
      Conclude(pair, v);
      return StatusOf(v);
    }

    method ShouldTriggerRetrain(numPairsTrigger: int) returns (r: bool)
      ensures r <==> |driftedPairs| >= if numPairsTrigger == 0 then 1 else numPairsTrigger
    {
      if numPairsTrigger == 0 {
        r := |driftedPairs| > 0;
      } else {
        r := |driftedPairs| >= numPairsTrigger;
      }
    }
  }

  // ------------------------------------------------------- whole runs of one pair

  datatype Op = Fit(sample: Sample) | Check(chi: Metric, mad: Metric)

  const NEW_PAIR := PairState(None, 0)

  function Step(cfg: Settings, p: PairState, op: Op): PairState
    requires IsSound(p.base)
  {
    match op
    case Fit(s) => FitPair(p, s)
    case Check(chi, mad) => Concluded(p, Judged(cfg, p.base, chi, mad))
  }

  ghost predicate Moves(cfg: Settings, ps: seq<PairState>, ops: seq<Op>, j: nat)
    requires j < |ops| < |ps|
  {
    IsSound(ps[j].base) && ps[j + 1] == Step(cfg, ps[j], ops[j])
  }

  /** The states of a pair before each of its operations, and after the last. */
  ghost predicate IsRun(cfg: Settings, ops: seq<Op>, ps: seq<PairState>) {
    |ps| == |ops| + 1 && ps[0] == NEW_PAIR && forall j :: 0 <= j < |ops| ==> Moves(cfg, ps, ops, j)
  }

  lemma StepKeepsSound(cfg: Settings, p: PairState, op: Op)
    requires IsSound(p.base)
    ensures IsSound(Step(cfg, p, op).base)
  {
  }

  lemma {:induction false} RunExists(cfg: Settings, ops: seq<Op>)
    ensures exists ps: seq<PairState> :: IsRun(cfg, ops, ps) && IsSound(ps[|ops|].base)
  {
    if ops == [] {
      assert IsRun(cfg, ops, [NEW_PAIR]);
    } else {
      var n := |ops| - 1;
      RunExists(cfg, ops[..n]);
      var ps: seq<PairState> :| IsRun(cfg, ops[..n], ps) && IsSound(ps[n].base);
      StepKeepsSound(cfg, ps[n], ops[n]);
      var all := ps + [Step(cfg, ps[n], ops[n])];
      forall j | 0 <= j < |ops|
        ensures Moves(cfg, all, ops, j)
      {
        assert j < n ==> Moves(cfg, ps, ops[..n], j);
      }
      assert IsRun(cfg, ops, all);
    }
  }

  /** The accepted samples among the first n operations. */
  function ChiSquares(ops: seq<Op>, n: nat): seq<real>
    requires n <= |ops|
  {
    if n == 0 then []
    else if ops[n - 1].Fit? && IsAccepted(ops[n - 1].sample) then
      ChiSquares(ops, n - 1) + [ChiSquareOf(ops[n - 1].sample)]
    else ChiSquares(ops, n - 1)
  }

  function Mads(ops: seq<Op>, n: nat): seq<real>
    requires n <= |ops|
  {
    if n == 0 then []
    else if ops[n - 1].Fit? && IsAccepted(ops[n - 1].sample) then
      Mads(ops, n - 1) + [MadOf(ops[n - 1].sample)]
    else Mads(ops, n - 1)
  }

  ghost predicate Holds(b: Option<Base>, xs: seq<real>, ys: seq<real>) {
    && |xs| == |ys|
    && (b.None? <==> xs == [])
    && (b.Some? ==> IsFitted(xs, b.value.chiSquare) && IsFitted(ys, b.value.mad))
  }

  lemma FitHolds(p: PairState, s: Sample, xs: seq<real>, ys: seq<real>)
    requires Holds(p.base, xs, ys) && IsAccepted(s)
    ensures Holds(FitPair(p, s).base, xs + [ChiSquareOf(s)], ys + [MadOf(s)])
  {
    NothingFitted();
    var b := p.base.GetOr(NEW_BASE);
    FitMore(xs, b.chiSquare, ChiSquareOf(s));
    FitMore(ys, b.mad, MadOf(s));
  }

  lemma {:induction false} BaselineHoldsSamples(cfg: Settings, ops: seq<Op>, ps: seq<PairState>, n: nat)
    requires IsRun(cfg, ops, ps) && n <= |ops|
    ensures Holds(ps[n].base, ChiSquares(ops, n), Mads(ops, n))
  {
    if n > 0 {
      BaselineHoldsSamples(cfg, ops, ps, n - 1);
      assert Moves(cfg, ps, ops, n - 1);
      if ops[n - 1].Fit? && IsAccepted(ops[n - 1].sample) {
        FitHolds(ps[n - 1], ops[n - 1].sample, ChiSquares(ops, n - 1), Mads(ops, n - 1));
      }
    }
  }

  function TwoPass(xs: seq<real>): Running
    requires xs != []
  {
    Running(Mean(xs), SquaredDeviations(xs, Mean(xs), |xs|), |xs|)
  }

  /** After any run the stored fields are the mean and the sum of squared deviations of the accepted samples, whatever
      checks came between. */
  lemma BaselineIsTwoPass(cfg: Settings, ops: seq<Op>, ps: seq<PairState>, n: nat)
    requires IsRun(cfg, ops, ps) && n <= |ops|
    ensures ps[n].base.Some? <==> ChiSquares(ops, n) != []
    ensures ps[n].base.Some? ==>
      && Mads(ops, n) != []
      && ps[n].base.value.chiSquare == TwoPass(ChiSquares(ops, n))
      && ps[n].base.value.mad == TwoPass(Mads(ops, n))
  {
    BaselineHoldsSamples(cfg, ops, ps, n);
    if ps[n].base.Some? {
      WelfordIsTwoPass(ChiSquares(ops, n), ps[n].base.value.chiSquare);
      WelfordIsTwoPass(Mads(ops, n), ps[n].base.value.mad);
    }
  }

  /** What a check compares: the squared deviation from the mean, times n, against z squared times the sum of squared
      deviations of the samples, without a square root. */
  predicate IsOutlier(z: real, xs: seq<real>, x: real)
    requires xs != []
  {
    Deviates(z, TwoPass(xs), x)
  }

  lemma ExceedsIffOutlier(cfg: Settings, b: Base, xs: seq<real>, ys: seq<real>, chi: real, mad: real)
    requires IsSqrt(cfg.sqrt) && cfg.zThreshold >= 0.0
    requires xs != [] && ys != [] && b.chiSquare == TwoPass(xs) && b.mad == TwoPass(ys)
    ensures Exceeds(cfg, b, chi, mad) <==> IsOutlier(cfg.zThreshold, xs, chi) || IsOutlier(cfg.zThreshold, ys, mad)
  {
    DeviationsNonNegative(xs, Mean(xs), |xs|);
    DeviationsNonNegative(ys, Mean(ys), |ys|);
    ZScoreExceedsIff(cfg.sqrt, cfg.zThreshold, b.chiSquare, chi);
    ZScoreExceedsIff(cfg.sqrt, cfg.zThreshold, b.mad, mad);
  }

  /** The verdict of the check at position n, told from the operations before it alone. */
  lemma CheckDecides(cfg: Settings, ops: seq<Op>, ps: seq<PairState>, n: nat)
    requires IsRun(cfg, ops, ps) && n < |ops| && ops[n].Check?
    requires IsSqrt(cfg.sqrt) && cfg.zThreshold >= 0.0
    ensures var xs, ys, chi, mad := ChiSquares(ops, n), Mads(ops, n), ops[n].chi, ops[n].mad;
            && IsSound(ps[n].base)
            && Judged(cfg, ps[n].base, chi, mad) ==
               if |xs| < cfg.minSamples || |xs| == 0 || |ys| == 0 then Skipped(InsufficientData)
               else if chi.NonFinite? || mad.NonFinite? then Skipped(Stable)
               else Compared(IsOutlier(cfg.zThreshold, xs, chi.value) || IsOutlier(cfg.zThreshold, ys, mad.value))
  {
    BaselineHoldsSamples(cfg, ops, ps, n);
    BaselineIsTwoPass(cfg, ops, ps, n);
    assert Moves(cfg, ps, ops, n);
    var xs, ys, chi, mad := ChiSquares(ops, n), Mads(ops, n), ops[n].chi, ops[n].mad;
    if ps[n].base.Some? && chi.Finite? && mad.Finite? {
      ExceedsIffOutlier(cfg, ps[n].base.value, xs, ys, chi.value, mad.value);
    }
  }

  /** The verdicts of the checks that compared something. */
  ghost function Verdicts(cfg: Settings, ops: seq<Op>, ps: seq<PairState>, n: nat): seq<bool>
    requires IsRun(cfg, ops, ps) && n <= |ops|
  {
    if n == 0 then []
    else
      assert Moves(cfg, ps, ops, n - 1);
      var before := Verdicts(cfg, ops, ps, n - 1);
      if ops[n - 1].Fit? then before
      else
        var v := Judged(cfg, ps[n - 1].base, ops[n - 1].chi, ops[n - 1].mad);
        if v.Skipped? then before else before + [v.drifted]
  }

  function Trailing(vs: seq<bool>): nat {
    if vs == [] || !vs[|vs| - 1] then 0 else 1 + Trailing(vs[..|vs| - 1])
  }

  /** How often a drifted verdict follows none or a stable one. */
  function Entries(vs: seq<bool>): nat {
    if vs == [] then 0
    else if vs[|vs| - 1] && (|vs| == 1 || !vs[|vs| - 2]) then Entries(vs[..|vs| - 1]) + 1
    else Entries(vs[..|vs| - 1])
  }

  lemma TrailingPositive(vs: seq<bool>)
    ensures Trailing(vs) > 0 <==> vs != [] && vs[|vs| - 1]
  {
  }

  /** The drifted state counts the drifted verdicts since the last stable one, and the total counts the entries. */
  lemma {:induction false} DriftCountsEntries(cfg: Settings, ops: seq<Op>, ps: seq<PairState>, n: nat)
    requires IsRun(cfg, ops, ps) && n <= |ops|
    ensures ps[n].streak == Trailing(Verdicts(cfg, ops, ps, n))
    ensures Entries(Verdicts(cfg, ops, ps, n)) == ps[n].base.GetOr(NEW_BASE).driftCountTotal
  {
    if n > 0 {
      DriftCountsEntries(cfg, ops, ps, n - 1);
      assert Moves(cfg, ps, ops, n - 1);
      var vs, all := Verdicts(cfg, ops, ps, n - 1), Verdicts(cfg, ops, ps, n);
      TrailingPositive(vs);
      if all != vs {
        assert all[..|all| - 1] == vs;
      }
    }
  }

  // ------------------------------------------------------- many pairs

  function PairStep(s: Option<PairState>, r: (Settings, Op)): (Option<PairState>, Option<Status>) {
    var p := s.GetOr(NEW_PAIR);
    if !IsSound(p.base) then (s, None)
    else
      match r.1
      case Fit(sample) => (Some(FitPair(p, sample)), None)
      case Check(chi, mad) =>
        var v := Judged(r.0, p.base, chi, mad);
        (Some(Concluded(p, v)), Some(StatusOf(v)))
  }

  /** However fits and checks of other pairs are interleaved, a pair gets the answers of its own operations. */
  lemma PairsAreIsolated(reqs: seq<Request<(Settings, Op)>>, pair: string)
    ensures Picked(reqs, Answers(PairStep, reqs, map[]), pair) == Answers(PairStep, Own(reqs, pair), map[])
  {
    TenantsAreIsolated(PairStep, reqs, map[], map[], pair);
  }

  /** `m` holds what the two maps of the detector tell of every pair. */
  ghost predicate Tells(views: map<string, Base>, drifted: map<string, nat>, m: map<string, PairState>) {
    forall k :: Lookup(m, k).GetOr(NEW_PAIR) == StateOf(views, drifted, k)
  }

  ghost predicate Represents(d: BenfordDriftDetector, m: map<string, PairState>)
    reads d, d.baselines.Values
  {
    Tells(d.Views(), d.driftedPairs, m)
  }

  lemma TellsMore(
    views: map<string, Base>, drifted: map<string, nat>, m: map<string, PairState>, pair: string, p: PairState)
    requires Tells(views, drifted, m) && (p.base.None? ==> pair !in views)
    ensures Tells(Put(views, pair, p.base), Streak(drifted, pair, p.streak), m[pair := p])
  {
    forall k
      ensures Lookup(m[pair := p], k).GetOr(NEW_PAIR) ==
              StateOf(Put(views, pair, p.base), Streak(drifted, pair, p.streak), k)
    {
      assert Lookup(m, k).GetOr(NEW_PAIR) == StateOf(views, drifted, k);
    }
  }

  lemma SameStreak(drifted: map<string, nat>, pair: string)
    requires forall k :: k in drifted ==> drifted[k] > 0
    ensures Streak(drifted, pair, Lookup(drifted, pair).GetOr(0)) == drifted
  {
    if pair in drifted {
      assert drifted[pair := drifted[pair]] == drifted;
    } else {
      assert drifted - {pair} == drifted;
    }
  }

  ghost function WithSettings(cfg: Settings, reqs: seq<Request<Op>>): (rs: seq<Request<(Settings, Op)>>)
    ensures |rs| == |reqs|
    ensures forall i :: 0 <= i < |reqs| ==> rs[i] == Request(reqs[i].tenant, (cfg, reqs[i].body))
  {
    if reqs == [] then []
    else
      var n := |reqs| - 1;
      WithSettings(cfg, reqs[..n]) + [Request(reqs[n].tenant, (cfg, reqs[n].body))]
  }

  method Operate(d: BenfordDriftDetector, pair: string, op: Op, ghost m: map<string, PairState>)
    returns (answer: Option<Status>, ghost next: map<string, PairState>)
    requires d.Valid() && d.Sound() && Represents(d, m)
    modifies d, d.baselines.Values
    ensures d.Valid() && d.Sound() && fresh(d.baselines.Values - old(d.baselines.Values)) && Represents(d, next)
    ensures var (s, a) := PairStep(Lookup(m, pair), (d.cfg, op)); answer == a && next == Put(m, pair, s)
  {
    ghost var views, drifted, p := d.Views(), d.driftedPairs, d.PairView(pair);
    assert Lookup(m, pair).GetOr(NEW_PAIR) == p;
    match op
    case Fit(sample) =>
      SameStreak(drifted, pair);
      TellsMore(views, drifted, m, pair, FitPair(p, sample));
      d.FitBaseline(pair, sample);
      answer := None;
      next := m[pair := FitPair(p, sample)];
    case Check(chi, mad) =>
      ghost var after := Concluded(p, Judged(d.cfg, p.base, chi, mad));
      TellsMore(views, drifted, m, pair, after);
      var status := d.Check(pair, chi, mad);
      answer := Some(status);
      next := m[pair := after];
  }

  /** A detector that serves many pairs answers each as if its operations came alone, and holds in the end what the
      operations make of every pair. */
  method OperateAll(d: BenfordDriftDetector, reqs: seq<Request<Op>>, ghost m: map<string, PairState>)
    returns (answers: seq<Option<Status>>)
    requires d.Valid() && d.Sound() && Represents(d, m)
    modifies d, d.baselines.Values
    ensures d.Valid() && d.Sound() && |answers| == |reqs|
    ensures answers == Answers(PairStep, WithSettings(d.cfg, reqs), m)
    ensures Represents(d, After(PairStep, WithSettings(d.cfg, reqs), m))
    ensures var rs := WithSettings(d.cfg, reqs);
            forall k :: Picked(rs, answers, k) == Answers(PairStep, Own(rs, k), m)
  {
    ghost var rs, now := WithSettings(d.cfg, reqs), m;
    answers := [];
    assert rs[0..] == rs;
    for i := 0 to |reqs|
      invariant d.Valid() && d.Sound() && fresh(d.baselines.Values - old(d.baselines.Values)) && Represents(d, now)
      invariant |answers| == i
      invariant Answers(PairStep, rs, m) == answers + Answers(PairStep, rs[i..], now)
      invariant After(PairStep, rs, m) == After(PairStep, rs[i..], now)
    {
      var answer;
      ghost var next;
      answer, next := Operate(d, reqs[i].tenant, reqs[i].body, now);
      assert rs[i..][0] == rs[i] && rs[i..][1..] == rs[i + 1..];
      AnswersStep(PairStep, rs[i..], now, answers, answer, next);
      answers, now := answers + [answer], next;
    }
    assert rs[|reqs|..] == [];
    AllServed(PairStep, rs, m, answers, now);
  }
}
