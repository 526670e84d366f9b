/** The adaptive batch tuner (benchmarks/runner.py, lines 322-483). */
module BatchTuner {
  import opened Common

  datatype Config = Config(
    minSize: int, maxSize: int, initialSize: int, target: real, highWatermark: int, lowWatermark: int,
    stepFraction: real, smoothing: real, cooldown: int)

  datatype ConfigError = MinTooSmall | MaxBelowMin | WatermarksCrossed | BadStepFraction | BadSmoothing

  ghost predicate IsValid(c: Config) {
    && 1 <= c.minSize <= c.maxSize && c.lowWatermark <= c.highWatermark
    && 0.0 < c.stepFraction <= 1.0 && 0.0 < c.smoothing <= 1.0
  }

  predicate InRange(c: Config, size: int) { c.minSize <= size <= c.maxSize }

  function Clamp(c: Config, size: int): int {
    var low := if c.maxSize < size then c.maxSize else size;
    if c.minSize > low then c.minSize else low
  }

  /** An explicit initial size is taken as it is, in range or not; the default one is 8, clamped. */
  function NewConfig(c: Config, initial: Option<int>): (r: Result<Config, ConfigError>)
    ensures r.Ok? <==> IsValid(c)
    ensures r.Ok? ==> IsValid(r.value) && (initial.None? ==> InRange(r.value, r.value.initialSize))
    ensures r.Ok? ==> r.value == c.(initialSize := r.value.initialSize)
    ensures r.Ok? && initial.Some? ==> r.value.initialSize == initial.value
    ensures r.Ok? && initial.None? && c.minSize <= 8 <= c.maxSize ==> r.value.initialSize == 8
    ensures r.Err? && r.error == MinTooSmall <==> c.minSize < 1
    ensures r.Err? && r.error == MaxBelowMin <==> c.maxSize < c.minSize && 1 <= c.minSize
    ensures r.Err? && r.error == WatermarksCrossed <==>
            c.highWatermark < c.lowWatermark && 1 <= c.minSize <= c.maxSize
    ensures r.Err? && r.error == BadSmoothing ==> IsValid(c.(smoothing := 1.0))
    ensures r.Err? && r.error == BadStepFraction ==> IsValid(c.(smoothing := 1.0, stepFraction := 1.0))
  {
    if c.minSize < 1 then Err(MinTooSmall)
    else if c.maxSize < c.minSize then Err(MaxBelowMin)
    else if c.lowWatermark > c.highWatermark then Err(WatermarksCrossed)
    else if !(0.0 < c.stepFraction <= 1.0) then Err(BadStepFraction)
    else if !(0.0 < c.smoothing <= 1.0) then Err(BadSmoothing)
    else Ok(c.(initialSize := if initial.Some? then initial.value else Clamp(c, 8)))
  }

  /** Rounding to the nearest integer, ties to the even one. */
  function Round(x: real): (r: int)
    ensures -0.5 <= x - r as real <= 0.5
    ensures x - r as real == 0.5 || x - r as real == -0.5 ==> r % 2 == 0
  {
    var f := x.Floor;
    var part := x - f as real;
    if part < 0.5 || (part == 0.5 && f % 2 == 0) then f else f + 1
  }

  datatype Observation = Observation(latency: real, queueDepth: int)

  datatype State = State(size: int, smoothed: Option<real>, sinceChange: nat, adjustments: nat)

  function Initial(c: Config): State { State(c.initialSize, None, 0, 0) }

  function Mix(a: real, x: real, y: real): real { a * x + (1.0 - a) * y }

  function Smoothed(c: Config, s: Option<real>, latency: real): real {
    if s.None? then latency else Mix(c.smoothing, latency, s.value)
  }

  function Direction(c: Config, smoothed: real, queueDepth: int): int {
    if queueDepth >= c.highWatermark && smoothed <= c.target then 1
    else if smoothed > c.target then -1
    else if queueDepth <= c.lowWatermark && smoothed < c.target * 0.5 then -1
    else 0
  }

  function StepSize(c: Config, size: int): int {
    var step := Round(size as real * c.stepFraction);
    if step > 1 then step else 1
  }

  function Resized(c: Config, size: int, direction: int): int {
    if direction == 0 then size else Clamp(c, size + direction * StepSize(c, size))
  }

  function Observed(c: Config, s: State, o: Observation): State {
    var smoothed := Smoothed(c, s.smoothed, o.latency);
    var size := if s.sinceChange + 1 < c.cooldown then s.size
                else Resized(c, s.size, Direction(c, smoothed, o.queueDepth));
    if size == s.size then State(size, Some(smoothed), s.sinceChange + 1, s.adjustments)
    else State(size, Some(smoothed), 0, s.adjustments + 1)
  }

  class AdaptiveBatchTuner {
    const cfg: Config
    var batchSize: int
    var smoothedLatency: Option<real>
    var batchesSinceChange: nat
    var adjustments: nat

    ghost function View(): State
      reads this
    {
      State(batchSize, smoothedLatency, batchesSinceChange, adjustments)
    }

    constructor (cfg: Config)
      ensures this.cfg == cfg && View() == Initial(cfg)
    {
      this.cfg, batchSize, smoothedLatency, batchesSinceChange, adjustments := cfg, cfg.initialSize, None, 0, 0;
    }

    method DecideDirection(queueDepth: int) returns (d: int)
      ensures d == Direction(cfg, smoothedLatency.GetOr(0.0), queueDepth)
    {
      var latency := smoothedLatency.GetOr(0.0);
      var latencyHigh, latencyLow := latency > cfg.target, latency < cfg.target * 0.5;
      var queueHigh, queueLow := queueDepth >= cfg.highWatermark, queueDepth <= cfg.lowWatermark;
      if queueHigh && !latencyHigh {
        return 1;
      }
      if latencyHigh {
        return -1;
      }
      if queueLow && latencyLow {
        return -1;
      }
      return 0;
    }

    method Observe(latency: real, queueDepth: int) returns (size: int)
      modifies this
      ensures View() == Observed(cfg, old(View()), Observation(latency, queueDepth)) && size == batchSize
    {
      if smoothedLatency.None? {
        smoothedLatency := Some(latency);
      } else {
        smoothedLatency := Some(Mix(cfg.smoothing, latency, smoothedLatency.value));
      }
      batchesSinceChange := batchesSinceChange + 1;
      if batchesSinceChange < cfg.cooldown {
        return batchSize;
      }
      var direction := DecideDirection(queueDepth);
      if direction == 0 {
        return batchSize;
      }
      var step := StepSize(cfg, batchSize);
      var newSize := Clamp(cfg, batchSize + direction * step);
      if newSize != batchSize {
        batchSize := newSize;
        adjustments := adjustments + 1;
        batchesSinceChange := 0;
      }
      return batchSize;
    }

    method Reset()
      modifies this
      ensures View() == Initial(cfg)
    {
      batchSize, smoothedLatency, batchesSinceChange, adjustments := cfg.initialSize, None, 0, 0;
    }
  }

  // ------------------------------------------------- runs of a fresh or reset tuner

  ghost predicate Moves(c: Config, os: seq<Observation>, ss: seq<State>, j: nat)
    requires j < |os| < |ss|
  {
    ss[j + 1] == Observed(c, ss[j], os[j])
  }

  /** The states before each observation, and after the last. */
  ghost predicate IsRun(c: Config, os: seq<Observation>, ss: seq<State>) {
    |ss| == |os| + 1 && ss[0] == Initial(c) && forall j :: 0 <= j < |os| ==> Moves(c, os, ss, j)
  }

  lemma {:induction false} RunExists(c: Config, os: seq<Observation>)
    ensures exists ss :: IsRun(c, os, ss)
  {
    if os == [] {
      assert IsRun(c, os, [Initial(c)]);
    } else {
      var n := |os| - 1;
      RunExists(c, os[..n]);
      var ss :| IsRun(c, os[..n], ss);
      var all := ss + [Observed(c, ss[n], os[n])];
      forall j | 0 <= j < |os|
        ensures Moves(c, os, all, j)
      {
        assert j < n ==> Moves(c, os[..n], ss, j);
      }
      assert IsRun(c, os, all);
    }
  }

  /** A fresh or reset tuner fed with observations: the sizes it answers, and its state in the end, are those of the
      run, so what is proved of runs below holds of it. */
  method ObserveAll(tuner: AdaptiveBatchTuner, os: seq<Observation>) returns (sizes: seq<int>, ghost ss: seq<State>)
    requires tuner.View() == Initial(tuner.cfg)
    modifies tuner
    ensures IsRun(tuner.cfg, os, ss) && tuner.View() == ss[|os|]
    ensures |sizes| == |os| && forall j :: 0 <= j < |os| ==> sizes[j] == ss[j + 1].size
  {
    RunExists(tuner.cfg, os);
    ss :| IsRun(tuner.cfg, os, ss);
    sizes := [];
    for i := 0 to |os|
      invariant tuner.View() == ss[i]
      invariant |sizes| == i && forall j :: 0 <= j < i ==> sizes[j] == ss[j + 1].size
    {
      assert Moves(tuner.cfg, os, ss, i);
      var size := tuner.Observe(os[i].latency, os[i].queueDepth);
      sizes := sizes + [size];
    }
  }

  /** One adjustment: away from the ends of the range it is the fraction of the size, rounded, or one if that is
      less. */
  lemma StepIsTheFraction(c: Config, size: int, d: int)
    requires IsValid(c) && size >= 0 && (d == 1 || d == -1)
    ensures c.minSize < Resized(c, size, d) < c.maxSize ==>
      var step := d * (Resized(c, size, d) - size);
      step >= 1 && (step == 1 || -0.5 <= size as real * c.stepFraction - step as real <= 0.5)
    ensures c.minSize < Resized(c, size, d) < c.maxSize && size as real * c.stepFraction > 1.5 ==>
      d * (Resized(c, size, d) - size) > 1
  {
    var step := StepSize(c, size);
    assert d * step == (if d == 1 then step else -step);
  }

  ghost predicate Changes(ss: seq<State>, j: nat)
    requires j + 1 < |ss|
  {
    ss[j + 1].size != ss[j].size
  }

  lemma ObservedSize(c: Config, s: State, o: Observation)
    requires IsValid(c)
    ensures var t := Observed(c, s, o);
            (t.size == s.size || InRange(c, t.size))
            && t.sinceChange == (if t.size == s.size then s.sinceChange + 1 else 0)
            && (t.size != s.size ==> s.sinceChange + 1 >= c.cooldown)
  {
  }

  /** The size leaves the range never, or, when the initial size lies outside it, not after the first change. */
  lemma {:induction false} SizeInRange(c: Config, os: seq<Observation>, ss: seq<State>, n: nat)
    requires IsValid(c) && IsRun(c, os, ss) && n <= |os|
    ensures InRange(c, ss[n].size) || (ss[n].size == c.initialSize && ss[n].adjustments == 0)
    ensures InRange(c, c.initialSize) ==> InRange(c, ss[n].size)
  {
    if n > 0 {
      SizeInRange(c, os, ss, n - 1);
      assert Moves(c, os, ss, n - 1);
      ObservedSize(c, ss[n - 1], os[n - 1]);
    }
  }

  /** The counter tells how many observations ago the last change was. */
  lemma {:induction false} SinceLastChange(c: Config, os: seq<Observation>, ss: seq<State>, n: nat)
    requires IsValid(c) && IsRun(c, os, ss) && n <= |os|
    ensures ss[n].sinceChange <= n
    ensures forall j :: n - ss[n].sinceChange <= j < n ==> !Changes(ss, j)
    ensures ss[n].sinceChange < n ==> Changes(ss, n - ss[n].sinceChange - 1)
  {
    if n > 0 {
      SinceLastChange(c, os, ss, n - 1);
      assert Moves(c, os, ss, n - 1);
      ObservedSize(c, ss[n - 1], os[n - 1]);
    }
  }

  function CountChanges(ss: seq<State>, n: nat): nat
    requires n < |ss|
  {
    if n == 0 then 0
    else if ss[n].size != ss[n - 1].size then CountChanges(ss, n - 1) + 1
    else CountChanges(ss, n - 1)
  }

  /** `adjustments` counts the changes. */
  lemma {:induction false} AdjustmentsCountChanges(c: Config, os: seq<Observation>, ss: seq<State>, n: nat)
    requires IsRun(c, os, ss) && n <= |os|
    ensures ss[n].adjustments == CountChanges(ss, n)
  {
    if n > 0 {
      AdjustmentsCountChanges(c, os, ss, n - 1);
      assert Moves(c, os, ss, n - 1);
    }
  }

  function Gap(c: Config): int { if c.cooldown > 1 then c.cooldown else 1 }

  /** Two changes are at least max(1, cooldown) observations apart, and so is the first from the start. */
  lemma ChangesAreApart(c: Config, os: seq<Observation>, ss: seq<State>, i: nat, j: nat)
    requires IsValid(c) && IsRun(c, os, ss) && j < |os| && Changes(ss, j)
    ensures j + 1 >= Gap(c)
    ensures i < j && Changes(ss, i) ==> j - i >= Gap(c)
  {
    SinceLastChange(c, os, ss, j);
    assert Moves(c, os, ss, j);
    ObservedSize(c, ss[j], os[j]);
  }

  lemma Blend(a: real, x: real, y: real, lo: real, hi: real)
    requires 0.0 <= a <= 1.0 && lo <= x <= hi && lo <= y <= hi
    ensures lo <= Mix(a, x, y) <= hi
  {
    var b := 1.0 - a;
    NonNegative(a, x - lo);
    NonNegative(b, y - lo);
    NonNegative(a, hi - x);
    NonNegative(b, hi - y);
    assert a * lo + b * lo == lo && a * hi + b * hi == hi;
  }

  ghost predicate LatenciesWithin(os: seq<Observation>, lo: real, hi: real) {
    forall j :: 0 <= j < |os| ==> lo <= os[j].latency <= hi
  }

  /** The smoothed latency stays within whatever bounds the latencies keep. */
  lemma {:induction false} SmoothedWithin(c: Config, os: seq<Observation>, ss: seq<State>, n: nat, lo: real, hi: real)
    requires IsValid(c) && IsRun(c, os, ss) && 0 < n <= |os| && LatenciesWithin(os, lo, hi)
    ensures ss[n].smoothed.Some? && lo <= ss[n].smoothed.value <= hi
  {
    assert Moves(c, os, ss, n - 1);
    if n > 1 {
      SmoothedWithin(c, os, ss, n - 1, lo, hi);
      Blend(c.smoothing, os[n - 1].latency, ss[n - 1].smoothed.value, lo, hi);
    }
  }

  ghost function Power(b: real, k: nat): real {
    if k == 0 then 1.0 else b * Power(b, k - 1)
  }

  /** What latency `j` of `n` weighs in the exponential average with smoothing `a`: the first one what the others
      leave, each later one `a`, fading by `1 - a` with every observation after it. */
  ghost function Share(a: real, n: nat, j: nat): real
    requires j < n
  {
    if j == 0 then Power(1.0 - a, n - 1) else a * Power(1.0 - a, n - 1 - j)
  }

  ghost function Shares(a: real, n: nat): (ws: seq<real>)
    ensures |ws| == n && forall j :: 0 <= j < n ==> ws[j] == Share(a, n, j)
  {
    seq(n, j requires 0 <= j < n => Share(a, n, j))
  }

  /** The first `m` of the latencies, each times its weight. */
  ghost function WeightedSum(ws: seq<real>, os: seq<Observation>, m: nat): real
    requires m <= |ws| && m <= |os|
  {
    if m == 0 then 0.0 else WeightedSum(ws, os, m - 1) + ws[m - 1] * os[m - 1].latency
  }

  lemma FadeTerm(b: real, sum: real, faded: real, w: real, v: real, x: real, total: real)
    requires faded == b * sum && v == b * w && total == sum + w * x
    ensures faded + v * x == b * total
  {
    assert (b * w) * x == b * (w * x);
    assert b * (sum + w * x) == b * sum + b * (w * x);
  }

  lemma {:induction false} WeightedSumFades(b: real, ws: seq<real>, vs: seq<real>, os: seq<Observation>, m: nat)
    requires m <= |ws| && m <= |vs| && m <= |os| && forall j :: 0 <= j < m ==> vs[j] == b * ws[j]
    ensures WeightedSum(vs, os, m) == b * WeightedSum(ws, os, m)
  {
    if m > 0 {
      WeightedSumFades(b, ws, vs, os, m - 1);
      FadeTerm(b, WeightedSum(ws, os, m - 1), WeightedSum(vs, os, m - 1), ws[m - 1], vs[m - 1], os[m - 1].latency,
               WeightedSum(ws, os, m));
    }
  }

  lemma ShareFades(a: real, n: nat, j: nat)
    requires j < n
    ensures Share(a, n + 1, j) == (1.0 - a) * Share(a, n, j)
  {
    if j > 0 {
      var b, p := 1.0 - a, Power(1.0 - a, n - 1 - j);
      assert Power(b, n - j) == b * p;
      assert a * (b * p) == b * (a * p);
    }
  }

  lemma SharesFade(a: real, n: nat)
    requires 0 < n
    ensures forall j :: 0 <= j < n ==> Shares(a, n + 1)[j] == (1.0 - a) * Shares(a, n)[j]
    ensures Shares(a, n + 1)[n] == a
  {
    forall j | 0 <= j < n
      ensures Shares(a, n + 1)[j] == (1.0 - a) * Shares(a, n)[j]
    {
      ShareFades(a, n, j);
    }
    assert Power(1.0 - a, 0) == 1.0;
  }

  lemma {:induction false} NewestTerm(a: real, vs: seq<real>, os: seq<Observation>, n: nat, before: real)
    requires n < |vs| && n < |os| && vs[n] == a && WeightedSum(vs, os, n) == (1.0 - a) * before
    ensures WeightedSum(vs, os, n + 1) == Mix(a, os[n].latency, before)
  {
  }

  lemma {:induction false} FadeAndAdd(a: real, os: seq<Observation>, n: nat, ws: seq<real>, vs: seq<real>)
    requires n < |os| && |ws| == n && |vs| == n + 1 && vs[n] == a
    requires forall j :: 0 <= j < n ==> vs[j] == (1.0 - a) * ws[j]
    ensures WeightedSum(vs, os, n + 1) == Mix(a, os[n].latency, WeightedSum(ws, os, n))
  {
    WeightedSumFades(1.0 - a, ws, vs, os, n);
    NewestTerm(a, vs, os, n, WeightedSum(ws, os, n));
  }

  /** One more observation: all earlier weights fade, and the new one is the smoothing. */
  lemma {:induction false} OneMoreLatency(a: real, os: seq<Observation>, n: nat)
    requires 0 < n < |os|
    ensures WeightedSum(Shares(a, n + 1), os, n + 1) == Mix(a, os[n].latency, WeightedSum(Shares(a, n), os, n))
  {
    SharesFade(a, n);
    FadeAndAdd(a, os, n, Shares(a, n), Shares(a, n + 1));
  }

  lemma {:induction false} FirstLatency(a: real, os: seq<Observation>)
    requires os != []
    ensures WeightedSum(Shares(a, 1), os, 1) == os[0].latency
  {
    var ws := Shares(a, 1);
    assert ws[0] == 1.0 && WeightedSum(ws, os, 0) == 0.0;
  }

  lemma Averaged(c: Config, os: seq<Observation>, ss: seq<State>, n: nat)
    requires IsRun(c, os, ss) && n < |os|
    ensures ss[n + 1].smoothed == Some(Smoothed(c, ss[n].smoothed, os[n].latency))
    ensures n == 0 ==> ss[n].smoothed == None
  {
    assert Moves(c, os, ss, n);
  }

  /** After n > 0 observations the smoothed latency is the sum of all latencies, each with its share: the first one
      fades by `1 - a` with every later observation, each later one enters with `a` and fades likewise. */
  lemma {:induction false} SmoothedIsWeightedSum(c: Config, os: seq<Observation>, ss: seq<State>, n: nat)
    requires IsRun(c, os, ss) && 0 < n <= |os|
    ensures ss[n].smoothed == Some(WeightedSum(Shares(c.smoothing, n), os, n))
  {
    Averaged(c, os, ss, n - 1);
    if n > 1 {
      SmoothedIsWeightedSum(c, os, ss, n - 1);
      OneMoreLatency(c.smoothing, os, n - 1);
    } else {
      FirstLatency(c.smoothing, os);
    }
  }

  // --------------------------------------------------------------- settling

  /** How far a size is from the end of the range that direction `d` leads to. */
  function Distance(c: Config, d: int, size: int): int {
    if d < 0 then size - c.minSize else c.maxSize - size
  }

  ghost predicate Pulls(c: Config, d: int, os: seq<Observation>, ss: seq<State>, j: nat)
    requires j < |os| && |ss| == |os| + 1
  {
    Direction(c, ss[j + 1].smoothed.GetOr(0.0), os[j].queueDepth) == d
  }

  lemma ResizedCloser(c: Config, d: int, size: int)
    requires IsValid(c) && InRange(c, size) && (d == 1 || d == -1)
    ensures InRange(c, Resized(c, size, d))
    ensures if Distance(c, d, size) > 0 then Distance(c, d, Resized(c, size, d)) < Distance(c, d, size)
            else Resized(c, size, d) == size
  {
  }

  lemma AtLeastOnce(k: int, gap: int)
    requires k >= 1 && gap >= 1
    ensures k * gap >= gap
  {
  }

  lemma ProgressStep(gap: int, total: int, dist: int, next: int, since: int, n: int)
    requires gap >= 1 && n <= (total - dist) * gap + since && next < dist && since + 1 <= gap
    ensures n + 1 <= (total - next) * gap
  {
    Distribute(total - dist, dist - next, gap);
    AtLeastOnce(dist - next, gap);
  }

  lemma ObservedPulled(c: Config, d: int, s: State, o: Observation)
    requires IsValid(c) && InRange(c, s.size) && (d == 1 || d == -1)
    requires Direction(c, Smoothed(c, s.smoothed, o.latency), o.queueDepth) == d
    ensures var t := Observed(c, s, o);
            && InRange(c, t.size) && Distance(c, d, t.size) <= Distance(c, d, s.size)
            && (if Distance(c, d, s.size) > 0 && s.sinceChange + 1 >= c.cooldown
                then Distance(c, d, t.size) < Distance(c, d, s.size) && t.sinceChange == 0
                else t.size == s.size && t.sinceChange == s.sinceChange + 1)
  {
    ResizedCloser(c, d, s.size);
  }

  ghost predicate Advanced(c: Config, d: int, s: State, n: nat) {
    && InRange(c, s.size)
    && Distance(c, d, s.size) <= Distance(c, d, c.initialSize)
    && (Distance(c, d, s.size) > 0 ==>
          s.sinceChange < Gap(c) &&
          n <= (Distance(c, d, c.initialSize) - Distance(c, d, s.size)) * Gap(c) + s.sinceChange)
  }

  lemma AdvancedStep(c: Config, d: int, s: State, o: Observation, n: nat)
    requires IsValid(c) && (d == 1 || d == -1) && Advanced(c, d, s, n)
    requires Direction(c, Smoothed(c, s.smoothed, o.latency), o.queueDepth) == d
    ensures Advanced(c, d, Observed(c, s, o), n + 1)
    ensures Distance(c, d, Observed(c, s, o).size) <= Distance(c, d, s.size)
  {
    var t := Observed(c, s, o);
    ObservedPulled(c, d, s, o);
    if Distance(c, d, s.size) > 0 && s.sinceChange + 1 >= c.cooldown {
      ProgressStep(Gap(c), Distance(c, d, c.initialSize), Distance(c, d, s.size), Distance(c, d, t.size),
                   s.sinceChange, n);
    }
  }

  /** While every decision is `d`, the size moves only that way and is at the end of the range after at most
      distance times max(1, cooldown) observations. */
  lemma {:induction false} SettlesWhenPulled(c: Config, d: int, os: seq<Observation>, ss: seq<State>, n: nat)
    requires IsValid(c) && IsRun(c, os, ss) && InRange(c, c.initialSize) && (d == 1 || d == -1) && n <= |os|
    requires forall j :: 0 <= j < n ==> Pulls(c, d, os, ss, j)
    ensures Advanced(c, d, ss[n], n)
    ensures n > 0 ==> Distance(c, d, ss[n].size) <= Distance(c, d, ss[n - 1].size)
  {
    if n > 0 {
      SettlesWhenPulled(c, d, os, ss, n - 1);
      assert Moves(c, os, ss, n - 1) && Pulls(c, d, os, ss, n - 1);
      AdvancedStep(c, d, ss[n - 1], os[n - 1], n - 1);
    }
  }

  /** The size after `k` changes one way. */
  function Iterated(c: Config, d: int, size: int, k: nat): int {
    if k == 0 then size else Resized(c, Iterated(c, d, size, k - 1), d)
  }

  lemma {:induction false} IteratedInRange(c: Config, d: int, size: int, k: nat)
    requires IsValid(c) && InRange(c, size) && (d == 1 || d == -1)
    ensures InRange(c, Iterated(c, d, size, k))
  {
    if k > 0 {
      IteratedInRange(c, d, size, k - 1);
      ResizedCloser(c, d, Iterated(c, d, size, k - 1));
    }
  }

  /** After `q` changes, and `r` observations since the last. */
  ghost predicate OnSchedule(c: Config, d: int, s: State, q: nat, r: int) {
    && InRange(c, s.size) && 0 <= r < Gap(c) && s.size == Iterated(c, d, c.initialSize, q)
    && (Distance(c, d, s.size) > 0 ==> s.sinceChange == r)
  }

  lemma ScheduleStep(c: Config, d: int, s: State, o: Observation, q: nat, r: int)
    requires IsValid(c) && (d == 1 || d == -1) && OnSchedule(c, d, s, q, r)
    requires Direction(c, Smoothed(c, s.smoothed, o.latency), o.queueDepth) == d
    ensures if r == Gap(c) - 1 then OnSchedule(c, d, Observed(c, s, o), q + 1, 0)
            else OnSchedule(c, d, Observed(c, s, o), q, r + 1)
  {
    ObservedPulled(c, d, s, o);
    ResizedCloser(c, d, s.size);
  }

  lemma MulPred(q: int, gap: int)
    ensures (q - 1) * gap == q * gap - gap
  {
    Distribute(q - 1, 1, gap);
  }

  lemma DivMod(n: nat, gap: int)
    requires gap >= 1
    ensures n == (n / gap) * gap + n % gap && 0 <= n % gap < gap && 0 <= n / gap
  {
  }

  /** While every decision is `d`, the changes come every max(1, cooldown) observations, each the configured step, until
      the end of the range. */
  lemma {:induction false} PulledSizes(
    c: Config, d: int, os: seq<Observation>, ss: seq<State>, n: nat, q: nat, r: int)
    requires IsValid(c) && IsRun(c, os, ss) && InRange(c, c.initialSize) && (d == 1 || d == -1) && n <= |os|
    requires forall j :: 0 <= j < n ==> Pulls(c, d, os, ss, j)
    requires n == q * Gap(c) + r && 0 <= r < Gap(c)
    ensures OnSchedule(c, d, ss[n], q, r)
    decreases n
  {
    if n > 0 {
      assert Moves(c, os, ss, n - 1) && Pulls(c, d, os, ss, n - 1);
      if r > 0 {
        PulledSizes(c, d, os, ss, n - 1, q, r - 1);
        ScheduleStep(c, d, ss[n - 1], os[n - 1], q, r - 1);
      } else {
        MulPred(q, Gap(c));
        PulledSizes(c, d, os, ss, n - 1, q - 1, Gap(c) - 1);
        ScheduleStep(c, d, ss[n - 1], os[n - 1], q - 1, Gap(c) - 1);
      }
    } else if q > 0 {
      AtLeastOnce(q, Gap(c));
    }
  }

  /** The geometric curve the size follows: at most half a unit is lost to rounding at every step. */
  ghost function Curve(c: Config, d: int, k: nat): real
    requires c.stepFraction > 0.0
  {
    var rest := 0.5 / c.stepFraction;
    rest + Power(if d < 0 then 1.0 - c.stepFraction else 1.0 + c.stepFraction, k) * (c.initialSize as real - rest)
  }

  /** `x` is as far as `y` in direction `d`. */
  ghost predicate AsFar(d: int, x: real, y: real) { if d < 0 then x <= y else x >= y }

  function Onward(c: Config, d: int, y: real): real {
    if d < 0 then y - y * c.stepFraction + 0.5 else y + y * c.stepFraction - 0.5
  }

  lemma CurveStep(c: Config, d: int, k: nat)
    requires c.stepFraction > 0.0
    ensures Curve(c, d, k + 1) == Onward(c, d, Curve(c, d, k))
  {
    var f, rest := c.stepFraction, 0.5 / c.stepFraction;
    var b, far := if d < 0 then 1.0 - f else 1.0 + f, c.initialSize as real - rest;
    var p := Power(b, k);
    assert Power(b, k + 1) * far == b * (p * far);
    assert rest * f == 0.5;
    assert (rest + p * far) * f == rest * f + (p * far) * f;
  }

  lemma OnwardMonotone(c: Config, d: int, x: real, y: real)
    requires IsValid(c) && AsFar(d, x, y)
    ensures AsFar(d, Onward(c, d, x), Onward(c, d, y))
  {
    if d < 0 {
      NonNegative(1.0 - c.stepFraction, y - x);
    } else {
      NonNegative(1.0 + c.stepFraction, x - y);
    }
  }

  lemma ResizedFar(c: Config, d: int, size: int)
    requires IsValid(c) && InRange(c, size) && (d == 1 || d == -1)
    ensures var next := Resized(c, size, d);
            Distance(c, d, next) == 0 || AsFar(d, next as real, Onward(c, d, size as real))
  {
    var step := StepSize(c, size);
    assert d * step == (if d == 1 then step else -step);
  }

  ghost predicate OnCurve(c: Config, d: int, k: nat, size: int)
    requires IsValid(c)
  {
    Distance(c, d, size) == 0 || AsFar(d, size as real, Curve(c, d, k))
  }

  lemma OnCurveStep(c: Config, d: int, k: nat, size: int)
    requires IsValid(c) && InRange(c, size) && (d == 1 || d == -1) && OnCurve(c, d, k, size)
    ensures OnCurve(c, d, k + 1, Resized(c, size, d))
  {
    ResizedCloser(c, d, size);
    if Distance(c, d, size) > 0 {
      ResizedFar(c, d, size);
      CurveStep(c, d, k);
      OnwardMonotone(c, d, size as real, Curve(c, d, k));
    }
  }

  /** The size follows the geometric curve until it is at the end of the range, whatever is rounded on the way. */
  lemma {:induction false} SizeFollowsCurve(c: Config, d: int, k: nat)
    requires IsValid(c) && InRange(c, c.initialSize) && (d == 1 || d == -1)
    ensures OnCurve(c, d, k, Iterated(c, d, c.initialSize, k))
  {
    if k > 0 {
      SizeFollowsCurve(c, d, k - 1);
      IteratedInRange(c, d, c.initialSize, k - 1);
      OnCurveStep(c, d, k - 1, Iterated(c, d, c.initialSize, k - 1));
    }
  }

  lemma {:induction false} CloserByOne(c: Config, d: int, k: nat, more: nat)
    requires IsValid(c) && InRange(c, c.initialSize) && (d == 1 || d == -1)
    ensures var now, later := Iterated(c, d, c.initialSize, k), Iterated(c, d, c.initialSize, k + more);
            Distance(c, d, later) == 0 || Distance(c, d, later) + more <= Distance(c, d, now)
  {
    if more > 0 {
      CloserByOne(c, d, k, more - 1);
      IteratedInRange(c, d, c.initialSize, k + more - 1);
      ResizedCloser(c, d, Iterated(c, d, c.initialSize, k + more - 1));
    }
  }

  /** The end of the range as a number. */
  function End(c: Config, d: int): int { if d < 0 then c.minSize else c.maxSize }

  lemma EndAfter(c: Config, d: int, k: nat, more: nat)
    requires IsValid(c) && InRange(c, c.initialSize) && (d == 1 || d == -1)
    requires AsFar(d, Curve(c, d, k) + d as real * more as real, End(c, d) as real)
    ensures Distance(c, d, Iterated(c, d, c.initialSize, k + more)) == 0
  {
    SizeFollowsCurve(c, d, k);
    IteratedInRange(c, d, c.initialSize, k);
    IteratedInRange(c, d, c.initialSize, k + more);
    CloserByOne(c, d, k, more);
  }

  /** While every decision is `d`, the size follows the geometric curve, with one change per max(1, cooldown)
      observations, or is at the end of the range; and it is at the end once the curve up to some change `k`, and one
      unit per change from there, lead that far. */
  lemma SettlesGeometrically(c: Config, d: int, os: seq<Observation>, ss: seq<State>, n: nat, k: nat)
    requires IsValid(c) && IsRun(c, os, ss) && InRange(c, c.initialSize) && (d == 1 || d == -1) && n <= |os|
    requires forall j :: 0 <= j < n ==> Pulls(c, d, os, ss, j)
    ensures ss[n].size == End(c, d) || AsFar(d, ss[n].size as real, Curve(c, d, n / Gap(c)))
    ensures k <= n / Gap(c) && AsFar(d, Curve(c, d, k) + d as real * (n / Gap(c) - k) as real, End(c, d) as real) ==>
              ss[n].size == End(c, d)
  {
    var q := n / Gap(c);
    DivMod(n, Gap(c));
    PulledSizes(c, d, os, ss, n, q, n % Gap(c));
    SizeFollowsCurve(c, d, q);
    if k <= q && AsFar(d, Curve(c, d, k) + d as real * (q - k) as real, End(c, d) as real) {
      EndAfter(c, d, k, q - k);
    }
  }

  lemma AdvancedIsDone(gap: int, total: int, dist: int, since: int, n: int)
    requires gap >= 1 && dist >= 1 && since < gap && n <= (total - dist) * gap + since
    ensures n < total * gap
  {
    Distribute(total - dist, dist, gap);
    AtLeastOnce(dist, gap);
  }

  lemma SettledAfter(c: Config, d: int, s: State, n: nat)
    requires Advanced(c, d, s, n) && n >= Distance(c, d, c.initialSize) * Gap(c)
    ensures Distance(c, d, s.size) == 0
  {
    if Distance(c, d, s.size) > 0 {
      AdvancedIsDone(Gap(c), Distance(c, d, c.initialSize), Distance(c, d, s.size), s.sinceChange, n);
    }
  }

  /** With every latency over the target the size never grows, and is the minimum after at most
      (initial - min) * max(1, cooldown) observations. */
  lemma SlowRunsShrinkToMin(c: Config, os: seq<Observation>, ss: seq<State>, n: nat)
    requires IsValid(c) && IsRun(c, os, ss) && InRange(c, c.initialSize) && n <= |os|
    requires forall j :: 0 <= j < |os| ==> os[j].latency > c.target
    ensures n > 0 ==> ss[n].size <= ss[n - 1].size
    ensures n >= (c.initialSize - c.minSize) * Gap(c) ==> ss[n].size == c.minSize
  {
    forall j | 0 <= j < n
      ensures Pulls(c, -1, os, ss, j)
    {
      SmoothedOver(c, os, ss, j + 1);
    }
    SettlesWhenPulled(c, -1, os, ss, n);
    if n >= (c.initialSize - c.minSize) * Gap(c) { SettledAfter(c, -1, ss[n], n); }
  }

  lemma BlendOver(a: real, x: real, y: real, t: real)
    requires 0.0 < a <= 1.0 && x > t && y > t
    ensures Mix(a, x, y) > t
  {
    var b := 1.0 - a;
    assert a * (x - t) > 0.0 && b * (y - t) >= 0.0;
    assert a * t + b * t == t;
  }

  lemma {:induction false} SmoothedOver(c: Config, os: seq<Observation>, ss: seq<State>, n: nat)
    requires IsValid(c) && IsRun(c, os, ss) && 0 < n <= |os|
    requires forall j :: 0 <= j < |os| ==> os[j].latency > c.target
    ensures ss[n].smoothed.Some? && ss[n].smoothed.value > c.target
  {
    assert Moves(c, os, ss, n - 1);
    if n > 1 {
      SmoothedOver(c, os, ss, n - 1);
      BlendOver(c.smoothing, os[n - 1].latency, ss[n - 1].smoothed.value, c.target);
    }
  }

  /** With every latency within the target and the queue always saturated the size never shrinks, and is the maximum
      after at most (max - initial) * max(1, cooldown) observations. */
  lemma SaturatedRunsGrowToMax(c: Config, os: seq<Observation>, ss: seq<State>, n: nat, lo: real)
    requires IsValid(c) && IsRun(c, os, ss) && InRange(c, c.initialSize) && n <= |os|
    requires LatenciesWithin(os, lo, c.target)
    requires forall j :: 0 <= j < |os| ==> os[j].queueDepth >= c.highWatermark
    ensures n > 0 ==> ss[n].size >= ss[n - 1].size
    ensures n >= (c.maxSize - c.initialSize) * Gap(c) ==> ss[n].size == c.maxSize
  {
    forall j | 0 <= j < n
      ensures Pulls(c, 1, os, ss, j)
    {
      SmoothedWithin(c, os, ss, j + 1, lo, c.target);
    }
    SettlesWhenPulled(c, 1, os, ss, n);
    if n >= (c.maxSize - c.initialSize) * Gap(c) { SettledAfter(c, 1, ss[n], n); }
  }

  lemma {:induction false} SmoothedUnder(
    c: Config, os: seq<Observation>, ss: seq<State>, n: nat, t: real)
    requires IsValid(c) && IsRun(c, os, ss) && 0 < n <= |os|
    requires forall j :: 0 <= j < |os| ==> os[j].latency < t
    ensures ss[n].smoothed.Some? && ss[n].smoothed.value < t
  {
    assert Moves(c, os, ss, n - 1);
    if n > 1 {
      SmoothedUnder(c, os, ss, n - 1, t);
      BlendUnder(c.smoothing, os[n - 1].latency, ss[n - 1].smoothed.value, t);
    }
  }

  lemma BlendUnder(a: real, x: real, y: real, t: real)
    requires 0.0 < a <= 1.0 && x < t && y < t
    ensures Mix(a, x, y) < t
  {
    var b := 1.0 - a;
    assert a * (t - x) > 0.0 && b * (t - y) >= 0.0;
    assert a * t + b * t == t;
  }

  /** With every latency under half the target and the queue always starved, and not also saturated, which equal
      watermarks allow, the size shrinks to the minimum too. */
  lemma StarvedRunsShrinkToMin(c: Config, os: seq<Observation>, ss: seq<State>, n: nat)
    requires IsValid(c) && IsRun(c, os, ss) && InRange(c, c.initialSize) && n <= |os|
    requires forall j :: 0 <= j < |os| ==> os[j].latency < c.target * 0.5
    requires forall j :: 0 <= j < |os| ==> os[j].queueDepth <= c.lowWatermark && os[j].queueDepth < c.highWatermark
    ensures n > 0 ==> ss[n].size <= ss[n - 1].size
    ensures n >= (c.initialSize - c.minSize) * Gap(c) ==> ss[n].size == c.minSize
  {
    forall j | 0 <= j < n
      ensures Pulls(c, -1, os, ss, j)
    {
      SmoothedUnder(c, os, ss, j + 1, c.target * 0.5);
    }
    SettlesWhenPulled(c, -1, os, ss, n);
    if n >= (c.initialSize - c.minSize) * Gap(c) { SettledAfter(c, -1, ss[n], n); }
  }

  /** With latencies within the target and a queue between the watermarks, however low the latencies are, nothing
      changes either. */
  lemma {:induction false} QuietQueueHolds(c: Config, os: seq<Observation>, ss: seq<State>, n: nat, lo: real)
    requires IsValid(c) && IsRun(c, os, ss) && n <= |os| && LatenciesWithin(os, lo, c.target)
    requires forall j :: 0 <= j < |os| ==> c.lowWatermark < os[j].queueDepth < c.highWatermark
    ensures ss[n].size == c.initialSize && ss[n].adjustments == 0
  {
    if n > 0 {
      QuietQueueHolds(c, os, ss, n - 1, lo);
      SmoothedWithin(c, os, ss, n, lo, c.target);
      assert Moves(c, os, ss, n - 1);
    }
  }

  /** In the dead zone, with latencies from half the target to the target and an unsaturated queue, nothing changes. */
  lemma {:induction false} DeadZoneHolds(c: Config, os: seq<Observation>, ss: seq<State>, n: nat)
    requires IsValid(c) && IsRun(c, os, ss) && n <= |os|
    requires LatenciesWithin(os, c.target * 0.5, c.target)
    requires forall j :: 0 <= j < |os| ==> os[j].queueDepth < c.highWatermark
    ensures ss[n].size == c.initialSize && ss[n].adjustments == 0
  {
    if n > 0 {
      DeadZoneHolds(c, os, ss, n - 1);
      SmoothedWithin(c, os, ss, n, c.target * 0.5, c.target);
      assert Moves(c, os, ss, n - 1);
    }
  }
}
