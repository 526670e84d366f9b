/** Interval bound propagation (detection/certified_robustness.py).

    Floats are exact reals.  A batch-norm layer carries the square root of its
    shifted variance as `std`, tied to `variance` and `eps` by `WellShaped`. */
module CertifiedRobustness {
  import opened Common

  type Vec = seq<real>

  datatype Layer =
    | Linear(W: seq<Vec>, b: Vec)
    | Relu
    | BatchNorm(gamma: Vec, beta: Vec, mean: Vec, variance: Vec, eps: Option<real>, std: Vec)
    | Unsupported(kind: string)

  datatype Box = Box(lo: Vec, hi: Vec)

  const DEFAULT_EPS := 0.00001

  // ---------------------------------------------------------------- vectors

  function Dot(w: Vec, x: Vec): real
    requires |w| == |x|
  {
    if w == [] then 0.0 else w[0] * x[0] + Dot(w[1..], x[1..])
  }

  function PosPart(w: Vec): (p: Vec)
    ensures |p| == |w|
  {
    seq(|w|, i requires 0 <= i < |w| => Max(w[i], 0.0))
  }

  function NegPart(w: Vec): (p: Vec)
    ensures |p| == |w|
  {
    seq(|w|, i requires 0 <= i < |w| => Min(w[i], 0.0))
  }

  function Total(v: Vec): real {
    if v == [] then 0.0 else v[0] + Total(v[1..])
  }

  function Mean(v: Vec): real
    requires v != []
  {
    Total(v) / |v| as real
  }

  ghost predicate Leq(a: Vec, b: Vec) {
    |a| == |b| && forall i :: 0 <= i < |a| ==> a[i] <= b[i]
  }

  ghost predicate Inside(x: Vec, box: Box) {
    Leq(box.lo, x) && Leq(x, box.hi)
  }

  ghost predicate Nested(inner: Box, outer: Box) {
    Leq(outer.lo, inner.lo) && Leq(inner.hi, outer.hi)
  }

  /** The L-infinity ball: every coordinate of `y` is within `radius` of `x`. */
  ghost predicate Near(x: Vec, y: Vec, radius: real) {
    |x| == |y| && forall i :: 0 <= i < |x| ==> -radius <= y[i] - x[i] <= radius
  }

  // ----------------------------------------------------------- the network

  ghost predicate LayerShaped(layer: Layer, dim: nat) {
    match layer
    case Linear(W, b) => |W| == |b| && forall i :: 0 <= i < |W| ==> |W[i]| == dim
    case Relu => true
    case BatchNorm(gamma, beta, mean, variance, eps, std) =>
      && |gamma| == dim && |beta| == dim && |mean| == dim && |variance| == dim && |std| == dim
      && forall i :: 0 <= i < dim ==>
           std[i] > 0.0 && std[i] * std[i] == variance[i] + (if eps.Some? then eps.value else DEFAULT_EPS)
    case Unsupported(_) => true
  }

  function OutDim(layer: Layer, dim: nat): nat {
    if layer.Linear? then |layer.W| else dim
  }

  /** The shapes fit, up to the first layer whose type is not supported. */
  ghost predicate WellShaped(layers: seq<Layer>, dim: nat) {
    layers == [] ||
    (LayerShaped(layers[0], dim) &&
     (layers[0].Unsupported? || WellShaped(layers[1..], OutDim(layers[0], dim))))
  }

  ghost predicate Supported(layers: seq<Layer>) {
    forall i :: 0 <= i < |layers| ==> !layers[i].Unsupported?
  }

  /** What a layer computes on one concrete input. */
  ghost function Apply(layer: Layer, x: Vec): (y: Vec)
    requires LayerShaped(layer, |x|) && !layer.Unsupported?
    ensures |y| == OutDim(layer, |x|)
  {
    match layer
    case Linear(W, b) => seq(|W|, i requires 0 <= i < |W| => Dot(W[i], x) + b[i])
    case Relu => seq(|x|, i requires 0 <= i < |x| => Max(x[i], 0.0))
    case BatchNorm(gamma, beta, mean, variance, eps, std) =>
      seq(|x|, i requires 0 <= i < |x| => gamma[i] * (x[i] - mean[i]) / std[i] + beta[i])
  }

  ghost function Eval(layers: seq<Layer>, x: Vec): Vec
    requires WellShaped(layers, |x|) && Supported(layers)
  {
    if layers == [] then x else Eval(layers[1..], Apply(layers[0], x))
  }

  // ------------------------------------------------------ interval versions

  function IbpLinear(box: Box, W: seq<Vec>, b: Vec): Box
    requires |box.lo| == |box.hi| && LayerShaped(Linear(W, b), |box.lo|)
  {
    Box(seq(|W|, i requires 0 <= i < |W| => Dot(PosPart(W[i]), box.lo) + Dot(NegPart(W[i]), box.hi) + b[i]),
        seq(|W|, i requires 0 <= i < |W| => Dot(PosPart(W[i]), box.hi) + Dot(NegPart(W[i]), box.lo) + b[i]))
  }

  function IbpRelu(box: Box): Box {
    Box(seq(|box.lo|, i requires 0 <= i < |box.lo| => Max(box.lo[i], 0.0)),
        seq(|box.hi|, i requires 0 <= i < |box.hi| => Max(box.hi[i], 0.0)))
  }

  function IbpBatchNorm(box: Box, layer: Layer): Box
    requires |box.lo| == |box.hi| && layer.BatchNorm? && LayerShaped(layer, |box.lo|)
  {
    var scale := seq(|box.lo|, i requires 0 <= i < |box.lo| => layer.gamma[i] / layer.std[i]);
    var bias := seq(|box.lo|, i requires 0 <= i < |box.lo| => layer.beta[i] - scale[i] * layer.mean[i]);
    Box(seq(|box.lo|, i requires 0 <= i < |box.lo| =>
              if scale[i] >= 0.0 then scale[i] * box.lo[i] + bias[i] else scale[i] * box.hi[i] + bias[i]),
        seq(|box.lo|, i requires 0 <= i < |box.lo| =>
              if scale[i] >= 0.0 then scale[i] * box.hi[i] + bias[i] else scale[i] * box.lo[i] + bias[i]))
  }

  function IbpLayer(layer: Layer, box: Box): (r: Box)
    requires |box.lo| == |box.hi| && LayerShaped(layer, |box.lo|) && !layer.Unsupported?
    ensures |r.lo| == |r.hi| == OutDim(layer, |box.lo|)
  {
    match layer
    case Linear(W, b) => IbpLinear(box, W, b)
    case Relu => IbpRelu(box)
    case BatchNorm(_, _, _, _, _, _) => IbpBatchNorm(box, layer)
  }

  function IbpLayers(layers: seq<Layer>, box: Box): (r: Result<Box, string>)
    requires |box.lo| == |box.hi| && WellShaped(layers, |box.lo|)
    ensures r.Ok? ==> |r.value.lo| == |r.value.hi|
    ensures r.Ok? <==> Supported(layers)
  {
    if layers == [] then Ok(box)
    else if layers[0].Unsupported? then Err(layers[0].kind)
    else
      assert layers == [layers[0]] + layers[1..];
      IbpLayers(layers[1..], IbpLayer(layers[0], box))
  }

  function Ball(x: Vec, epsilon: real): (box: Box)
    ensures |box.lo| == |box.hi| == |x|
  {
    Box(seq(|x|, i requires 0 <= i < |x| => x[i] - epsilon), seq(|x|, i requires 0 <= i < |x| => x[i] + epsilon))
  }

  /** `_propagate`: the box of the ball around `x`, or the first layer type that is not supported. */
  method Propagate(x: Vec, epsilon: real, layers: seq<Layer>) returns (r: Result<Box, string>)
    requires WellShaped(layers, |x|)
    ensures r == IbpLayers(layers, Ball(x, epsilon))
  {
    var box := Ball(x, epsilon);
    var i := 0;
    while i < |layers|
      invariant 0 <= i <= |layers|
      invariant |box.lo| == |box.hi| && WellShaped(layers[i..], |box.lo|)
      invariant IbpLayers(layers[i..], box) == IbpLayers(layers, Ball(x, epsilon))
    {
      assert layers[i..][1..] == layers[i + 1..];
      if layers[i].Unsupported? {
        return Err(layers[i].kind);
      }
      box := IbpLayer(layers[i], box);
      i := i + 1;
    }
    return Ok(box);
  }

  lemma {:induction false} FirstUnsupported(layers: seq<Layer>, box: Box) returns (i: nat)
    requires |box.lo| == |box.hi| && WellShaped(layers, |box.lo|) && !Supported(layers)
    ensures i < |layers| && Supported(layers[..i])
    ensures layers[i].Unsupported? && IbpLayers(layers, box) == Err(layers[i].kind)
  {
    if layers[0].Unsupported? {
      i := 0;
    } else {
      var rest := layers[1..];
      assert layers == [layers[0]] + rest;
      var j := FirstUnsupported(rest, IbpLayer(layers[0], box));
      i := j + 1;
      assert layers[..i] == [layers[0]] + rest[..j];
    }
  }

  // --------------------------------------------------- one layer, both ways

  /** One weight against an interval: a positive weight takes `a`, a negative one `b`. */
  function Term(w: real, a: real, b: real): real { Max(w, 0.0) * a + Min(w, 0.0) * b }

  /** A row of weights, its positive part against `a` and its negative part against `b`. */
  ghost function Form(w: Vec, a: Vec, b: Vec): real
    requires |w| == |a| == |b|
  {
    if w == [] then 0.0 else Term(w[0], a[0], b[0]) + Form(w[1..], a[1..], b[1..])
  }

  lemma {:induction false} FormIsDots(w: Vec, a: Vec, b: Vec)
    requires |w| == |a| == |b|
    ensures Form(w, a, b) == Dot(PosPart(w), a) + Dot(NegPart(w), b)
  {
    if w != [] {
      FormIsDots(w[1..], a[1..], b[1..]);
      assert PosPart(w)[1..] == PosPart(w[1..]) && NegPart(w)[1..] == NegPart(w[1..]);
    }
  }

  lemma TermBounds(w: real, x: real, lo: real, hi: real)
    requires lo <= x <= hi
    ensures Term(w, lo, hi) <= w * x <= Term(w, hi, lo)
  {
    if w >= 0.0 {
      assert w * lo <= w * x <= w * hi;
    } else {
      assert w * hi <= w * x <= w * lo;
    }
  }

  lemma {:induction false} FormBounds(w: Vec, x: Vec, lo: Vec, hi: Vec)
    requires |w| == |x| && Leq(lo, x) && Leq(x, hi)
    ensures Form(w, lo, hi) <= Dot(w, x) <= Form(w, hi, lo)
  {
    if w != [] {
      FormBounds(w[1..], x[1..], lo[1..], hi[1..]);
      TermBounds(w[0], x[0], lo[0], hi[0]);
    }
  }

  lemma DotBounds(w: Vec, x: Vec, lo: Vec, hi: Vec)
    requires |w| == |x| && Leq(lo, x) && Leq(x, hi)
    ensures Dot(PosPart(w), lo) + Dot(NegPart(w), hi) <= Dot(w, x) <= Dot(PosPart(w), hi) + Dot(NegPart(w), lo)
  {
    FormBounds(w, x, lo, hi);
    FormIsDots(w, lo, hi);
    FormIsDots(w, hi, lo);
  }

  /** The corner of the box at which a linear form is smallest (`low`) or largest. */
  ghost function Corner(w: Vec, box: Box, low: bool): (x: Vec)
    requires |box.lo| == |box.hi| == |w|
    ensures |x| == |w|
  {
    seq(|w|, i requires 0 <= i < |w| => if (w[i] >= 0.0) == low then box.lo[i] else box.hi[i])
  }

  lemma TermAttains(w: real, lo: real, hi: real)
    ensures w * (if w >= 0.0 then lo else hi) == Term(w, lo, hi)
    ensures w * (if w >= 0.0 then hi else lo) == Term(w, hi, lo)
  {
  }

  lemma {:induction false} CornerForm(w: Vec, box: Box, low: bool)
    requires |box.lo| == |box.hi| == |w|
    ensures Dot(w, Corner(w, box, low)) == if low then Form(w, box.lo, box.hi) else Form(w, box.hi, box.lo)
  {
    if w != [] {
      var rest := Box(box.lo[1..], box.hi[1..]);
      CornerForm(w[1..], rest, low);
      assert Corner(w, box, low)[1..] == Corner(w[1..], rest, low);
      TermAttains(w[0], box.lo[0], box.hi[0]);
    }
  }

  lemma CornerAttains(w: Vec, box: Box)
    requires |box.lo| == |box.hi| == |w|
    ensures Dot(w, Corner(w, box, true)) == Dot(PosPart(w), box.lo) + Dot(NegPart(w), box.hi)
    ensures Dot(w, Corner(w, box, false)) == Dot(PosPart(w), box.hi) + Dot(NegPart(w), box.lo)
  {
    CornerForm(w, box, true);
    CornerForm(w, box, false);
    FormIsDots(w, box.lo, box.hi);
    FormIsDots(w, box.hi, box.lo);
  }

  lemma AffineForm(gamma: real, x: real, mean: real, std: real, beta: real)
    requires std > 0.0
    ensures gamma * (x - mean) / std + beta == (gamma / std) * x + (beta - (gamma / std) * mean)
  {
    var s := gamma / std;
    assert gamma == s * std;
    assert gamma * (x - mean) == (s * (x - mean)) * std;
  }

  lemma ScaleBounds(s: real, x: real, lo: real, hi: real)
    requires lo <= x <= hi
    ensures s >= 0.0 ==> s * lo <= s * x <= s * hi
    ensures s < 0.0 ==> s * hi <= s * x <= s * lo
  {
  }

  /** One coordinate of a batch-norm layer: the sign of the scale decides which end becomes which bound. */
  lemma ScaledCoordinate(gamma: real, x: real, mean: real, std: real, beta: real, lo: real, hi: real)
    requires std > 0.0 && lo <= x <= hi
    ensures var scale := gamma / std;
            var bias := beta - scale * mean;
            var y := gamma * (x - mean) / std + beta;
            if scale >= 0.0 then scale * lo + bias <= y <= scale * hi + bias
            else scale * hi + bias <= y <= scale * lo + bias
  {
    AffineForm(gamma, x, mean, std, beta);
    ScaleBounds(gamma / std, x, lo, hi);
  }

  lemma LinearSound(W: seq<Vec>, b: Vec, x: Vec, box: Box)
    requires LayerShaped(Linear(W, b), |x|) && Inside(x, box)
    ensures Inside(Apply(Linear(W, b), x), IbpLinear(box, W, b))
  {
    forall i | 0 <= i < |W|
      ensures IbpLinear(box, W, b).lo[i] <= Apply(Linear(W, b), x)[i] <= IbpLinear(box, W, b).hi[i]
    {
      DotBounds(W[i], x, box.lo, box.hi);
    }
  }

  lemma BatchNormSound(layer: Layer, x: Vec, box: Box)
    requires layer.BatchNorm? && LayerShaped(layer, |x|) && Inside(x, box)
    ensures Inside(Apply(layer, x), IbpBatchNorm(box, layer))
  {
    forall i | 0 <= i < |x|
      ensures IbpBatchNorm(box, layer).lo[i] <= Apply(layer, x)[i] <= IbpBatchNorm(box, layer).hi[i]
    {
      ScaledCoordinate(layer.gamma[i], x[i], layer.mean[i], layer.std[i], layer.beta[i], box.lo[i], box.hi[i]);
    }
  }

  /** One layer maps every point of a box into the box of that layer. */
  lemma LayerSound(layer: Layer, x: Vec, box: Box)
    requires LayerShaped(layer, |x|) && !layer.Unsupported? && Inside(x, box)
    ensures Inside(Apply(layer, x), IbpLayer(layer, box))
  {
    match layer
    case Linear(W, b) => LinearSound(W, b, x, box);
    case Relu =>
    case BatchNorm(_, _, _, _, _, _) => BatchNormSound(layer, x, box);
  }

  /** Every bound of a layer's box is reached by some point of the input box,
      so no smaller box is sound for that layer. */
  lemma LayerTight(layer: Layer, box: Box, i: nat) returns (p: Vec, q: Vec)
    requires Leq(box.lo, box.hi) && LayerShaped(layer, |box.lo|) && !layer.Unsupported?
    requires i < OutDim(layer, |box.lo|)
    ensures Inside(p, box) && Apply(layer, p)[i] == IbpLayer(layer, box).lo[i]
    ensures Inside(q, box) && Apply(layer, q)[i] == IbpLayer(layer, box).hi[i]
  {
    match layer
    case Linear(W, b) =>
      p, q := Corner(W[i], box, true), Corner(W[i], box, false);
      CornerAttains(W[i], box);
    case Relu =>
      p, q := box.lo, box.hi;
    case BatchNorm(_, _, _, _, _, _) =>
      p, q := BatchNormTight(layer, box, i);
  }

  lemma BatchNormTight(layer: Layer, box: Box, i: nat) returns (p: Vec, q: Vec)
    requires Leq(box.lo, box.hi) && layer.BatchNorm? && LayerShaped(layer, |box.lo|) && i < |box.lo|
    ensures Inside(p, box) && Apply(layer, p)[i] == IbpBatchNorm(box, layer).lo[i]
    ensures Inside(q, box) && Apply(layer, q)[i] == IbpBatchNorm(box, layer).hi[i]
  {
    p, q := box.lo, box.hi;
    if layer.gamma[i] / layer.std[i] < 0.0 {
      p, q := q, p;
    }
    AffineForm(layer.gamma[i], p[i], layer.mean[i], layer.std[i], layer.beta[i]);
    AffineForm(layer.gamma[i], q[i], layer.mean[i], layer.std[i], layer.beta[i]);
  }

  /** A smaller input box gives a smaller output box: both its corners lie inside, for every coordinate. */
  lemma LayerMonotone(layer: Layer, inner: Box, outer: Box)
    requires Leq(inner.lo, inner.hi) && Nested(inner, outer)
    requires LayerShaped(layer, |inner.lo|) && !layer.Unsupported?
    ensures Nested(IbpLayer(layer, inner), IbpLayer(layer, outer))
    ensures Leq(IbpLayer(layer, inner).lo, IbpLayer(layer, inner).hi)
  {
    var small, large := IbpLayer(layer, inner), IbpLayer(layer, outer);
    forall i | 0 <= i < |small.lo|
      ensures large.lo[i] <= small.lo[i] <= small.hi[i] <= large.hi[i]
    {
      var p, q := LayerTight(layer, inner, i);
      LayerSound(layer, p, outer);
      LayerSound(layer, q, outer);
      LayerSound(layer, p, inner);
    }
  }

  // -------------------------------------------------------- whole networks

  lemma {:induction false} NetworkSound(layers: seq<Layer>, x: Vec, box: Box)
    requires WellShaped(layers, |x|) && Supported(layers) && Inside(x, box)
    ensures Inside(Eval(layers, x), IbpLayers(layers, box).value)
  {
    if layers != [] {
      LayerSound(layers[0], x, box);
      NetworkSound(layers[1..], Apply(layers[0], x), IbpLayer(layers[0], box));
    }
  }

  lemma {:induction false} NetworkMonotone(layers: seq<Layer>, inner: Box, outer: Box)
    requires Leq(inner.lo, inner.hi) && Nested(inner, outer)
    requires WellShaped(layers, |inner.lo|) && Supported(layers)
    ensures Nested(IbpLayers(layers, inner).value, IbpLayers(layers, outer).value)
  {
    if layers != [] {
      LayerMonotone(layers[0], inner, outer);
      NetworkMonotone(layers[1..], IbpLayer(layers[0], inner), IbpLayer(layers[0], outer));
    }
  }

  /** Every perturbation of at most `epsilon` keeps the output inside the propagated box. */
  lemma PropagationSound(layers: seq<Layer>, x: Vec, epsilon: real, y: Vec)
    requires WellShaped(layers, |x|) && Supported(layers) && Near(x, y, epsilon)
    ensures Inside(Eval(layers, y), IbpLayers(layers, Ball(x, epsilon)).value)
  {
    NetworkSound(layers, y, Ball(x, epsilon));
  }

  lemma RadiusMonotone(layers: seq<Layer>, x: Vec, e1: real, e2: real)
    requires 0.0 <= e1 <= e2 && WellShaped(layers, |x|) && Supported(layers)
    ensures Nested(IbpLayers(layers, Ball(x, e1)).value, IbpLayers(layers, Ball(x, e2)).value)
  {
    NetworkMonotone(layers, Ball(x, e1), Ball(x, e2));
  }

  /** At radius 0 the box is the single point that the network computes. */
  lemma {:induction false} PointBoxExact(layers: seq<Layer>, x: Vec)
    requires WellShaped(layers, |x|) && Supported(layers)
    ensures IbpLayers(layers, Box(x, x)).value == Box(Eval(layers, x), Eval(layers, x))
  {
    if layers != [] {
      var out, y := IbpLayer(layers[0], Box(x, x)), Apply(layers[0], x);
      forall i | 0 <= i < |y|
        ensures out.lo[i] == y[i] == out.hi[i]
      {
        var p, q := LayerTight(layers[0], Box(x, x), i);
        assert p == x && q == x;
      }
      assert out == Box(y, y);
      PointBoxExact(layers[1..], y);
    }
  }

  // ----------------------------------------------------------- certification

  lemma {:induction false} SumMonotone(a: Vec, b: Vec)
    requires Leq(a, b)
    ensures Total(a) <= Total(b)
  {
    if a != [] {
      SumMonotone(a[1..], b[1..]);
    }
  }

  lemma MeanMonotone(a: Vec, b: Vec)
    requires Leq(a, b) && a != []
    ensures Mean(a) <= Mean(b)
  {
    SumMonotone(a, b);
  }

  lemma {:induction false} SumOfConcat(a: Vec, b: Vec)
    ensures Total(a + b) == Total(a) + Total(b)
  {
    if a == [] {
      assert a + b == b;
    } else {
      assert (a + b)[1..] == a[1..] + b;
      SumOfConcat(a[1..], b);
    }
  }

  lemma MeanOfTwice(v: Vec)
    requires v != []
    ensures Mean(v + v) == Mean(v)
  {
    SumOfConcat(v, v);
    var n := |v| as real;
    assert |v + v| as real == 2.0 * n;
    assert (Total(v) + Total(v)) / (2.0 * n) == Total(v) / n;
  }

  /** The score of a concrete input, as `certify_ibp` defines it. */
  ghost function Score(layers: seq<Layer>, x: Vec): real
    requires WellShaped(layers, |x|) && Supported(layers) && Eval(layers, x) != []
  {
    Mean(Eval(layers, x))
  }

  /** `x` is put into class `target`: 1 (fraud) exactly at or above the threshold. */
  ghost predicate Classified(layers: seq<Layer>, x: Vec, target: int, threshold: real)
    requires WellShaped(layers, |x|) && Supported(layers) && Eval(layers, x) != []
  {
    (target == 1) <==> Score(layers, x) >= threshold
  }

  lemma {:induction false} OutputDimension(layers: seq<Layer>, x: Vec, y: Vec, box: Box)
    requires |x| == |y| == |box.lo| == |box.hi| && WellShaped(layers, |x|) && Supported(layers)
    ensures |Eval(layers, x)| == |Eval(layers, y)| == |IbpLayers(layers, box).value.lo|
  {
    if layers != [] {
      OutputDimension(layers[1..], Apply(layers[0], x), Apply(layers[0], y), IbpLayer(layers[0], box));
    }
  }

  /** What `_is_certified(radius)` answers. */
  ghost predicate PassesCheck(layers: seq<Layer>, x: Vec, radius: real, target: int, threshold: real)
    requires WellShaped(layers, |x|) && Supported(layers) && Eval(layers, x) != []
  {
    OutputDimension(layers, x, x, Ball(x, radius));
    var box := IbpLayers(layers, Ball(x, radius)).value;
    if target == 1 then Mean(box.lo) >= threshold else Mean(box.hi) < threshold
  }

  lemma PassingIsRobust(layers: seq<Layer>, x: Vec, radius: real, target: int, threshold: real, y: Vec)
    requires WellShaped(layers, |x|) && Supported(layers) && Eval(layers, x) != []
    requires PassesCheck(layers, x, radius, target, threshold) && Near(x, y, radius)
    ensures Eval(layers, y) != [] && Classified(layers, y, target, threshold)
  {
    OutputDimension(layers, x, y, Ball(x, radius));
    PropagationSound(layers, x, radius, y);
    var box := IbpLayers(layers, Ball(x, radius)).value;
    MeanMonotone(box.lo, Eval(layers, y));
    MeanMonotone(Eval(layers, y), box.hi);
  }

  lemma PassingIsDownwardClosed(layers: seq<Layer>, x: Vec, r1: real, r2: real, target: int, threshold: real)
    requires 0.0 <= r1 <= r2 && WellShaped(layers, |x|) && Supported(layers) && Eval(layers, x) != []
    requires PassesCheck(layers, x, r2, target, threshold)
    ensures PassesCheck(layers, x, r1, target, threshold)
  {
    OutputDimension(layers, x, x, Ball(x, r1));
    OutputDimension(layers, x, x, Ball(x, r2));
    RadiusMonotone(layers, x, r1, r2);
    var small, large := IbpLayers(layers, Ball(x, r1)).value, IbpLayers(layers, Ball(x, r2)).value;
    MeanMonotone(large.lo, small.lo);
    MeanMonotone(small.hi, large.hi);
  }

  /** The interval check at radius 0 is the clean classification itself. */
  lemma CheckAtZero(layers: seq<Layer>, x: Vec, target: int, threshold: real)
    requires WellShaped(layers, |x|) && Supported(layers) && Eval(layers, x) != []
    ensures PassesCheck(layers, x, 0.0, target, threshold) <==> Classified(layers, x, target, threshold)
    ensures IbpLayers(layers, Ball(x, 0.0)).value == Box(Eval(layers, x), Eval(layers, x))
  {
    assert Ball(x, 0.0) == Box(x, x);
    PointBoxExact(layers, x);
  }

  function Pow2(n: nat): (p: real)
    ensures p >= 1.0
  {
    if n == 0 then 1.0 else 2.0 * Pow2(n - 1)
  }

  method IsCertified(layers: seq<Layer>, x: Vec, radius: real, target: int, threshold: real) returns (ok: bool)
    requires WellShaped(layers, |x|) && Supported(layers) && Eval(layers, x) != []
    ensures ok == PassesCheck(layers, x, radius, target, threshold)
  {
    OutputDimension(layers, x, x, Ball(x, radius));
    var r := Propagate(x, radius, layers);
    if target == 1 {
      ok := Mean(r.value.lo) >= threshold;
    } else {
      ok := Mean(r.value.hi) < threshold;
    }
  }

  /** `certify_ibp`.  A layer type that is not supported is an error.  A misclassified point gets
      radius 0.  Otherwise every input within the returned radius keeps the class, and the radius
      is either `epsilon` or within `epsilon / 2^steps` of the smallest radius that fails the check. */
  method CertifyIbp(layers: seq<Layer>, x: Vec, epsilon: real, target: int, threshold: real, steps: nat)
    returns (r: Result<real, string>)
    requires WellShaped(layers, |x|) && (Supported(layers) ==> Eval(layers, x) != [])
    requires target == 0 || target == 1
    requires epsilon >= 0.0
    ensures r.Ok? <==> Supported(layers)
    ensures r.Err? ==> exists i :: 0 <= i < |layers| && layers[i] == Unsupported(r.error) && Supported(layers[..i])
    ensures r.Ok? && !Classified(layers, x, target, threshold) ==> r.value == 0.0
    ensures r.Ok? ==> 0.0 <= r.value <= epsilon
    ensures r.Ok? && Classified(layers, x, target, threshold) ==>
              forall y :: Near(x, y, r.value) ==>
                |y| == |x| && Eval(layers, y) != [] && Classified(layers, y, target, threshold)
    ensures r.Ok? && Classified(layers, x, target, threshold) && r.value < epsilon ==>
              forall radius :: radius >= r.value + epsilon / Pow2(steps) ==>
                !PassesCheck(layers, x, radius, target, threshold)
    ensures r.Ok? && Classified(layers, x, target, threshold) && PassesCheck(layers, x, epsilon, target, threshold) ==>
              r.value == epsilon
  {
    var clean := Propagate(x, 0.0, layers);
    if clean.Err? {
      ghost var i := FirstUnsupported(layers, Ball(x, 0.0));
      return Err(clean.error);
    }
    CheckAtZero(layers, x, target, threshold);
    MeanOfTwice(clean.value.lo);
    var cleanScore := Mean(clean.value.lo + clean.value.hi);
    if target == 1 && cleanScore < threshold {
      return Ok(0.0);
    }
    if target == 0 && cleanScore >= threshold {
      return Ok(0.0);
    }
    var radius := epsilon;
    var whole := IsCertified(layers, x, epsilon, target, threshold);
    if !whole {
      radius := Bisect(layers, x, epsilon, target, threshold, steps);
    }
    forall y | Near(x, y, radius)
      ensures Eval(layers, y) != [] && Classified(layers, y, target, threshold)
    {
      PassingIsRobust(layers, x, radius, target, threshold, y);
    }
    return Ok(radius);
  }

  /** The bisection loop of `certify_ibp`, entered when `epsilon` itself fails the check. */
  method Bisect(layers: seq<Layer>, x: Vec, epsilon: real, target: int, threshold: real, steps: nat)
    returns (lo: real)
    requires WellShaped(layers, |x|) && Supported(layers) && Eval(layers, x) != []
    requires epsilon >= 0.0 && Classified(layers, x, target, threshold)
    requires !PassesCheck(layers, x, epsilon, target, threshold)
    ensures 0.0 <= lo <= epsilon && PassesCheck(layers, x, lo, target, threshold)
    ensures forall radius :: radius >= lo + epsilon / Pow2(steps) ==>
              !PassesCheck(layers, x, radius, target, threshold)
  {
    CheckAtZero(layers, x, target, threshold);
    var hi := epsilon;
    lo := 0.0;
    var k := 0;
    while k < steps
      invariant 0 <= k <= steps
      invariant 0.0 <= lo <= hi <= epsilon
      invariant Gap(lo, hi, Pow2(k), epsilon)
      invariant PassesCheck(layers, x, lo, target, threshold)
      invariant !PassesCheck(layers, x, hi, target, threshold)
    {
      var mid := (lo + hi) / 2.0;
      var ok := IsCertified(layers, x, mid, target, threshold);
      HalveGap(lo, hi, mid, Pow2(k), epsilon);
      if ok {
        lo := mid;
      } else {
        hi := mid;
      }
      k := k + 1;
    }
    GapQuotient(lo, hi, Pow2(steps), epsilon);
    forall radius | radius >= lo + epsilon / Pow2(steps)
      ensures !PassesCheck(layers, x, radius, target, threshold)
    {
      if PassesCheck(layers, x, radius, target, threshold) {
        PassingIsDownwardClosed(layers, x, hi, radius, target, threshold);
      }
    }
  }

  ghost predicate Gap(lo: real, hi: real, p: real, epsilon: real) {
    (hi - lo) * p == epsilon
  }

  lemma GapQuotient(lo: real, hi: real, p: real, epsilon: real)
    requires p >= 1.0 && Gap(lo, hi, p, epsilon)
    ensures lo + epsilon / p == hi
  {
  }

  lemma HalveGap(lo: real, hi: real, mid: real, p: real, epsilon: real)
    requires mid == (lo + hi) / 2.0 && Gap(lo, hi, p, epsilon)
    ensures Gap(mid, hi, 2.0 * p, epsilon) && Gap(lo, mid, 2.0 * p, epsilon)
  {
    assert mid - lo == (hi - lo) / 2.0 && hi - mid == (hi - lo) / 2.0;
  }
}
