/** What the network computes and how it is judged, coordinate by coordinate (detection/certified_robustness.py, lines
    52-179). */
module NetworkMeaning {
  import opened CertifiedRobustness
  import opened Common

  // ------------------------------------------------------------- the scores

  lemma {:induction false} SumFromFront(v: Vec, n: nat)
    requires 0 < n <= |v|
    ensures Sum(v, 0, n) == v[0] + Sum(v[1..], 0, n - 1)
  {
    if n > 1 { SumFromFront(v, n - 1); }
  }

  lemma {:induction false} TotalIsSum(v: Vec)
    ensures Total(v) == Sum(v, 0, |v|)
  {
    if v != [] {
      TotalIsSum(v[1..]);
      SumFromFront(v, |v|);
    }
  }

  /** What the outputs must add up to for fraud. */
  function Bar(v: Vec, t: real): real { t * |v| as real }

  lemma MeanAgainst(v: Vec, t: real)
    requires v != []
    ensures Mean(v) >= t <==> Sum(v, 0, |v|) >= Bar(v, t)
    ensures Mean(v) < t <==> Sum(v, 0, |v|) < Bar(v, t)
  {
    var m, n := Mean(v), |v| as real;
    TotalIsSum(v);
    assert m * n == Total(v);
    if m >= t { NonNegative(m - t, n); } else { assert (t - m) * n > 0.0; }
  }

  /** An input is fraud, class 1, if and only if the outputs add up to at least the threshold times their number. */
  lemma ClassifiedIff(layers: seq<Layer>, x: Vec, target: int, t: real)
    requires WellShaped(layers, |x|) && Supported(layers) && Eval(layers, x) != []
    ensures var y := Eval(layers, x);
            Classified(layers, x, target, t) <==> (target == 1 <==> Sum(y, 0, |y|) >= Bar(y, t))
  {
    MeanAgainst(Eval(layers, x), t);
  }

  /** The check of a radius looks at the lower bounds for fraud, and at the upper bounds for a benign input. */
  lemma {:induction false} PassesCheckIff(layers: seq<Layer>, x: Vec, radius: real, target: int, t: real)
    requires WellShaped(layers, |x|) && Supported(layers) && Eval(layers, x) != []
    ensures var box := IbpLayers(layers, Ball(x, radius)).value;
            && |box.lo| == |box.hi| == |Eval(layers, x)|
            && (PassesCheck(layers, x, radius, target, t) <==>
                  if target == 1 then Sum(box.lo, 0, |box.lo|) >= Bar(box.lo, t)
                  else Sum(box.hi, 0, |box.hi|) < Bar(box.hi, t))
  {
    OutputDimension(layers, x, x, Ball(x, radius));
    var box := IbpLayers(layers, Ball(x, radius)).value;
    MeanAgainst(box.lo, t);
    MeanAgainst(box.hi, t);
  }

  /** The ball is the set of points that differ from the center by at most the radius in every coordinate. */
  lemma BallIsNear(x: Vec, y: Vec, radius: real)
    ensures Inside(y, Ball(x, radius)) <==> Near(x, y, radius)
  {
  }

  // ------------------------------------------------------------- the layers

  lemma {:induction false} DotIsSum(w: Vec, x: Vec, terms: Vec)
    requires |w| == |x| == |terms| && forall j :: 0 <= j < |w| ==> terms[j] == w[j] * x[j]
    ensures Dot(w, x) == Sum(terms, 0, |terms|)
  {
    if w != [] {
      DotIsSum(w[1..], x[1..], terms[1..]);
      SumFromFront(terms, |terms|);
    }
  }

  /** Each output of a linear layer is the sum of weight times input, and the bias. */
  lemma {:induction false} LinearByCoordinate(W: seq<Vec>, b: Vec, x: Vec, i: nat, terms: Vec)
    requires LayerShaped(Linear(W, b), |x|) && i < |W| && |terms| == |x|
    requires forall j :: 0 <= j < |x| ==> terms[j] == W[i][j] * x[j]
    ensures Apply(Linear(W, b), x)[i] == Sum(terms, 0, |x|) + b[i]
  {
    DotIsSum(W[i], x, terms);
  }

  lemma ReluByCoordinate(x: Vec, i: nat)
    requires i < |x|
    ensures Apply(Relu, x)[i] == if x[i] >= 0.0 then x[i] else 0.0
  {
  }

  /** Batch normalisation: what the output is above `beta`, times the deviation, is `gamma` times what the input is
      above the mean; the deviation is the positive root of the variance and its offset, a hundred thousandth if none is
      given. */
  lemma BatchNormByCoordinate(layer: Layer, x: Vec, i: nat)
    requires layer.BatchNorm? && LayerShaped(layer, |x|) && i < |x|
    ensures (Apply(layer, x)[i] - layer.beta[i]) * layer.std[i] == layer.gamma[i] * (x[i] - layer.mean[i])
    ensures layer.std[i] > 0.0
    ensures layer.std[i] * layer.std[i] - layer.variance[i] == if layer.eps.Some? then layer.eps.value else 0.00001
  {
    var top, s := layer.gamma[i] * (x[i] - layer.mean[i]), layer.std[i];
    assert top / s * s == top;
  }

  // ----------------------------------------------------------- the network

  /** The vectors between the layers: each layer's output is the next one's input. */
  ghost predicate AreOutputs(layers: seq<Layer>, xs: seq<Vec>) {
    && |xs| == |layers| + 1
    && forall i :: 0 <= i < |layers| ==>
         !layers[i].Unsupported? && LayerShaped(layers[i], |xs[i]|) && IsOutput(layers[i], xs[i], xs[i + 1])
  }

  ghost predicate IsOutput(layer: Layer, x: Vec, y: Vec)
    requires !layer.Unsupported? && LayerShaped(layer, |x|)
  {
    y == Apply(layer, x)
  }

  /** The network feeds its input through the layers in their order. */
  lemma {:induction false} EvalFeedsThrough(layers: seq<Layer>, xs: seq<Vec>)
    requires AreOutputs(layers, xs)
    ensures WellShaped(layers, |xs[0]|) && Supported(layers) && Eval(layers, xs[0]) == xs[|layers|]
  {
    if layers != [] {
      assert IsOutput(layers[0], xs[0], xs[1]);
      forall i | 0 <= i < |layers| - 1
        ensures !layers[1..][i].Unsupported? && LayerShaped(layers[1..][i], |xs[1..][i]|)
        ensures IsOutput(layers[1..][i], xs[1..][i], xs[1..][i + 1])
      {
        assert IsOutput(layers[i + 1], xs[i + 1], xs[i + 2]);
      }
      EvalFeedsThrough(layers[1..], xs[1..]);
    }
  }

  /** The boxes between the layers. */
  ghost predicate AreBoxes(layers: seq<Layer>, bs: seq<Box>) {
    && |bs| == |layers| + 1 && (forall i :: 0 <= i <= |layers| ==> |bs[i].lo| == |bs[i].hi|)
    && forall i :: 0 <= i < |layers| ==>
         !layers[i].Unsupported? && LayerShaped(layers[i], |bs[i].lo|) && IsNextBox(layers[i], bs[i], bs[i + 1])
  }

  ghost predicate IsNextBox(layer: Layer, b: Box, c: Box)
    requires |b.lo| == |b.hi| && !layer.Unsupported? && LayerShaped(layer, |b.lo|)
  {
    c == IbpLayer(layer, b)
  }

  /** The bounds are propagated layer by layer in the same order. */
  lemma {:induction false} BoxesFeedThrough(layers: seq<Layer>, bs: seq<Box>)
    requires AreBoxes(layers, bs)
    ensures WellShaped(layers, |bs[0].lo|) && IbpLayers(layers, bs[0]) == Ok(bs[|layers|])
  {
    if layers != [] {
      assert IsNextBox(layers[0], bs[0], bs[1]);
      forall i | 0 <= i < |layers| - 1
        ensures !layers[1..][i].Unsupported? && LayerShaped(layers[1..][i], |bs[1..][i].lo|)
        ensures IsNextBox(layers[1..][i], bs[1..][i], bs[1..][i + 1])
      {
        assert IsNextBox(layers[i + 1], bs[i + 1], bs[i + 2]);
      }
      BoxesFeedThrough(layers[1..], bs[1..]);
    }
  }
}
