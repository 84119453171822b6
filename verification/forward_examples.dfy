/**
 * The forward passes the library's own expectations check, worked through the model: a neuron,
 * a layer and a three-layer model with fixed weights, under `toFixed(8)` rounding and exact
 * products. Each result is stated exactly and then against the expected number.
 */
module ForwardExamples {
  import opened Precision
  import opened Results
  import opened Engine
  import opened Expectations
  import Neurons
  import Layers
  import Sequentials

  // The fixed weights of the examples (drawn once with Python's `random.seed(1)`).
  const W1: seq<real> := [-0.73127, 0.69486, 0.52754]
  const W2: seq<real> := [-0.48986, -0.00912, -0.10101]
  const W3: seq<real> := [0.30318, 0.57744, -0.81228]
  const W4: seq<real> := [-0.9433, 0.67153, -0.13446]
  const W5: seq<real> := [0.52456, -0.99578, -0.10922]
  const W6: seq<real> := [0.44308, -0.54247, 0.89054]
  const W7: seq<real> := [0.80285, -0.93882, -0.9491]

  /** `new Neuron({ weights })`: the given weights, the zero bias and `relu`. */
  function ReluNeuron(ws: seq<real>): Neurons.NeuronData {
    Neurons.NeuronData(ws, 0.0, "relu")
  }

  /** The arithmetic the examples assume: `limitPrecision` is `toFixed(8)` and `*` is exact. */
  ghost predicate Arithmetic(m: Numerics) {
    RoundsToFixed8(m) && ExactProducts(m)
  }

  /** Inputs and outputs of the three-layer example, layer by layer. */
  const X: seq<real> := [2.0, 3.0, -1.0]
  const L1Out: seq<real> := [0.0945, 0.0, 3.15096]
  const L2Out: seq<real> := [0.0, 0.0, 2.84792698]

  /**
   * The weighted sum of three inputs from the zero bias, given its rounded products `p0`..`p2`
   * and rounded running sums `s1`..`s3`.
   */
  lemma DotOfThree(m: Numerics, ws: seq<real>, xs: seq<real>, p0: real, p1: real, p2: real, s1: real, s2: real, s3: real)
    requires Arithmetic(m) && |ws| == 3 && |xs| == 3
    requires ToFixed8(ws[0] * xs[0]) == p0 && ToFixed8(ws[1] * xs[1]) == p1 && ToFixed8(ws[2] * xs[2]) == p2
    requires ToFixed8(0.0 + p0) == s1 && ToFixed8(s1 + p1) == s2 && ToFixed8(s2 + p2) == s3
    ensures Neurons.Dot(m, 0.0, ws, xs, 3) == s3
  {
    assert Neurons.Dot(m, 0.0, ws, xs, 1) == s1;
    assert Neurons.Dot(m, 0.0, ws, xs, 2) == s2;
  }

  /** A `relu` neuron of three weights on three inputs outputs the rounded, clamped sum `y`. */
  lemma ReluValue(m: Numerics, ws: seq<real>, xs: seq<real>, p0: real, p1: real, p2: real, s1: real, s2: real, s3: real, y: real)
    requires Arithmetic(m) && |ws| == 3 && |xs| == 3
    requires ToFixed8(ws[0] * xs[0]) == p0 && ToFixed8(ws[1] * xs[1]) == p1 && ToFixed8(ws[2] * xs[2]) == p2
    requires ToFixed8(0.0 + p0) == s1 && ToFixed8(s1 + p1) == s2 && ToFixed8(s2 + p2) == s3
    requires ToFixed8(if s3 < 0.0 then 0.0 else s3) == y
    ensures Neurons.Evaluate(m, ReluNeuron(ws), Neurons.Many(xs)) == Ok(y)
  {
    DotOfThree(m, ws, xs, p0, p1, p2, s1, s2, s3);
  }

  /** A `linear` neuron of three weights on three inputs outputs the sum itself. */
  lemma LinearValue(m: Numerics, ws: seq<real>, xs: seq<real>, p0: real, p1: real, p2: real, s1: real, s2: real, s3: real)
    requires Arithmetic(m) && |ws| == 3 && |xs| == 3
    requires ToFixed8(ws[0] * xs[0]) == p0 && ToFixed8(ws[1] * xs[1]) == p1 && ToFixed8(ws[2] * xs[2]) == p2
    requires ToFixed8(0.0 + p0) == s1 && ToFixed8(s1 + p1) == s2 && ToFixed8(s2 + p2) == s3
    ensures Neurons.Evaluate(m, Neurons.NeuronData(ws, 0.0, "linear"), Neurons.Many(xs)) == Ok(s3)
  {
    DotOfThree(m, ws, xs, p0, p1, p2, s1, s2, s3);
  }

  /** A layer of two neurons packs their two outputs. */
  lemma LayerOfTwo(m: Numerics, ds: seq<Neurons.NeuronData>, v: Neurons.Val, y0: real, y1: real)
    requires |ds| == 2 && Neurons.Evaluate(m, ds[0], v) == Ok(y0) && Neurons.Evaluate(m, ds[1], v) == Ok(y1)
    ensures Layers.LayerEval(m, ds, v) == Ok(Neurons.Many([y0, y1]))
  {
    assert [y0] + [y1] == [y0, y1];
    assert Layers.EvaluateAll(m, ds, v, 0) == Ok([]);
    assert [] + [y0] == [y0];
    assert Layers.EvaluateAll(m, ds, v, 1) == Ok([y0]);
  }

  /** A layer of three neurons packs their three outputs. */
  lemma LayerOfThree(m: Numerics, ds: seq<Neurons.NeuronData>, v: Neurons.Val, y0: real, y1: real, y2: real)
    requires |ds| == 3 && Neurons.Evaluate(m, ds[0], v) == Ok(y0) && Neurons.Evaluate(m, ds[1], v) == Ok(y1)
    requires Neurons.Evaluate(m, ds[2], v) == Ok(y2)
    ensures Layers.LayerEval(m, ds, v) == Ok(Neurons.Many([y0, y1, y2]))
  {
    assert Layers.EvaluateAll(m, ds, v, 0) == Ok([]);
    assert [] + [y0] == [y0];
    assert Layers.EvaluateAll(m, ds, v, 1) == Ok([y0]);
    assert [y0] + [y1] == [y0, y1];
    assert Layers.EvaluateAll(m, ds, v, 2) == Ok([y0, y1]);
    assert [y0, y1] + [y2] == [y0, y1, y2];
  }

  /** A neuron with weights `W1` on `[1, 2, 3]` gives 2.24107; the library expects about 2.24111. */
  lemma NeuronExample(m: Numerics)
    requires Arithmetic(m)
    ensures Neurons.Evaluate(m, ReluNeuron(W1), Neurons.Many([1.0, 2.0, 3.0])) == Ok(2.24107)
    ensures CloseTo(2.24107, 2.24111)
  {
    ReluValue(m, W1, [1.0, 2.0, 3.0], -0.73127, 1.38972, 1.58262, -0.73127, 0.65845, 2.24107, 2.24107);
  }

  /** The same as a graph: `neuron.forward([1, 2, 3])` builds a node holding 2.24107. */
  lemma NeuronForwardExample(g: Graph, m: Numerics, n: Neurons.Neuron, inputs: Neurons.Signal)
    requires Valid(g) && Neurons.NeuronIn(g, n) && Neurons.SignalIn(g, inputs) && Arithmetic(m)
    requires Neurons.Snapshot(g, n) == ReluNeuron(W1) && Neurons.ValOf(g, m, inputs) == Neurons.Many([1.0, 2.0, 3.0])
    ensures var r := Neurons.Forward(g, m, n, inputs);
            r.Ok? && r.value.graph[r.value.id].data == 2.24107 && CloseTo(r.value.graph[r.value.id].data, 2.24111)
  {
    NeuronExample(m);
  }

  /** A layer of the `W1` and `W2` neurons on `[1, 2, 3]`: 2.24107 (about 2.24111) and 0. */
  lemma LayerExample(m: Numerics)
    requires Arithmetic(m)
    ensures Layers.LayerEval(m, [ReluNeuron(W1), ReluNeuron(W2)], Neurons.Many([1.0, 2.0, 3.0]))
            == Ok(Neurons.Many([2.24107, 0.0]))
    ensures CloseTo(2.24107, 2.24111) && CloseTo(0.0, 0.0)
  {
    ReluValue(m, W1, [1.0, 2.0, 3.0], -0.73127, 1.38972, 1.58262, -0.73127, 0.65845, 2.24107, 2.24107);
    ReluValue(m, W2, [1.0, 2.0, 3.0], -0.48986, -0.01824, -0.30303, -0.48986, -0.5081, -0.81113, 0.0);
    LayerOfTwo(m, [ReluNeuron(W1), ReluNeuron(W2)], Neurons.Many([1.0, 2.0, 3.0]), 2.24107, 0.0);
  }

  /** The same as a graph: `layer.forward([1, 2, 3])` gives nodes holding 2.24107 and 0. */
  lemma LayerForwardExample(g: Graph, m: Numerics, l: Layers.Layer, inputs: Neurons.Signal)
    requires Valid(g) && Layers.LayerIn(g, l) && Neurons.SignalIn(g, inputs) && Arithmetic(m)
    requires Layers.Snapshots(g, l.neurons) == [ReluNeuron(W1), ReluNeuron(W2)]
    requires Neurons.ValOf(g, m, inputs) == Neurons.Many([1.0, 2.0, 3.0])
    ensures var r := Layers.Forward(g, m, l, inputs);
            r.Ok? && Neurons.ValOf(r.value.graph, m, r.value.out) == Neurons.Many([2.24107, 0.0])
  {
    LayerExample(m);
  }

  /** The first layer of the model on `[2, 3, -1]`. */
  lemma FirstLayer(m: Numerics)
    requires Arithmetic(m)
    ensures Layers.LayerEval(m, [ReluNeuron(W1), ReluNeuron(W2), ReluNeuron(W3)], Neurons.Many(X)) == Ok(Neurons.Many(L1Out))
  {
    ReluValue(m, W1, X, -1.46254, 2.08458, -0.52754, -1.46254, 0.62204, 0.0945, 0.0945);
    ReluValue(m, W2, X, -0.97972, -0.02736, 0.10101, -0.97972, -1.00708, -0.90607, 0.0);
    ReluValue(m, W3, X, 0.60636, 1.73232, 0.81228, 0.60636, 2.33868, 3.15096, 3.15096);
    LayerOfThree(m, [ReluNeuron(W1), ReluNeuron(W2), ReluNeuron(W3)], Neurons.Many(X), 0.0945, 0.0, 3.15096);
  }

  // The second layer on what the first gives, one neuron at a time.

  lemma SecondLayerFirst(m: Numerics)
    requires Arithmetic(m)
    ensures Neurons.Evaluate(m, ReluNeuron(W4), Neurons.Many(L1Out)) == Ok(0.0)
  {
    ReluValue(m, W4, L1Out, -0.08914185, 0.0, -0.42367808, -0.08914185, -0.08914185, -0.51281993, 0.0);
  }

  lemma SecondLayerSecond(m: Numerics)
    requires Arithmetic(m)
    ensures Neurons.Evaluate(m, ReluNeuron(W5), Neurons.Many(L1Out)) == Ok(0.0)
  {
    ReluValue(m, W5, L1Out, 0.04957092, 0.0, -0.34414785, 0.04957092, 0.04957092, -0.29457693, 0.0);
  }

  lemma SecondLayerThird(m: Numerics)
    requires Arithmetic(m)
    ensures Neurons.Evaluate(m, ReluNeuron(W6), Neurons.Many(L1Out)) == Ok(2.84792698)
  {
    ReluValue(m, W6, L1Out, 0.04187106, 0.0, 2.80605592, 0.04187106, 0.04187106, 2.84792698, 2.84792698);
  }

  lemma SecondLayer(m: Numerics)
    requires Arithmetic(m)
    ensures Layers.LayerEval(m, [ReluNeuron(W4), ReluNeuron(W5), ReluNeuron(W6)], Neurons.Many(L1Out)) == Ok(Neurons.Many(L2Out))
  {
    SecondLayerFirst(m);
    SecondLayerSecond(m);
    SecondLayerThird(m);
    LayerOfThree(m, [ReluNeuron(W4), ReluNeuron(W5), ReluNeuron(W6)], Neurons.Many(L1Out), 0.0, 0.0, 2.84792698);
  }

  /** The single `linear` neuron of the last layer; one output comes back as a single value. */
  lemma ThirdLayer(m: Numerics)
    requires Arithmetic(m)
    ensures Layers.LayerEval(m, [Neurons.NeuronData(W7, 0.0, "linear")], Neurons.Many(L2Out)) == Ok(Neurons.One(-2.7029675))
  {
    LinearValue(m, W7, L2Out, 0.0, 0.0, -2.7029675, 0.0, 0.0, -2.7029675);
  }

  /** The three-layer model's numbers. */
  const Model: Sequentials.ModelData := [
    [ReluNeuron(W1), ReluNeuron(W2), ReluNeuron(W3)],
    [ReluNeuron(W4), ReluNeuron(W5), ReluNeuron(W6)],
    [Neurons.NeuronData(W7, 0.0, "linear")]
  ]

  /** The model on `[2, 3, -1]` gives -2.7029675; the library expects about -2.70302. */
  lemma ModelExample(m: Numerics)
    requires Arithmetic(m)
    ensures Sequentials.Evaluate(m, Model, Neurons.Many(X)) == Ok(Neurons.One(-2.7029675))
    ensures CloseTo(-2.7029675, -2.70302)
  {
    FirstLayer(m);
    SecondLayer(m);
    ThirdLayer(m);
    assert Sequentials.EvaluateLayers(m, Model, Neurons.Many(X), 1) == Ok(Neurons.Many(L1Out));
    assert Sequentials.EvaluateLayers(m, Model, Neurons.Many(X), 2) == Ok(Neurons.Many(L2Out));
  }

  /** The same as a graph: `model.forward([2, 3, -1])` gives a single node holding -2.7029675. */
  lemma ModelForwardExample(g: Graph, m: Numerics, s: Sequentials.Sequential, inputs: Neurons.Signal)
    requires Valid(g) && Sequentials.LayersIn(g, s.layers) && Neurons.SignalIn(g, inputs) && Arithmetic(m)
    requires Sequentials.ModelSnapshot(g, s.layers) == Model && Neurons.ValOf(g, m, inputs) == Neurons.Many(X)
    ensures var r := Sequentials.Forward(g, m, s, inputs);
            r.Ok? && r.value.out.Scalar? && r.value.graph[r.value.out.id].data == -2.7029675
  {
    ModelExample(m);
  }
}
