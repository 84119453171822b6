/**
 * `Sequential`: a list of layers applied one after the other, with the parameter list,
 * the `weights()` export of plain numbers, and the string form of the model.
 */
module Sequentials {
  import opened Precision
  import opened Results
  import opened Engine
  import opened Strings
  import opened Neurons
  import opened Layers

  datatype Sequential = Sequential(layers: seq<Layer>)

  predicate LayersIn(g: Graph, ls: seq<Layer>) {
    forall k :: 0 <= k < |ls| ==> LayerIn(g, ls[k])
  }

  lemma LayersInExtends(g: Graph, g': Graph, ls: seq<Layer>)
    requires LayersIn(g, ls) && Extends(g, g')
    ensures LayersIn(g', ls)
  {
    forall k | 0 <= k < |ls| ensures LayerIn(g', ls[k]) {
      LayerInExtends(g, g', ls[k]);
    }
  }

  /** `new Sequential()`: no layers. */
  function Empty(): (r: Sequential)
    ensures |r.layers| == 0
  {
    Sequential([])
  }

  /** `add(layer)`: the layer goes after every existing one, which stay as they were. */
  function AddLayer(s: Sequential, l: Layer): (r: Sequential)
    ensures |r.layers| == |s.layers| + 1 && r.layers[..|s.layers|] == s.layers && r.layers[|s.layers|] == l
  {
    Sequential(s.layers + [l])
  }

  /** A model as numbers: one list of neuron records per layer. */
  type ModelData = seq<seq<NeuronData>>

  /** What the model's parameters hold in `g`. */
  function ModelSnapshot(g: Graph, ls: seq<Layer>): (r: ModelData)
    requires LayersIn(g, ls)
    ensures |r| == |ls| && forall k :: 0 <= k < |ls| ==> r[k] == Snapshots(g, ls[k].neurons)
  {
    seq(|ls|, k requires 0 <= k < |ls| => Snapshots(g, ls[k].neurons))
  }

  lemma ModelSnapshotExtends(g: Graph, g': Graph, ls: seq<Layer>)
    requires LayersIn(g, ls) && Extends(g, g')
    ensures LayersIn(g', ls) && ModelSnapshot(g', ls) == ModelSnapshot(g, ls)
  {
    forall k | 0 <= k < |ls| ensures LayerIn(g', ls[k]) && Snapshots(g', ls[k].neurons) == Snapshots(g, ls[k].neurons) {
      SnapshotsExtends(g, g', ls[k].neurons);
    }
  }

  /** What the first `k` layers compute on `v`, on numbers; the first error stops the chain. */
  function EvaluateLayers(m: Numerics, net: ModelData, v: Val, k: nat): Result<Val>
    requires k <= |net|
  {
    if k == 0 then Ok(v)
    else
      var u := EvaluateLayers(m, net, v, k - 1);
      if u.Err? then u else LayerEval(m, net[k - 1], u.value)
  }

  /** What a model computes on `v`. */
  function Evaluate(m: Numerics, net: ModelData, v: Val): Result<Val> {
    EvaluateLayers(m, net, v, |net|)
  }

  /**
   * The first `k` steps of `this.layers.reduce((input, layer) => layer.forward(input), inputs)`.
   * With no step the inputs come back as they are.
   */
  function Through(g: Graph, m: Numerics, ls: seq<Layer>, inputs: Signal, k: nat): (r: Result<Emitted>)
    requires Valid(g) && LayersIn(g, ls) && SignalIn(g, inputs) && k <= |ls|
    ensures k == 0 ==> r == Ok(Emitted(g, inputs))
    ensures r.Ok? ==> Valid(r.value.graph) && Extends(g, r.value.graph) && SignalIn(r.value.graph, r.value.out)
    ensures r.Ok? ==> EvaluateLayers(m, ModelSnapshot(g, ls), ValOf(g, m, inputs), k) == Ok(ValOf(r.value.graph, m, r.value.out))
    ensures r.Err? ==> EvaluateLayers(m, ModelSnapshot(g, ls), ValOf(g, m, inputs), k) == Err(r.error)
  {
    if k == 0 then Ok(Emitted(g, inputs))
    else
      var prev := Through(g, m, ls, inputs, k - 1);
      if prev.Err? then Err(prev.error)
      else
        var h := prev.value.graph;
        LayersInExtends(g, h, ls);
        SnapshotsExtends(g, h, ls[k - 1].neurons);
        Layers.Forward(h, m, ls[k - 1], prev.value.out)
  }

  /**
   * `forward(inputs)`: the output stands for what `Evaluate` computes, and the pass fails
   * exactly when `Evaluate` does, with its error.
   */
  function Forward(g: Graph, m: Numerics, s: Sequential, inputs: Signal): (r: Result<Emitted>)
    requires Valid(g) && LayersIn(g, s.layers) && SignalIn(g, inputs)
    ensures |s.layers| == 0 ==> r == Ok(Emitted(g, inputs))
    ensures r.Ok? ==> && Valid(r.value.graph) && Extends(g, r.value.graph) && SignalIn(r.value.graph, r.value.out)
                      && Evaluate(m, ModelSnapshot(g, s.layers), ValOf(g, m, inputs)) == Ok(ValOf(r.value.graph, m, r.value.out))
    ensures r.Err? ==> Evaluate(m, ModelSnapshot(g, s.layers), ValOf(g, m, inputs)) == Err(r.error)
  {
    Through(g, m, s.layers, inputs, |s.layers|)
  }

  // The nodes a forward pass appends draw only on the layers' parameters and the inputs.

  /** Every neuron of every layer has its weights and bias among `deps`. */
  predicate LayersWithin(ls: seq<Layer>, deps: seq<nat>) {
    forall k :: 0 <= k < |ls| ==> NeuronsWithin(ls[k].neurons, deps)
  }

  lemma {:induction k} ThroughConfined(g: Graph, m: Numerics, ls: seq<Layer>, inputs: Signal, k: nat,
                                       mark: nat, deps: seq<nat>)
    requires Valid(g) && LayersIn(g, ls) && SignalIn(g, inputs) && k <= |ls|
    requires mark <= |g| && Confined(g, mark, deps) && LayersWithin(ls, deps) && SignalWithin(inputs, mark, deps)
    ensures Through(g, m, ls, inputs, k).Ok? ==>
              && Confined(Through(g, m, ls, inputs, k).value.graph, mark, deps)
              && SignalWithin(Through(g, m, ls, inputs, k).value.out, mark, deps)
  {
    if k > 0 && Through(g, m, ls, inputs, k - 1).Ok? {
      LayersInExtends(g, Through(g, m, ls, inputs, k - 1).value.graph, ls);
      Layers.ForwardConfined(Through(g, m, ls, inputs, k - 1).value.graph, m, ls[k - 1],
                             Through(g, m, ls, inputs, k - 1).value.out, mark, deps);
    }
  }

  /**
   * A model's pass appends nodes that reach back only to its parameters and its inputs:
   * `backward` from its output reaches nothing else that came before the pass.
   */
  lemma ForwardConfined(g: Graph, m: Numerics, s: Sequential, inputs: Signal, mark: nat)
    requires Valid(g) && LayersIn(g, s.layers) && SignalIn(g, inputs)
    requires mark <= |g| && Confined(g, mark, Parameters(s)) && SignalWithin(inputs, mark, Parameters(s))
    ensures Forward(g, m, s, inputs).Ok? ==>
              && Confined(Forward(g, m, s, inputs).value.graph, mark, Parameters(s))
              && SignalWithin(Forward(g, m, s, inputs).value.out, mark, Parameters(s))
  {
    FlattenHolds(s.layers);
    ThroughConfined(g, m, s.layers, inputs, |s.layers|, mark, Parameters(s));
  }

  // ---------------------------------------------------------------------------------------
  // Parameters
  // ---------------------------------------------------------------------------------------

  function Flatten(ls: seq<Layer>): seq<nat> {
    if |ls| == 0 then [] else Flatten(ls[..|ls| - 1]) + Layers.Parameters(ls[|ls| - 1])
  }

  /** `parameters()`: each layer's parameters, layer after layer. */
  function Parameters(s: Sequential): seq<nat> {
    Flatten(s.layers)
  }

  /** Every weight and every bias of every neuron of every layer is among the parameters. */
  lemma {:induction false} FlattenHolds(ls: seq<Layer>)
    ensures forall k, j :: 0 <= k < |ls| && 0 <= j < |ls[k].neurons| ==>
              && ls[k].neurons[j].bias in Flatten(ls)
              && forall i :: 0 <= i < |ls[k].neurons[j].weights| ==> ls[k].neurons[j].weights[i] in Flatten(ls)
  {
    if |ls| > 0 {
      var init := ls[..|ls| - 1];
      FlattenHolds(init);
      assert forall k :: 0 <= k < |ls| - 1 ==> ls[k] == init[k];
      Layers.FlattenHolds(ls[|ls| - 1].neurons);
    }
  }

  /** The size of a layer: how many inputs each of its neurons takes, and how many neurons it has. */
  datatype Size = Size(inputs: nat, neurons: nat)

  predicate Sized(ls: seq<Layer>, sizes: seq<Size>) {
    && |ls| == |sizes|
    && forall k :: 0 <= k < |ls| ==>
         && |ls[k].neurons| == sizes[k].neurons
         && forall j :: 0 <= j < |ls[k].neurons| ==> |ls[k].neurons[j].weights| == sizes[k].inputs
  }

  /** Each layer holds `inputs * neurons` weights and `neurons` biases. */
  function Count(sizes: seq<Size>): nat {
    if |sizes| == 0 then 0
    else Count(sizes[..|sizes| - 1]) + sizes[|sizes| - 1].inputs * sizes[|sizes| - 1].neurons + sizes[|sizes| - 1].neurons
  }

  /** A model with layers of the given sizes has `Count(sizes)` parameters. */
  lemma {:induction false} ParameterCount(ls: seq<Layer>, sizes: seq<Size>)
    requires Sized(ls, sizes)
    ensures |Flatten(ls)| == Count(sizes)
  {
    if |ls| > 0 {
      var last := |ls| - 1;
      assert Sized(ls[..last], sizes[..last]);
      ParameterCount(ls[..last], sizes[..last]);
      Layers.ParameterCount(ls[last], sizes[last].inputs);
      assert |ls[last].neurons| * (sizes[last].inputs + 1)
             == sizes[last].inputs * sizes[last].neurons + sizes[last].neurons;
    }
  }

  // ---------------------------------------------------------------------------------------
  // weights() and toString()
  // ---------------------------------------------------------------------------------------

  /** One neuron in `weights()`: its weights' data and its bias's data. */
  datatype NeuronWeights = NeuronWeights(weights: seq<real>, bias: real)

  /** `weights()`: one list per layer, one record per neuron, holding plain numbers. */
  function Weights(g: Graph, s: Sequential): (r: seq<seq<NeuronWeights>>)
    requires LayersIn(g, s.layers)
    ensures |r| == |s.layers|
    ensures forall i :: 0 <= i < |r| ==> |r[i]| == |s.layers[i].neurons|
    ensures forall i, j :: 0 <= i < |r| && 0 <= j < |r[i]| ==>
              var n := s.layers[i].neurons[j];
              r[i][j] == NeuronWeights(DataOf(g, n.weights), g[n.bias].data)
  {
    seq(|s.layers|, i requires 0 <= i < |s.layers| =>
      seq(|s.layers[i].neurons|, j requires 0 <= j < |s.layers[i].neurons| =>
        NeuronWeights(DataOf(g, s.layers[i].neurons[j].weights), g[s.layers[i].neurons[j].bias].data)))
  }

  /** The layers' strings. */
  function LayerStrings(ls: seq<Layer>): (r: seq<string>)
    ensures |r| == |ls| && forall k :: 0 <= k < |ls| ==> r[k] == Layers.ToString(ls[k])
  {
    seq(|ls|, k requires 0 <= k < |ls| => Layers.ToString(ls[k]))
  }

  /** `toString()`: `Sequential of [` and the layers' strings joined by `, `, then `]`. */
  function ToString(s: Sequential): string {
    "Sequential of [" + Join(LayerStrings(s.layers), ", ") + "]"
  }
}
