/**
 * `Layer`: a list of neurons that all read the same inputs. A layer of one neuron returns its
 * output node itself; any other layer returns the list of outputs.
 */
module Layers {
  import opened Precision
  import opened Results
  import opened Engine
  import opened Strings
  import opened Neurons

  datatype Layer = Layer(neurons: seq<Neuron>)

  predicate NeuronsIn(g: Graph, ns: seq<Neuron>) {
    forall k :: 0 <= k < |ns| ==> NeuronIn(g, ns[k])
  }

  predicate LayerIn(g: Graph, l: Layer) {
    NeuronsIn(g, l.neurons)
  }

  /**
   * The constructor's two ways of making a layer: the `neurons` argument, used as it is, or
   * `numOfNeurons` new neurons of `numOfInputs` inputs each.
   */
  datatype LayerArgs =
    | Supplied(neurons: seq<Neuron>)
    | Sized(numOfInputs: nat, numOfNeurons: nat, activation: string)

  datatype BuiltLayer = BuiltLayer(graph: Graph, layer: Layer)

  /** Where neuron `k` of a sized layer starts drawing from the shared random source. */
  function Offset(k: nat, numOfInputs: nat): nat {
    k * numOfInputs
  }

  lemma OneMore(k: nat, size: nat)
    ensures (k + 1) * size == k * size + size
  {
  }

  /**
   * A neuron of a sized layer: made without a `rand` argument, so its weights come from the
   * shared source (`Math.random`), the calls from `offset` on.
   */
  predicate DrawnNeuron(h: Graph, m: Numerics, n: Neuron, numOfInputs: nat, activation: string, random: nat -> real, offset: nat)
    requires NeuronIn(h, n)
  {
    && n.activation == activation
    && |n.weights| == numOfInputs
    && h[n.bias] == Node(m.round(0.0), 0.0, Leaf, [])
    && forall i :: 0 <= i < numOfInputs ==>
         h[n.weights[i]] == Node(m.round(m.times(random(offset + i), 2.0) - 1.0), 0.0, Leaf, [])
  }

  lemma DrawnNeuronExtends(h: Graph, h': Graph, m: Numerics, n: Neuron, numOfInputs: nat, activation: string, random: nat -> real, offset: nat)
    requires NeuronIn(h, n) && Extends(h, h') && DrawnNeuron(h, m, n, numOfInputs, activation, random, offset)
    ensures NeuronIn(h', n) && DrawnNeuron(h', m, n, numOfInputs, activation, random, offset)
  {
  }

  /** The neurons drawn so far stay drawn once one more is added after them. */
  lemma DrawnSnoc(h: BuiltLayer, b: BuiltNeuron, m: Numerics, numOfInputs: nat, count: nat, activation: string, random: nat -> real)
    requires 0 < count && Extends(h.graph, b.graph) && LayerIn(h.graph, h.layer) && |h.layer.neurons| == count - 1
    requires forall k :: 0 <= k < count - 1 ==>
               DrawnNeuron(h.graph, m, h.layer.neurons[k], numOfInputs, activation, random, Offset(k, numOfInputs))
    requires NeuronIn(b.graph, b.neuron)
    requires DrawnNeuron(b.graph, m, b.neuron, numOfInputs, activation, random, Offset(count - 1, numOfInputs))
    ensures LayerIn(b.graph, Layer(h.layer.neurons + [b.neuron]))
    ensures forall k :: 0 <= k < count ==>
              DrawnNeuron(b.graph, m, (h.layer.neurons + [b.neuron])[k], numOfInputs, activation, random, Offset(k, numOfInputs))
  {
    var ns := h.layer.neurons + [b.neuron];
    forall k | 0 <= k < count - 1
      ensures NeuronIn(b.graph, ns[k])
      ensures DrawnNeuron(b.graph, m, ns[k], numOfInputs, activation, random, Offset(k, numOfInputs))
    {
      DrawnNeuronExtends(h.graph, b.graph, m, h.layer.neurons[k], numOfInputs, activation, random, Offset(k, numOfInputs));
    }
  }

  /**
   * `Array.from({ length: count }, () => new Neuron({ numOfInputs, activation }))`: neuron `k`
   * draws calls `k * numOfInputs` to `(k + 1) * numOfInputs - 1` of the shared source.
   */
  function DrawNeurons(g: Graph, m: Numerics, numOfInputs: nat, count: nat, activation: string, random: nat -> real): (r: BuiltLayer)
    requires Valid(g)
    ensures Valid(r.graph) && Extends(g, r.graph) && LayerIn(r.graph, r.layer)
    ensures |r.graph| == |g| + count * (numOfInputs + 1) && |r.layer.neurons| == count
    ensures forall k :: 0 <= k < count ==>
              DrawnNeuron(r.graph, m, r.layer.neurons[k], numOfInputs, activation, random, Offset(k, numOfInputs))
  {
    if count == 0 then BuiltLayer(g, Layer([]))
    else
      var h := DrawNeurons(g, m, numOfInputs, count - 1, activation, random);
      var offset := Offset(count - 1, numOfInputs);
      var b := NewNeuron(h.graph, m, Drawn(numOfInputs), random, offset, activation);
      assert DrawnNeuron(b.graph, m, b.neuron, numOfInputs, activation, random, offset);
      DrawnSnoc(h, b, m, numOfInputs, count, activation, random);
      OneMore(count - 1, numOfInputs + 1);
      BuiltLayer(b.graph, Layer(h.layer.neurons + [b.neuron]))
  }

  /**
   * `new Layer({ numOfInputs, numOfNeurons, activation, neurons })`: supplied neurons are kept
   * as they are and the graph is untouched; otherwise the neurons are drawn.
   */
  function NewLayer(g: Graph, m: Numerics, args: LayerArgs, random: nat -> real): (r: BuiltLayer)
    requires Valid(g)
    requires args.Supplied? ==> NeuronsIn(g, args.neurons)
    ensures Valid(r.graph) && Extends(g, r.graph) && LayerIn(r.graph, r.layer)
    ensures args.Supplied? ==> r == BuiltLayer(g, Layer(args.neurons))
    ensures args.Sized? ==>
              && |r.layer.neurons| == args.numOfNeurons
              && |r.graph| == |g| + args.numOfNeurons * (args.numOfInputs + 1)
              && forall k :: 0 <= k < args.numOfNeurons ==>
                   DrawnNeuron(r.graph, m, r.layer.neurons[k], args.numOfInputs, args.activation, random, Offset(k, args.numOfInputs))
  {
    match args
    case Supplied(ns) => BuiltLayer(g, Layer(ns))
    case Sized(numOfInputs, numOfNeurons, activation) =>
      DrawNeurons(g, m, numOfInputs, numOfNeurons, activation, random)
  }

  // ---------------------------------------------------------------------------------------
  // Forward pass
  // ---------------------------------------------------------------------------------------

  /** What the neurons' parameters hold in `g`, neuron by neuron. */
  function Snapshots(g: Graph, ns: seq<Neuron>): (r: seq<NeuronData>)
    requires NeuronsIn(g, ns)
    ensures |r| == |ns| && forall k :: 0 <= k < |ns| ==> r[k] == Snapshot(g, ns[k])
  {
    seq(|ns|, k requires 0 <= k < |ns| => Snapshot(g, ns[k]))
  }

  lemma SnapshotsExtends(g: Graph, g': Graph, ns: seq<Neuron>)
    requires NeuronsIn(g, ns) && Extends(g, g')
    ensures NeuronsIn(g', ns) && Snapshots(g', ns) == Snapshots(g, ns)
  {
    forall k | 0 <= k < |ns| ensures NeuronIn(g', ns[k]) && Snapshot(g', ns[k]) == Snapshot(g, ns[k]) {
      SnapshotExtends(g, g', ns[k]);
    }
  }

  /**
   * What the first `k` neurons compute on `v`, in order; the first failing neuron's error
   * is the layer's.
   */
  function EvaluateAll(m: Numerics, ds: seq<NeuronData>, v: Val, k: nat): (r: Result<seq<real>>)
    requires k <= |ds|
    ensures r.Ok? <==> forall j :: 0 <= j < k ==> Evaluate(m, ds[j], v).Ok?
    ensures r.Ok? ==> |r.value| == k && forall j :: 0 <= j < k ==> Evaluate(m, ds[j], v) == Ok(r.value[j])
    ensures r.Err? ==> exists j :: 0 <= j < k && Evaluate(m, ds[j], v) == Err(r.error)
                                 && forall i :: 0 <= i < j ==> Evaluate(m, ds[i], v).Ok?
  {
    if k == 0 then Ok([])
    else
      var prev := EvaluateAll(m, ds, v, k - 1);
      var y := Evaluate(m, ds[k - 1], v);
      if prev.Err? then prev
      else if y.Err? then Err(y.error)
      else Ok(prev.value + [y.value])
  }

  lemma LayerInExtends(g: Graph, g': Graph, l: Layer)
    requires LayerIn(g, l) && Extends(g, g')
    ensures LayerIn(g', l)
  {
    forall k | 0 <= k < |l.neurons| ensures NeuronIn(g', l.neurons[k]) {
      NeuronInExtends(g, g', l.neurons[k]);
    }
  }

  /** The nodes `ids` as operands. */
  function RefsTo(ids: seq<nat>): (r: seq<Operand>)
    ensures |r| == |ids| && forall k :: 0 <= k < |ids| ==> r[k] == Ref(ids[k])
  {
    seq(|ids|, k requires 0 <= k < |ids| => Ref(ids[k]))
  }

  /** The list `outputs` as a signal: its one element when there is one, else the list. */
  function Emit(ids: seq<nat>): (r: Signal)
    ensures r.Scalar? <==> |ids| == 1
  {
    if |ids| == 1 then Scalar(ids[0]) else Vector(RefsTo(ids))
  }

  /** The numbers a layer's outputs stand for, packed the same way. */
  function Pack(ys: seq<real>): (r: Val)
    ensures r.One? <==> |ys| == 1
  {
    if |ys| == 1 then One(ys[0]) else Many(ys)
  }

  lemma EmitPacks(h: Graph, m: Numerics, ids: seq<nat>)
    requires IdsIn(h, ids)
    ensures SignalIn(h, Emit(ids)) && ValOf(h, m, Emit(ids)) == Pack(DataOf(h, ids))
  {
    if |ids| != 1 {
      var xs := RefsTo(ids);
      assert forall i :: 0 <= i < |xs| ==> OperandData(h, m, xs[i]) == DataOf(h, ids)[i];
    }
  }

  /** The nodes `ids` as a vector signal carry their data. */
  lemma RefsData(h: Graph, m: Numerics, ids: seq<nat>)
    requires IdsIn(h, ids)
    ensures SignalIn(h, Vector(RefsTo(ids))) && ValOf(h, m, Vector(RefsTo(ids))) == Many(DataOf(h, ids))
  {
    var xs := RefsTo(ids);
    assert forall i :: 0 <= i < |xs| ==> OperandData(h, m, xs[i]) == DataOf(h, ids)[i];
  }

  /** What a layer computes on `v`, on numbers. */
  function LayerEval(m: Numerics, ds: seq<NeuronData>, v: Val): Result<Val> {
    var ys := EvaluateAll(m, ds, v, |ds|);
    if ys.Err? then Err(ys.error) else Ok(Pack(ys.value))
  }

  datatype Emitted = Emitted(graph: Graph, out: Signal)

  /** `this.neurons.map((neuron) => neuron.forward(inputs))`, the first `k` neurons. */
  function Outputs(g: Graph, m: Numerics, ns: seq<Neuron>, inputs: Signal, k: nat): (r: Result<BuiltMany>)
    requires Valid(g) && NeuronsIn(g, ns) && SignalIn(g, inputs) && k <= |ns|
    ensures r.Ok? ==> && Valid(r.value.graph) && Extends(g, r.value.graph)
                      && |r.value.ids| == k && IdsIn(r.value.graph, r.value.ids)
    ensures r.Ok? ==> EvaluateAll(m, Snapshots(g, ns), ValOf(g, m, inputs), k) == Ok(DataOf(r.value.graph, r.value.ids))
    ensures r.Err? ==> EvaluateAll(m, Snapshots(g, ns), ValOf(g, m, inputs), k) == Err(r.error)
  {
    if k == 0 then Ok(BuiltMany(g, []))
    else
      var prev := Outputs(g, m, ns, inputs, k - 1);
      if prev.Err? then Err(prev.error)
      else
        var r := OutputStep(g, m, ns, inputs, k, prev.value);
        OutputsSnoc(g, m, ns, inputs, k, prev.value, r);
        r
  }

  /** A neuron's step extends what the earlier neurons computed, or stops the layer with its error. */
  lemma OutputsSnoc(g: Graph, m: Numerics, ns: seq<Neuron>, inputs: Signal, k: nat, prev: BuiltMany, r: Result<BuiltMany>)
    requires Valid(g) && NeuronsIn(g, ns) && SignalIn(g, inputs) && 0 < k <= |ns|
    requires Valid(prev.graph) && Extends(g, prev.graph) && IdsIn(prev.graph, prev.ids)
    requires EvaluateAll(m, Snapshots(g, ns), ValOf(g, m, inputs), k - 1) == Ok(DataOf(prev.graph, prev.ids))
    requires r == OutputStep(g, m, ns, inputs, k, prev)
    ensures r.Ok? ==> EvaluateAll(m, Snapshots(g, ns), ValOf(g, m, inputs), k) == Ok(DataOf(r.value.graph, r.value.ids))
    ensures r.Err? ==> EvaluateAll(m, Snapshots(g, ns), ValOf(g, m, inputs), k) == Err(r.error)
  {
    var ds := Snapshots(g, ns);
    assert ds[k - 1] == Snapshot(g, ns[k - 1]);
  }

  /**
   * Neuron `k - 1` on the graph `prev` the earlier neurons left: its output joins theirs,
   * standing for what `Evaluate` makes of the neuron's snapshot, or the pass fails with its error.
   */
  function OutputStep(g: Graph, m: Numerics, ns: seq<Neuron>, inputs: Signal, k: nat, prev: BuiltMany): (r: Result<BuiltMany>)
    requires Valid(g) && NeuronsIn(g, ns) && SignalIn(g, inputs) && 0 < k <= |ns|
    requires Valid(prev.graph) && Extends(g, prev.graph) && IdsIn(prev.graph, prev.ids)
    ensures var e := Evaluate(m, Snapshot(g, ns[k - 1]), ValOf(g, m, inputs));
            && (r.Ok? <==> e.Ok?)
            && (r.Err? ==> r.error == e.error)
            && (r.Ok? ==> && Valid(r.value.graph) && Extends(prev.graph, r.value.graph)
                          && |r.value.ids| == |prev.ids| + 1 && IdsIn(r.value.graph, r.value.ids)
                          && DataOf(r.value.graph, r.value.ids) == DataOf(prev.graph, prev.ids) + [e.value])
  {
    var h := prev.graph;
    NeuronInExtends(g, h, ns[k - 1]);
    SignalInExtends(g, h, inputs);
    var y := Neurons.Forward(h, m, ns[k - 1], inputs);
    ValOfExtends(g, h, m, inputs);
    SnapshotExtends(g, h, ns[k - 1]);
    if y.Err? then Err(y.error)
    else
      DataOfSnoc(h, y.value.graph, prev.ids, y.value.id);
      Ok(BuiltMany(y.value.graph, prev.ids + [y.value.id]))
  }

  /**
   * `forward(inputs)`: every neuron on the same inputs, in order. The output stands for what
   * `LayerEval` computes, and the pass fails exactly when `LayerEval` does, with its error.
   */
  function Forward(g: Graph, m: Numerics, l: Layer, inputs: Signal): (r: Result<Emitted>)
    requires Valid(g) && LayerIn(g, l) && SignalIn(g, inputs)
    ensures r.Ok? ==> && Valid(r.value.graph) && Extends(g, r.value.graph) && SignalIn(r.value.graph, r.value.out)
                      && (r.value.out.Scalar? <==> |l.neurons| == 1)
                      && LayerEval(m, Snapshots(g, l.neurons), ValOf(g, m, inputs)) == Ok(ValOf(r.value.graph, m, r.value.out))
    ensures r.Err? ==> LayerEval(m, Snapshots(g, l.neurons), ValOf(g, m, inputs)) == Err(r.error)
  {
    var outs :- Outputs(g, m, l.neurons, inputs, |l.neurons|);
    EmitPacks(outs.graph, m, outs.ids);
    Ok(Emitted(outs.graph, Emit(outs.ids)))
  }

  // The nodes a layer's forward pass appends draw only on its neurons' parameters and its inputs.

  /** Every neuron's weights and bias are among `deps`. */
  predicate NeuronsWithin(ns: seq<Neuron>, deps: seq<nat>) {
    forall k :: 0 <= k < |ns| ==> NeuronWithin(ns[k], deps)
  }

  lemma OutputStepConfined(g: Graph, m: Numerics, ns: seq<Neuron>, inputs: Signal, k: nat, prev: BuiltMany,
                           mark: nat, deps: seq<nat>)
    requires Valid(g) && NeuronsIn(g, ns) && SignalIn(g, inputs) && 0 < k <= |ns|
    requires Valid(prev.graph) && Extends(g, prev.graph) && IdsIn(prev.graph, prev.ids)
    requires mark <= |g| && Confined(prev.graph, mark, deps) && IdsWithin(prev.ids, mark, deps)
    requires NeuronWithin(ns[k - 1], deps) && SignalWithin(inputs, mark, deps)
    ensures OutputStep(g, m, ns, inputs, k, prev).Ok? ==>
              && Confined(OutputStep(g, m, ns, inputs, k, prev).value.graph, mark, deps)
              && IdsWithin(OutputStep(g, m, ns, inputs, k, prev).value.ids, mark, deps)
  {
    NeuronInExtends(g, prev.graph, ns[k - 1]);
    SignalInExtends(g, prev.graph, inputs);
    Neurons.ForwardConfined(prev.graph, m, ns[k - 1], inputs, mark, deps);
    var y := Neurons.Forward(prev.graph, m, ns[k - 1], inputs);
    if y.Ok? {
      assert OutputStep(g, m, ns, inputs, k, prev) == Ok(BuiltMany(y.value.graph, prev.ids + [y.value.id]));
    }
  }

  lemma {:induction k} OutputsConfined(g: Graph, m: Numerics, ns: seq<Neuron>, inputs: Signal, k: nat,
                                      mark: nat, deps: seq<nat>)
    requires Valid(g) && NeuronsIn(g, ns) && SignalIn(g, inputs) && k <= |ns|
    requires mark <= |g| && Confined(g, mark, deps) && NeuronsWithin(ns, deps) && SignalWithin(inputs, mark, deps)
    ensures Outputs(g, m, ns, inputs, k).Ok? ==>
              && Confined(Outputs(g, m, ns, inputs, k).value.graph, mark, deps)
              && IdsWithin(Outputs(g, m, ns, inputs, k).value.ids, mark, deps)
  {
    if k > 0 && Outputs(g, m, ns, inputs, k - 1).Ok? {
      OutputStepConfined(g, m, ns, inputs, k, Outputs(g, m, ns, inputs, k - 1).value, mark, deps);
    }
  }

  /** A layer's pass appends nodes that reach back only to its parameters and its inputs. */
  lemma ForwardConfined(g: Graph, m: Numerics, l: Layer, inputs: Signal, mark: nat, deps: seq<nat>)
    requires Valid(g) && LayerIn(g, l) && SignalIn(g, inputs)
    requires mark <= |g| && Confined(g, mark, deps) && NeuronsWithin(l.neurons, deps) && SignalWithin(inputs, mark, deps)
    ensures Forward(g, m, l, inputs).Ok? ==>
              && Confined(Forward(g, m, l, inputs).value.graph, mark, deps)
              && SignalWithin(Forward(g, m, l, inputs).value.out, mark, deps)
  {
    OutputsConfined(g, m, l.neurons, inputs, |l.neurons|, mark, deps);
  }

  /** `parameters()`: each neuron's parameters, neuron after neuron. */
  function Parameters(l: Layer): seq<nat> {
    Flatten(l.neurons)
  }

  function Flatten(ns: seq<Neuron>): seq<nat> {
    if |ns| == 0 then [] else Flatten(ns[..|ns| - 1]) + Neurons.Parameters(ns[|ns| - 1])
  }

  /** Every weight and every bias of every neuron is among the parameters. */
  lemma {:induction false} FlattenHolds(ns: seq<Neuron>)
    ensures forall k, i :: 0 <= k < |ns| && 0 <= i < |ns[k].weights| ==> ns[k].weights[i] in Flatten(ns)
    ensures forall k :: 0 <= k < |ns| ==> ns[k].bias in Flatten(ns)
  {
    if |ns| > 0 {
      var init := ns[..|ns| - 1];
      FlattenHolds(init);
      assert forall k :: 0 <= k < |ns| - 1 ==> ns[k] == init[k];
      var last := Neurons.Parameters(ns[|ns| - 1]);
      assert forall i :: 0 <= i < |ns[|ns| - 1].weights| ==> ns[|ns| - 1].weights[i] == last[i];
    }
  }

  /** Neurons of `n` inputs each hold `n + 1` parameters apiece. */
  lemma {:induction false} FlattenCount(ns: seq<Neuron>, n: nat)
    requires forall k :: 0 <= k < |ns| ==> |ns[k].weights| == n
    ensures |Flatten(ns)| == |ns| * (n + 1)
  {
    if |ns| > 0 {
      var init := ns[..|ns| - 1];
      FlattenCount(init, n);
      assert |Flatten(ns)| == |Flatten(init)| + n + 1;
      assert |ns| * (n + 1) == |init| * (n + 1) + n + 1;
    }
  }

  /** A layer of `count` neurons of `n` inputs has `count * (n + 1)` parameters. */
  lemma ParameterCount(l: Layer, n: nat)
    requires forall k :: 0 <= k < |l.neurons| ==> |l.neurons[k].weights| == n
    ensures |Parameters(l)| == |l.neurons| * (n + 1)
  {
    FlattenCount(l.neurons, n);
  }

  /** The neurons' strings. */
  function NeuronStrings(ns: seq<Neuron>): (r: seq<string>)
    ensures |r| == |ns| && forall k :: 0 <= k < |ns| ==> r[k] == Neurons.ToString(ns[k])
  {
    seq(|ns|, k requires 0 <= k < |ns| => Neurons.ToString(ns[k]))
  }

  /** `toString()`: `Layer of [` and the neurons' strings joined by `, `, then `]`. */
  function ToString(l: Layer): string {
    "Layer of [" + Join(NeuronStrings(l.neurons), ", ") + "]"
  }
}
