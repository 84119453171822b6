/**
 * `Neuron`: weights and a bias as nodes of the arena, an activation tag, and a forward pass
 * that builds `bias + w0*x0 + w1*x1 + ...` and wraps it according to the tag.
 */
module Neurons {
  import opened Precision
  import opened Results
  import opened Engine
  import opened Strings

  datatype Neuron = Neuron(weights: seq<nat>, bias: nat, activation: string)

  /** Every node the neuron holds is in the arena. */
  predicate NeuronIn(g: Graph, n: Neuron) {
    && (forall k :: 0 <= k < |n.weights| ==> n.weights[k] < |g|)
    && n.bias < |g|
  }

  lemma NeuronInExtends(g: Graph, g': Graph, n: Neuron)
    requires NeuronIn(g, n) && Extends(g, g')
    ensures NeuronIn(g', n)
  {
  }

  /** The constructor's `weights` argument: a list of nodes, or absent so that weights are drawn. */
  datatype InitialWeights = Given(ids: seq<nat>) | Drawn(numOfInputs: nat)

  datatype BuiltNeuron = BuiltNeuron(graph: Graph, neuron: Neuron)

  /**
   * `Array.from({ length: n }, () => new Value(rand() * 2 - 1))`. The random source is a
   * parameter: `rand(i)` is what its `i`-th call returns, and `from` calls were made before.
   */
  function DrawWeights(g: Graph, m: Numerics, rand: nat -> real, from: nat, n: nat): (r: BuiltMany)
    requires Valid(g)
    ensures Valid(r.graph) && Extends(g, r.graph) && |r.graph| == |g| + n && |r.ids| == n
    ensures forall i :: 0 <= i < n ==>
              && r.ids[i] == |g| + i
              && r.graph[|g| + i] == Node(m.round(m.times(rand(from + i), 2.0) - 1.0), 0.0, Leaf, [])
  {
    if n == 0 then BuiltMany(g, [])
    else
      var j := n - 1;
      var h := DrawWeights(g, m, rand, from, j);
      var w := Constant(h.graph, m, m.times(rand(from + j), 2.0) - 1.0);
      var ids := h.ids + [w.id];
      assert forall i :: 0 <= i < j ==> ids[i] == h.ids[i] && w.graph[|g| + i] == h.graph[|g| + i];
      assert ids[j] == |g| + j && w.graph[|g| + j] == Node(m.round(m.times(rand(from + j), 2.0) - 1.0), 0.0, Leaf, []);
      BuiltMany(w.graph, ids)
  }

  /**
   * `new Neuron({ numOfInputs, activation, weights, rand })`. The bias is always a fresh
   * `new Value(0)`: the constructor has no `bias` argument.
   */
  function NewNeuron(g: Graph, m: Numerics, init: InitialWeights, rand: nat -> real, from: nat, activation: string := "relu"): (r: BuiltNeuron)
    requires Valid(g)
    requires init.Given? ==> forall k :: 0 <= k < |init.ids| ==> init.ids[k] < |g|
    ensures Valid(r.graph) && Extends(g, r.graph) && NeuronIn(r.graph, r.neuron)
    ensures r.neuron.activation == activation
    ensures r.neuron.bias == |r.graph| - 1 && r.graph[r.neuron.bias] == Node(m.round(0.0), 0.0, Leaf, [])
    ensures init.Given? ==> r.neuron.weights == init.ids && |r.graph| == |g| + 1
    ensures init.Drawn? ==>
              && |r.graph| == |g| + init.numOfInputs + 1
              && |r.neuron.weights| == init.numOfInputs
              && forall i :: 0 <= i < init.numOfInputs ==>
                   && r.neuron.weights[i] == |g| + i
                   && r.graph[|g| + i] == Node(m.round(m.times(rand(from + i), 2.0) - 1.0), 0.0, Leaf, [])
  {
    match init
    case Given(ids) =>
      var b := Constant(g, m, 0.0);
      BuiltNeuron(b.graph, Neuron(ids, b.id, activation))
    case Drawn(n) =>
      var ws := DrawWeights(g, m, rand, from, n);
      var b := Constant(ws.graph, m, 0.0);
      BuiltNeuron(b.graph, Neuron(ws.ids, b.id, activation))
  }

  /** With rounding ignored and `rand` in [0, 1), every drawn weight lies in [-1, 1). */
  lemma DrawnWeightsInRange(g: Graph, m: Numerics, n: nat, rand: nat -> real, from: nat, activation: string)
    requires Valid(g) && ExactRounding(m) && ExactProducts(m)
    requires forall i :: from <= i < from + n ==> 0.0 <= rand(i) < 1.0
    ensures var r := NewNeuron(g, m, Drawn(n), rand, from, activation);
            forall k :: 0 <= k < |r.neuron.weights| ==> -1.0 <= r.graph[r.neuron.weights[k]].data < 1.0
  {
    var r := NewNeuron(g, m, Drawn(n), rand, from, activation);
    forall k | 0 <= k < |r.neuron.weights| ensures -1.0 <= r.graph[r.neuron.weights[k]].data < 1.0 {
      assert r.graph[|g| + k].data == m.round(m.times(rand(from + k), 2.0) - 1.0);
    }
  }

  /** An input vector (numbers or nodes), or a single node returned by a one-neuron layer. */
  datatype Signal = Scalar(id: nat) | Vector(xs: seq<Operand>)

  predicate SignalIn(g: Graph, s: Signal) {
    match s
    case Scalar(id) => id < |g|
    case Vector(xs) => forall i :: 0 <= i < |xs| ==> OperandOk(g, xs[i])
  }

  lemma SignalInExtends(g: Graph, g': Graph, s: Signal)
    requires SignalIn(g, s) && Extends(g, g')
    ensures SignalIn(g', s)
  {
  }

  /** The entries indexing can reach: none for a single `Value`. */
  function Entries(s: Signal): seq<Operand> {
    if s.Vector? then s.xs else []
  }

  /** How many inputs a signal offers to indexing. */
  function Width(s: Signal): nat {
    |Entries(s)|
  }

  predicate OperandsOk(g: Graph, xs: seq<Operand>) {
    forall i :: 0 <= i < |xs| ==> OperandOk(g, xs[i])
  }

  predicate IdsIn(g: Graph, ids: seq<nat>) {
    forall k :: 0 <= k < |ids| ==> ids[k] < |g|
  }

  /** The data of the nodes `ids`, in order. */
  function DataOf(g: Graph, ids: seq<nat>): (r: seq<real>)
    requires IdsIn(g, ids)
    ensures |r| == |ids| && forall k :: 0 <= k < |ids| ==> r[k] == g[ids[k]].data
  {
    seq(|ids|, k requires 0 <= k < |ids| => g[ids[k]].data)
  }

  /** Growing the arena leaves the data of existing nodes as it was. */
  lemma DataOfExtends(g: Graph, g': Graph, ids: seq<nat>)
    requires IdsIn(g, ids) && Extends(g, g')
    ensures IdsIn(g', ids) && DataOf(g', ids) == DataOf(g, ids)
  {
  }

  /** Appending a node to a list of nodes appends its data. */
  lemma DataOfSnoc(g: Graph, g': Graph, ids: seq<nat>, id: nat)
    requires IdsIn(g, ids) && Extends(g, g') && id < |g'|
    ensures IdsIn(g', ids + [id]) && DataOf(g', ids + [id]) == DataOf(g, ids) + [g'[id].data]
  {
  }

  /** What a signal carries, as numbers: one value, or a vector of them. */
  datatype Val = One(x: real) | Many(xs: seq<real>)

  /** The entries of a vector value; a single value offers none to indexing. */
  function Items(v: Val): seq<real> {
    if v.Many? then v.xs else []
  }

  /** The numbers a signal stands for: a node's data, or each entry as `ensureValue` would read it. */
  function ValOf(g: Graph, m: Numerics, s: Signal): (r: Val)
    requires SignalIn(g, s)
    ensures s.Scalar? <==> r.One?
    ensures s.Scalar? ==> r.x == g[s.id].data
    ensures s.Vector? ==> |r.xs| == |s.xs| && forall i :: 0 <= i < |s.xs| ==> r.xs[i] == OperandData(g, m, s.xs[i])
  {
    match s
    case Scalar(id) => One(g[id].data)
    case Vector(xs) => Many(seq(|xs|, i requires 0 <= i < |xs| => OperandData(g, m, xs[i])))
  }

  lemma ValOfExtends(g: Graph, g': Graph, m: Numerics, s: Signal)
    requires SignalIn(g, s) && Extends(g, g')
    ensures SignalIn(g', s) && ValOf(g', m, s) == ValOf(g, m, s)
  {
  }

  /**
   * The reference value of the weighted sum over the first `k` weights: a left fold from the
   * bias, each step adding the rounded product of a weight and an input and rounding the sum.
   */
  function Dot(m: Numerics, bias: real, ws: seq<real>, xs: seq<real>, k: nat): real
    requires k <= |ws| && k <= |xs|
  {
    if k == 0 then bias
    else m.round(Dot(m, bias, ws, xs, k - 1) + m.round(m.times(ws[k - 1], xs[k - 1])))
  }

  /** The fold `Dot` as the graph computes it, reading the weights and inputs from the arena. */
  function GraphDot(g: Graph, m: Numerics, bias: nat, ws: seq<nat>, xs: seq<Operand>, k: nat): real
    requires bias < |g| && IdsIn(g, ws) && OperandsOk(g, xs) && k <= |ws| && k <= |xs|
  {
    if k == 0 then g[bias].data
    else m.round(GraphDot(g, m, bias, ws, xs, k - 1) + m.round(m.times(g[ws[k - 1]].data, OperandData(g, m, xs[k - 1]))))
  }

  lemma {:induction false} GraphDotIsDot(g: Graph, m: Numerics, bias: nat, ws: seq<nat>, xs: seq<Operand>, k: nat)
    requires bias < |g| && IdsIn(g, ws) && OperandsOk(g, xs) && k <= |ws| && k <= |xs|
    ensures GraphDot(g, m, bias, ws, xs, k) == Dot(m, g[bias].data, DataOf(g, ws), ValOf(g, m, Vector(xs)).xs, k)
  {
    if k > 0 {
      GraphDotIsDot(g, m, bias, ws, xs, k - 1);
    }
  }

  /**
   * Step `k` of the fold, `sum.add(weight.mul(x))` on the sum `acc` of the first `k - 1` steps:
   * the product, then the new sum.
   */
  function SumStep(g: Graph, h: Graph, m: Numerics, bias: nat, ws: seq<nat>, xs: seq<Operand>, k: nat, acc: nat): (r: Built)
    requires Valid(h) && Extends(g, h) && bias < |g| && IdsIn(g, ws) && OperandsOk(g, xs)
    requires 0 < k <= |ws| && k <= |xs| && acc < |h| && h[acc].data == GraphDot(g, m, bias, ws, xs, k - 1)
    ensures Valid(r.graph) && Extends(h, r.graph) && r.id < |r.graph|
    ensures r.graph[r.id].data == GraphDot(g, m, bias, ws, xs, k)
  {
    var w := ws[k - 1];
    var x := xs[k - 1];
    assert OperandData(h, m, x) == OperandData(g, m, x);
    var p := Mul(h, m, w, x);
    assert p.graph[acc] == h[acc];
    Add(p.graph, m, acc, Ref(p.id))
  }

  /**
   * The first `k` steps of `weights.reduce((sum, weight, i) => sum.add(weight.mul(inputs[i])), bias)`
   * when the first `k` inputs exist. The fold starts from the bias node itself, so with no weights
   * the sum is the bias.
   */
  function SumNodes(g: Graph, m: Numerics, bias: nat, ws: seq<nat>, xs: seq<Operand>, k: nat): (r: Built)
    requires Valid(g) && bias < |g| && IdsIn(g, ws) && OperandsOk(g, xs) && k <= |ws| && k <= |xs|
    ensures Valid(r.graph) && Extends(g, r.graph) && r.id < |r.graph|
    ensures r.graph[r.id].data == GraphDot(g, m, bias, ws, xs, k)
  {
    if k == 0 then Built(g, bias)
    else
      var acc := SumNodes(g, m, bias, ws, xs, k - 1);
      SumStep(g, acc.graph, m, bias, ws, xs, k, acc.id)
  }

  /**
   * The whole fold: `inputs[i]` is read at step `i`, so the fold throws at the first step
   * whose input is missing.
   */
  function WeightedSum(g: Graph, m: Numerics, n: Neuron, inputs: Signal): (r: Result<Built>)
    requires Valid(g) && NeuronIn(g, n) && SignalIn(g, inputs)
    ensures r.Ok? <==> |n.weights| <= Width(inputs)
    ensures r.Err? ==> r.error == UndefinedOperand
    ensures r.Ok? ==> && Valid(r.value.graph) && Extends(g, r.value.graph) && r.value.id < |r.value.graph|
                      && r.value.graph[r.value.id].data
                         == Dot(m, g[n.bias].data, DataOf(g, n.weights), Items(ValOf(g, m, inputs)), |n.weights|)
  {
    if |n.weights| <= Width(inputs) then
      GraphDotIsDot(g, m, n.bias, n.weights, Entries(inputs), |n.weights|);
      Ok(SumNodes(g, m, n.bias, n.weights, Entries(inputs), |n.weights|))
    else Err(UndefinedOperand)
  }

  predicate Supported(tag: string) {
    tag == "relu" || tag == "tanh" || tag == "linear" || tag == "softmax"
  }

  /** Node `out` is what activation `tag` makes of the sum node `sum`. */
  predicate Activated(h: Graph, m: Numerics, tag: string, sum: nat, out: nat)
    requires sum < |h| && out < |h|
  {
    && (tag == "relu" ==>
          h[out] == Node(m.round(if h[sum].data < 0.0 then 0.0 else h[sum].data), 0.0, ReluOf(sum), [sum]))
    && (tag == "tanh" ==>
          h[out] == Node(m.round(TanhF(m, h[sum].data)), 0.0, TanhOf(sum, TanhF(m, h[sum].data)), [sum]))
    && (tag == "linear" || tag == "softmax" ==> out == sum)
  }

  /** The number activation `tag` makes of a sum `s`; `softmax` and `linear` leave it alone. */
  function Activate(m: Numerics, tag: string, s: real): real {
    if tag == "relu" then m.round(if s < 0.0 then 0.0 else s)
    else if tag == "tanh" then m.round(TanhF(m, s))
    else s
  }

  /** A neuron as numbers: its weights' data, its bias's data and its activation tag. */
  datatype NeuronData = NeuronData(weights: seq<real>, bias: real, activation: string)

  /** What the neuron's parameters hold in `g`. */
  function Snapshot(g: Graph, n: Neuron): (r: NeuronData)
    requires NeuronIn(g, n)
    ensures r.weights == DataOf(g, n.weights) && r.bias == g[n.bias].data && r.activation == n.activation
  {
    NeuronData(DataOf(g, n.weights), g[n.bias].data, n.activation)
  }

  /** Growing the arena leaves a neuron's parameters alone. */
  lemma SnapshotExtends(g: Graph, g': Graph, n: Neuron)
    requires NeuronIn(g, n) && Extends(g, g')
    ensures NeuronIn(g', n) && Snapshot(g', n) == Snapshot(g, n)
  {
    DataOfExtends(g, g', n.weights);
  }

  /**
   * What a neuron computes, on numbers and without a graph: an input shorter than the weights
   * is an error, then an unknown tag, otherwise the activated weighted sum.
   */
  function Evaluate(m: Numerics, d: NeuronData, v: Val): Result<real> {
    if |d.weights| > |Items(v)| then Err(UndefinedOperand)
    else if !Supported(d.activation) then Err(UnsupportedActivation(d.activation))
    else Ok(Activate(m, d.activation, Dot(m, d.bias, d.weights, Items(v), |d.weights|)))
  }

  /**
   * `forward(inputs)`: the weighted sum, then `relu()` or `tanh()` on it, or the sum itself for
   * `linear` and `softmax`; any other tag throws once the sum is built. The node it returns
   * holds what `Evaluate` computes, and it fails exactly when `Evaluate` does, with the same error.
   */
  function Forward(g: Graph, m: Numerics, n: Neuron, inputs: Signal): (r: Result<Built>)
    requires Valid(g) && NeuronIn(g, n) && SignalIn(g, inputs)
    ensures r.Ok? <==> |n.weights| <= Width(inputs) && Supported(n.activation)
    ensures |n.weights| > Width(inputs) ==> r == Err(UndefinedOperand)
    ensures |n.weights| <= Width(inputs) && !Supported(n.activation) ==> r == Err(UnsupportedActivation(n.activation))
    ensures r.Ok? ==>
              && Valid(r.value.graph) && Extends(g, r.value.graph) && r.value.id < |r.value.graph|
              && var s := WeightedSum(g, m, n, inputs).value;
                 && s.id < |r.value.graph| && Extends(s.graph, r.value.graph)
                 && Activated(r.value.graph, m, n.activation, s.id, r.value.id)
    ensures r.Ok? ==> Evaluate(m, Snapshot(g, n), ValOf(g, m, inputs)) == Ok(r.value.graph[r.value.id].data)
    ensures r.Err? ==> Evaluate(m, Snapshot(g, n), ValOf(g, m, inputs)) == Err(r.error)
  {
    var s :- WeightedSum(g, m, n, inputs);
    if n.activation == "relu" then Ok(Relu(s.graph, m, s.id))
    else if n.activation == "tanh" then Ok(Tanh(s.graph, m, s.id))
    else if n.activation == "linear" || n.activation == "softmax" then Ok(s)
    else Err(UnsupportedActivation(n.activation))
  }

  /** `parameters()`: the weights, then the bias. */
  function Parameters(n: Neuron): (r: seq<nat>)
    ensures |r| == |n.weights| + 1 && r[..|n.weights|] == n.weights && r[|n.weights|] == n.bias
  {
    n.weights + [n.bias]
  }

  /** `toString()`: the upper-cased tag, `Neuron(`, the number of weights, `)`. */
  function ToString(n: Neuron): string {
    Upper(n.activation) + "Neuron(" + NatToString(|n.weights|) + ")"
  }

  // The nodes a forward pass appends draw only on the neuron's parameters and its inputs.

  /** The nodes among a signal's entries are within position `mark` on or `deps`. */
  predicate SignalWithin(s: Signal, mark: nat, deps: seq<nat>) {
    match s
    case Scalar(id) => Within(id, mark, deps)
    case Vector(xs) => forall i :: 0 <= i < |xs| && xs[i].Ref? ==> Within(xs[i].id, mark, deps)
  }

  /** Node `v` is one of the signal's entries. */
  predicate Names(s: Signal, v: nat) {
    match s
    case Scalar(id) => id == v
    case Vector(xs) => Ref(v) in xs
  }

  /** Each of the nodes `ids` is within position `mark` on or `deps`. */
  predicate IdsWithin(ids: seq<nat>, mark: nat, deps: seq<nat>) {
    forall k :: 0 <= k < |ids| ==> Within(ids[k], mark, deps)
  }

  /** The neuron's weights and bias are among `deps`. */
  predicate NeuronWithin(n: Neuron, deps: seq<nat>) {
    n.bias in deps && forall i :: 0 <= i < |n.weights| ==> n.weights[i] in deps
  }

  lemma SumStepConfined(g: Graph, h: Graph, m: Numerics, bias: nat, ws: seq<nat>, xs: seq<Operand>, k: nat, acc: nat,
                        mark: nat, deps: seq<nat>)
    requires Valid(h) && Extends(g, h) && bias < |g| && IdsIn(g, ws) && OperandsOk(g, xs)
    requires 0 < k <= |ws| && k <= |xs| && acc < |h| && h[acc].data == GraphDot(g, m, bias, ws, xs, k - 1)
    requires mark <= |h| && Confined(h, mark, deps) && Within(acc, mark, deps)
    requires ws[k - 1] in deps && (xs[k - 1].Ref? ==> Within(xs[k - 1].id, mark, deps))
    ensures SumStep(g, h, m, bias, ws, xs, k, acc).id >= mark
    ensures Confined(SumStep(g, h, m, bias, ws, xs, k, acc).graph, mark, deps)
  {
    MulConfined(h, m, ws[k - 1], xs[k - 1], mark, deps);
    AddConfined(Mul(h, m, ws[k - 1], xs[k - 1]).graph, m, acc, Ref(Mul(h, m, ws[k - 1], xs[k - 1]).id), mark, deps);
  }

  lemma {:induction false} SumNodesConfined(g: Graph, m: Numerics, bias: nat, ws: seq<nat>, xs: seq<Operand>, k: nat,
                                            mark: nat, deps: seq<nat>)
    requires Valid(g) && bias < |g| && IdsIn(g, ws) && OperandsOk(g, xs) && k <= |ws| && k <= |xs|
    requires mark <= |g| && Confined(g, mark, deps) && SignalWithin(Vector(xs), mark, deps)
    requires bias in deps && forall i :: 0 <= i < |ws| ==> ws[i] in deps
    ensures Within(SumNodes(g, m, bias, ws, xs, k).id, mark, deps)
    ensures Confined(SumNodes(g, m, bias, ws, xs, k).graph, mark, deps)
  {
    if k > 0 {
      var j := k - 1;
      SumNodesConfined(g, m, bias, ws, xs, j, mark, deps);
      SumStepConfined(g, SumNodes(g, m, bias, ws, xs, j).graph, m, bias, ws, xs, k,
                      SumNodes(g, m, bias, ws, xs, j).id, mark, deps);
    }
  }

  lemma ForwardConfined(g: Graph, m: Numerics, n: Neuron, inputs: Signal, mark: nat, deps: seq<nat>)
    requires Valid(g) && NeuronIn(g, n) && SignalIn(g, inputs)
    requires mark <= |g| && Confined(g, mark, deps) && NeuronWithin(n, deps) && SignalWithin(inputs, mark, deps)
    ensures Forward(g, m, n, inputs).Ok? ==>
              && Within(Forward(g, m, n, inputs).value.id, mark, deps)
              && Confined(Forward(g, m, n, inputs).value.graph, mark, deps)
  {
    if |n.weights| <= Width(inputs) {
      var s := SumNodes(g, m, n.bias, n.weights, Entries(inputs), |n.weights|);
      SumNodesConfined(g, m, n.bias, n.weights, Entries(inputs), |n.weights|, mark, deps);
      assert WeightedSum(g, m, n, inputs) == Ok(s);
      if n.activation == "relu" {
        ReluConfined(s.graph, m, s.id, mark, deps);
        assert Forward(g, m, n, inputs) == Ok(Relu(s.graph, m, s.id));
      } else if n.activation == "tanh" {
        TanhConfined(s.graph, m, s.id, mark, deps);
        assert Forward(g, m, n, inputs) == Ok(Tanh(s.graph, m, s.id));
      } else if n.activation == "linear" || n.activation == "softmax" {
        assert Forward(g, m, n, inputs) == Ok(s);
      }
    }
  }
}
