/**
 * `bootstrapModel(structure, activation)`: a live `Sequential` rebuilt from the plain numbers
 * `weights()` exports. Every weight becomes a fresh leaf. The neuron constructor has no `bias`
 * argument, so the serialised bias is passed along and dropped: every rebuilt bias is a fresh 0.
 * `BootstrapFixed` is the same construction with the bias kept.
 */
module Bootstrap {
  import opened Precision
  import opened Engine
  import opened Neurons
  import opened Layers
  import opened Sequentials

  /** The serialised form: one list per layer, one `{ weights, bias }` record per neuron. */
  type Structure = seq<seq<NeuronWeights>>

  datatype BuiltModel = BuiltModel(graph: Graph, model: Sequential)

  /** `isLast ? activation : 'relu'` for layer `i`. */
  function ActivationAt(s: Structure, i: nat, activation: string): string {
    if i == |s| - 1 then activation else "relu"
  }

  /** The bias a rebuilt neuron holds: the constructor's fresh 0, or the serialised one once kept. */
  function BiasOf(d: NeuronWeights, keepBias: bool): real {
    if keepBias then d.bias else 0.0
  }

  /** `weights.map((w) => new Value(w))`: a fresh leaf per number, in order. */
  function Values(g: Graph, m: Numerics, ws: seq<real>): (r: BuiltMany)
    requires Valid(g)
    ensures Valid(r.graph) && Extends(g, r.graph) && |r.graph| == |g| + |ws| && |r.ids| == |ws|
    ensures forall k :: 0 <= k < |ws| ==> r.ids[k] == |g| + k && r.graph[|g| + k] == Node(m.round(ws[k]), 0.0, Leaf, [])
    decreases |ws|
  {
    if |ws| == 0 then BuiltMany(g, [])
    else
      var h := Values(g, m, ws[..|ws| - 1]);
      var c := Constant(h.graph, m, ws[|ws| - 1]);
      BuiltMany(c.graph, h.ids + [c.id])
  }

  /**
   * Neuron `n` in `h` is the record `d` rebuilt: its weights and bias are leaves appended at or
   * after `mark`, with no gradient, holding the rounded numbers.
   */
  predicate Restored(h: Graph, m: Numerics, mark: nat, n: Neuron, d: NeuronWeights, bias: real, activation: string) {
    && |n.weights| == |d.weights| && n.activation == activation
    && (forall k :: 0 <= k < |n.weights| ==>
          mark <= n.weights[k] < |h| && h[n.weights[k]] == Node(m.round(d.weights[k]), 0.0, Leaf, []))
    && mark <= n.bias < |h| && h[n.bias] == Node(m.round(bias), 0.0, Leaf, [])
  }

  lemma RestoredExtends(h: Graph, h': Graph, m: Numerics, mark: nat, mark': nat, n: Neuron, d: NeuronWeights, bias: real, activation: string)
    requires Restored(h, m, mark, n, d, bias, activation) && Extends(h, h') && mark' <= mark
    ensures Restored(h', m, mark', n, d, bias, activation)
  {
  }

  /**
   * `new Neuron({ weights: weights.map((w) => new Value(w)), bias, activation })`: the weights
   * first, then the bias; the source's constructor makes that bias `new Value(0)`.
   */
  function RestoreNeuron(g: Graph, m: Numerics, d: NeuronWeights, activation: string, keepBias: bool): (r: BuiltNeuron)
    requires Valid(g)
    ensures Valid(r.graph) && Extends(g, r.graph)
    ensures Restored(r.graph, m, |g|, r.neuron, d, BiasOf(d, keepBias), activation)
  {
    var ws := Values(g, m, d.weights);
    if keepBias then
      var b := Constant(ws.graph, m, d.bias);
      BuiltNeuron(b.graph, Neuron(ws.ids, b.id, activation))
    else
      NewNeuron(ws.graph, m, Given(ws.ids), _ => 0.0, 0, activation)
  }

  /** Layer `l` is the records `ds` rebuilt, neuron by neuron. */
  predicate LayerRestored(h: Graph, m: Numerics, mark: nat, l: Layer, ds: seq<NeuronWeights>, activation: string, keepBias: bool) {
    && |l.neurons| == |ds|
    && forall j :: 0 <= j < |ds| ==> Restored(h, m, mark, l.neurons[j], ds[j], BiasOf(ds[j], keepBias), activation)
  }

  lemma LayerRestoredExtends(h: Graph, h': Graph, m: Numerics, mark: nat, l: Layer, ds: seq<NeuronWeights>, activation: string, keepBias: bool)
    requires LayerRestored(h, m, mark, l, ds, activation, keepBias) && Extends(h, h')
    ensures LayerRestored(h', m, mark, l, ds, activation, keepBias)
  {
    forall j | 0 <= j < |ds| ensures Restored(h', m, mark, l.neurons[j], ds[j], BiasOf(ds[j], keepBias), activation) {
      RestoredExtends(h, h', m, mark, mark, l.neurons[j], ds[j], BiasOf(ds[j], keepBias), activation);
    }
  }

  /** A rebuilt layer's nodes are in the arena. */
  lemma LayerRestoredIn(h: Graph, m: Numerics, mark: nat, l: Layer, ds: seq<NeuronWeights>, activation: string, keepBias: bool)
    requires LayerRestored(h, m, mark, l, ds, activation, keepBias)
    ensures LayerIn(h, l)
  {
    forall j | 0 <= j < |l.neurons| ensures NeuronIn(h, l.neurons[j]) {
      assert Restored(h, m, mark, l.neurons[j], ds[j], BiasOf(ds[j], keepBias), activation);
    }
  }

  /** `layer.map(({ weights, bias }) => new Neuron(...))` for the first `k` records. */
  function RestoreNeurons(g: Graph, m: Numerics, ds: seq<NeuronWeights>, activation: string, keepBias: bool, k: nat): (r: BuiltLayer)
    requires Valid(g) && k <= |ds|
    ensures Valid(r.graph) && Extends(g, r.graph)
    ensures LayerRestored(r.graph, m, |g|, r.layer, ds[..k], activation, keepBias)
  {
    if k == 0 then BuiltLayer(g, Layer([]))
    else
      var prev := RestoreNeurons(g, m, ds, activation, keepBias, k - 1);
      var n := RestoreNeuron(prev.graph, m, ds[k - 1], activation, keepBias);
      NeuronsSnoc(g, prev, n, m, ds, activation, keepBias, k);
      BuiltLayer(n.graph, Layer(prev.layer.neurons + [n.neuron]))
  }

  /** One more rebuilt neuron keeps the earlier ones rebuilt. */
  lemma NeuronsSnoc(g: Graph, prev: BuiltLayer, n: BuiltNeuron, m: Numerics, ds: seq<NeuronWeights>, activation: string, keepBias: bool, k: nat)
    requires 0 < k <= |ds| && |g| <= |prev.graph| && Extends(prev.graph, n.graph)
    requires LayerRestored(prev.graph, m, |g|, prev.layer, ds[..k - 1], activation, keepBias)
    requires Restored(n.graph, m, |prev.graph|, n.neuron, ds[k - 1], BiasOf(ds[k - 1], keepBias), activation)
    ensures LayerRestored(n.graph, m, |g|, Layer(prev.layer.neurons + [n.neuron]), ds[..k], activation, keepBias)
  {
    var ns := prev.layer.neurons + [n.neuron];
    forall j | 0 <= j < k ensures Restored(n.graph, m, |g|, ns[j], ds[j], BiasOf(ds[j], keepBias), activation) {
      if j < k - 1 {
        assert ds[..k - 1][j] == ds[j];
        RestoredExtends(prev.graph, n.graph, m, |g|, |g|, ns[j], ds[j], BiasOf(ds[j], keepBias), activation);
      } else {
        RestoredExtends(n.graph, n.graph, m, |prev.graph|, |g|, ns[j], ds[j], BiasOf(ds[j], keepBias), activation);
      }
    }
  }

  /** Layer `i` of `ls` is layer `i` of `s` rebuilt, with its activation. */
  predicate ModelRestored(h: Graph, m: Numerics, mark: nat, ls: seq<Layer>, s: Structure, activation: string, keepBias: bool) {
    && |ls| <= |s|
    && forall i :: 0 <= i < |ls| ==> LayerRestored(h, m, mark, ls[i], s[i], ActivationAt(s, i, activation), keepBias)
  }

  /** `structure.map((layer, index) => new Layer(...))` for the first `k` layers. */
  function RestoreLayers(g: Graph, m: Numerics, s: Structure, activation: string, keepBias: bool, k: nat): (r: BuiltModel)
    requires Valid(g) && k <= |s|
    ensures Valid(r.graph) && Extends(g, r.graph) && |r.model.layers| == k
    ensures ModelRestored(r.graph, m, |g|, r.model.layers, s, activation, keepBias)
  {
    if k == 0 then BuiltModel(g, Sequential([]))
    else
      var prev := RestoreLayers(g, m, s, activation, keepBias, k - 1);
      var l := RestoreNeurons(prev.graph, m, s[k - 1], ActivationAt(s, k - 1, activation), keepBias, |s[k - 1]|);
      LayersSnoc(g, prev, l, m, s, activation, keepBias, k);
      BuiltModel(l.graph, Sequential(prev.model.layers + [l.layer]))
  }

  /** One more rebuilt layer keeps the earlier ones rebuilt. */
  lemma LayersSnoc(g: Graph, prev: BuiltModel, l: BuiltLayer, m: Numerics, s: Structure, activation: string, keepBias: bool, k: nat)
    requires 0 < k <= |s| && |g| <= |prev.graph| && Extends(prev.graph, l.graph) && |prev.model.layers| == k - 1
    requires ModelRestored(prev.graph, m, |g|, prev.model.layers, s, activation, keepBias)
    requires LayerRestored(l.graph, m, |prev.graph|, l.layer, s[k - 1][..|s[k - 1]|], ActivationAt(s, k - 1, activation), keepBias)
    ensures ModelRestored(l.graph, m, |g|, prev.model.layers + [l.layer], s, activation, keepBias)
  {
    var ls := prev.model.layers + [l.layer];
    forall i | 0 <= i < k ensures LayerRestored(l.graph, m, |g|, ls[i], s[i], ActivationAt(s, i, activation), keepBias) {
      if i < k - 1 {
        LayerRestoredExtends(prev.graph, l.graph, m, |g|, ls[i], s[i], ActivationAt(s, i, activation), keepBias);
      } else {
        assert s[k - 1][..|s[k - 1]|] == s[i];
        forall j | 0 <= j < |s[i]|
          ensures Restored(l.graph, m, |g|, ls[i].neurons[j], s[i][j], BiasOf(s[i][j], keepBias), ActivationAt(s, i, activation))
        {
          RestoredExtends(l.graph, l.graph, m, |prev.graph|, |g|, ls[i].neurons[j], s[i][j], BiasOf(s[i][j], keepBias), ActivationAt(s, i, activation));
        }
      }
    }
  }

  /** A rebuilt model's nodes are in the arena. */
  lemma ModelRestoredIn(h: Graph, m: Numerics, mark: nat, ls: seq<Layer>, s: Structure, activation: string, keepBias: bool)
    requires ModelRestored(h, m, mark, ls, s, activation, keepBias)
    ensures LayersIn(h, ls)
  {
    forall i | 0 <= i < |ls| ensures LayerIn(h, ls[i]) {
      LayerRestoredIn(h, m, mark, ls[i], s[i], ActivationAt(s, i, activation), keepBias);
    }
  }

  /**
   * `bootstrapModel(structure, activation = 'softmax')`, as written: one layer per entry and one
   * neuron per record, in order; the last layer's neurons get `activation` and every earlier
   * one `relu`; every weight is a fresh leaf holding the rounded number, and every bias a fresh 0.
   */
  function BootstrapModel(g: Graph, m: Numerics, s: Structure, activation: string := "softmax"): (r: BuiltModel)
    requires Valid(g)
    ensures Valid(r.graph) && Extends(g, r.graph) && LayersIn(r.graph, r.model.layers)
    ensures |r.model.layers| == |s|
    ensures forall i :: 0 <= i < |s| ==> LayerRestored(r.graph, m, |g|, r.model.layers[i], s[i], ActivationAt(s, i, activation), false)
  {
    var r := RestoreLayers(g, m, s, activation, false, |s|);
    ModelRestoredIn(r.graph, m, |g|, r.model.layers, s, activation, false);
    r
  }

  /** The corrected construction: as `BootstrapModel`, but each bias leaf holds the serialised bias. */
  function BootstrapFixed(g: Graph, m: Numerics, s: Structure, activation: string := "softmax"): (r: BuiltModel)
    requires Valid(g)
    ensures Valid(r.graph) && Extends(g, r.graph) && LayersIn(r.graph, r.model.layers)
    ensures |r.model.layers| == |s|
    ensures forall i :: 0 <= i < |s| ==> LayerRestored(r.graph, m, |g|, r.model.layers[i], s[i], ActivationAt(s, i, activation), true)
  {
    var r := RestoreLayers(g, m, s, activation, true, |s|);
    ModelRestoredIn(r.graph, m, |g|, r.model.layers, s, activation, true);
    r
  }

  /** An empty structure gives a model with no layers and leaves the arena as it was. */
  lemma BootstrapEmpty(g: Graph, m: Numerics, activation: string)
    requires Valid(g)
    ensures BootstrapModel(g, m, [], activation) == BuiltModel(g, Sequential([]))
  {
  }

  // ---------------------------------------------------------------------------------------
  // Round trip through `weights()`
  // ---------------------------------------------------------------------------------------

  /** What `weights()` reads from a model rebuilt from `s`: the rounded weights, and the biases as rebuilt. */
  function Reread(m: Numerics, s: Structure, keepBias: bool): Structure {
    seq(|s|, i requires 0 <= i < |s| =>
      seq(|s[i]|, j requires 0 <= j < |s[i]| =>
        NeuronWeights(Rounded(m, s[i][j].weights), m.round(BiasOf(s[i][j], keepBias)))))
  }

  /** `weights()` of a rebuilt model, whichever way the biases were rebuilt. */
  lemma {:induction false} RestoreWeights(g: Graph, m: Numerics, s: Structure, activation: string, keepBias: bool)
    requires Valid(g)
    ensures var r := RestoreLayers(g, m, s, activation, keepBias, |s|);
            LayersIn(r.graph, r.model.layers) && Weights(r.graph, r.model) == Reread(m, s, keepBias)
  {
    var r := RestoreLayers(g, m, s, activation, keepBias, |s|);
    ModelRestoredIn(r.graph, m, |g|, r.model.layers, s, activation, keepBias);
    var w := Weights(r.graph, r.model);
    var e := Reread(m, s, keepBias);
    forall i | 0 <= i < |s| ensures w[i] == e[i] {
      RowWeights(r.graph, m, |g|, r.model, s, i, ActivationAt(s, i, activation), keepBias);
    }
  }

  /** What `weights()` reads from one rebuilt layer. */
  lemma RowWeights(h: Graph, m: Numerics, mark: nat, q: Sequential, s: Structure, i: nat, activation: string, keepBias: bool)
    requires LayersIn(h, q.layers) && i < |q.layers| && i < |s|
    requires LayerRestored(h, m, mark, q.layers[i], s[i], activation, keepBias)
    ensures Weights(h, q)[i] == Reread(m, s, keepBias)[i]
  {
    var w := Weights(h, q)[i];
    var e := Reread(m, s, keepBias)[i];
    forall j | 0 <= j < |s[i]| ensures w[j] == e[j] {
      RestoredWeights(h, m, mark, q.layers[i].neurons[j], s[i][j], keepBias, activation);
    }
  }

  /** What `weights()` reads from one rebuilt neuron. */
  lemma RestoredWeights(h: Graph, m: Numerics, mark: nat, n: Neuron, d: NeuronWeights, keepBias: bool, activation: string)
    requires Restored(h, m, mark, n, d, BiasOf(d, keepBias), activation)
    ensures NeuronIn(h, n)
    ensures NeuronWeights(DataOf(h, n.weights), h[n.bias].data) == NeuronWeights(Rounded(m, d.weights), m.round(BiasOf(d, keepBias)))
  {
    assert DataOf(h, n.weights) == Rounded(m, d.weights);
  }

  /**
   * The shape of `structure` survives `bootstrapModel(structure).weights()`, and so do the weights
   * up to rounding, but every bias comes back as a rounded 0.
   */
  lemma BootstrapWeights(g: Graph, m: Numerics, s: Structure, activation: string)
    requires Valid(g)
    ensures var r := BootstrapModel(g, m, s, activation);
            Weights(r.graph, r.model) == Reread(m, s, false)
  {
    RestoreWeights(g, m, s, activation, false);
  }

  /** The same round trip with the biases kept: each comes back rounded. */
  lemma BootstrapFixedWeights(g: Graph, m: Numerics, s: Structure, activation: string)
    requires Valid(g)
    ensures var r := BootstrapFixed(g, m, s, activation);
            Weights(r.graph, r.model) == Reread(m, s, true)
  {
    RestoreWeights(g, m, s, activation, true);
  }

  /** Every number of `s` is one rounding leaves alone, as every number a node holds is. */
  predicate Settled(m: Numerics, s: Structure) {
    forall i, j :: 0 <= i < |s| && 0 <= j < |s[i]| ==>
      Rounded(m, s[i][j].weights) == s[i][j].weights && m.round(s[i][j].bias) == s[i][j].bias
  }

  /** On settled numbers the corrected construction round-trips exactly. */
  lemma FixedRoundTrip(g: Graph, m: Numerics, s: Structure, activation: string)
    requires Valid(g) && Settled(m, s)
    ensures var r := BootstrapFixed(g, m, s, activation);
            Weights(r.graph, r.model) == s
  {
    RestoreWeights(g, m, s, activation, true);
    var e := Reread(m, s, true);
    forall i | 0 <= i < |s| ensures e[i] == s[i] {
      forall j | 0 <= j < |s[i]| ensures e[i][j] == s[i][j] {
        assert e[i][j] == NeuronWeights(Rounded(m, s[i][j].weights), m.round(s[i][j].bias));
      }
    }
  }

  /** With `toFixed(8)` rounding, what the corrected construction reads back is settled. */
  lemma RereadSettled(m: Numerics, s: Structure)
    requires RoundsToFixed8(m)
    ensures Settled(m, Reread(m, s, true))
  {
    var e: seq<seq<NeuronWeights>> := Reread(m, s, true);
    forall i: int, j: int | 0 <= i < |e| && 0 <= j < |e[i]|
      ensures Rounded(m, e[i][j].weights) == e[i][j].weights && m.round(e[i][j].bias) == e[i][j].bias
    {
      var ws := s[i][j].weights;
      assert e[i][j] == NeuronWeights(Rounded(m, ws), m.round(s[i][j].bias));
      forall k | 0 <= k < |ws| ensures m.round(m.round(ws[k])) == m.round(ws[k]) {
        RoundIdempotent(ws[k]);
      }
      RoundIdempotent(s[i][j].bias);
    }
  }

  /**
   * Exporting a model rebuilt by the corrected construction and rebuilding it again changes
   * nothing: the second `weights()` equals the first.
   */
  lemma FixedRebuildStable(g: Graph, g': Graph, m: Numerics, s: Structure, activation: string)
    requires Valid(g) && Valid(g') && RoundsToFixed8(m)
    ensures var r := BootstrapFixed(g, m, s, activation);
            var r' := BootstrapFixed(g', m, Weights(r.graph, r.model), activation);
            Weights(r'.graph, r'.model) == Weights(r.graph, r.model)
  {
    var r := BootstrapFixed(g, m, s, activation);
    BootstrapFixedWeights(g, m, s, activation);
    RereadSettled(m, s);
    FixedRoundTrip(g', m, Weights(r.graph, r.model), activation);
  }

  // ---------------------------------------------------------------------------------------
  // The dropped bias
  // ---------------------------------------------------------------------------------------

  /** A single neuron with no weights and bias 1. */
  function UnitBias(): Structure {
    [[NeuronWeights([], 1.0)]]
  }

  /**
   * As written the round trip fails: `weights()` of the model rebuilt from one neuron with bias 1
   * reports bias 0.
   */
  lemma BootstrapDropsBias(g: Graph, m: Numerics)
    requires Valid(g) && RoundsToFixed8(m)
    ensures var r := BootstrapModel(g, m, UnitBias());
            Weights(r.graph, r.model) == [[NeuronWeights([], 0.0)]] != UnitBias()
  {
    BootstrapWeights(g, m, UnitBias(), "softmax");
    RoundFixesInteger(0);
    var e := Reread(m, UnitBias(), false);
    assert Rounded(m, []) == [];
    assert e[0] == [NeuronWeights([], 0.0)];
  }

  /** The corrected construction gives that bias back. */
  lemma BootstrapFixedKeepsBias(g: Graph, m: Numerics)
    requires Valid(g) && RoundsToFixed8(m)
    ensures var r := BootstrapFixed(g, m, UnitBias());
            Weights(r.graph, r.model) == UnitBias()
  {
    RoundFixesInteger(1);
    FixedRoundTrip(g, m, UnitBias(), "softmax");
  }

  // ---------------------------------------------------------------------------------------
  // The forward pass survives the round trip
  // ---------------------------------------------------------------------------------------

  /** The model's activations are `relu` except in the last layer, which has `activation`. */
  predicate ActivatedAs(g: Graph, q: Sequential, activation: string)
    requires LayersIn(g, q.layers)
  {
    forall i, j :: 0 <= i < |q.layers| && 0 <= j < |q.layers[i].neurons| ==>
      q.layers[i].neurons[j].activation == (if i == |q.layers| - 1 then activation else "relu")
  }

  /** A neuron rebuilt from a settled export of another has that neuron's numbers and tag. */
  lemma RestoredSnapshot(rg: Graph, h: Graph, m: Numerics, mark: nat, n: Neuron, o: Neuron, d: NeuronWeights, activation: string)
    requires NeuronIn(h, o) && d == NeuronWeights(DataOf(h, o.weights), h[o.bias].data) && o.activation == activation
    requires Rounded(m, d.weights) == d.weights && m.round(d.bias) == d.bias
    requires Restored(rg, m, mark, n, d, d.bias, activation)
    ensures NeuronIn(rg, n) && Snapshot(rg, n) == Snapshot(h, o)
  {
    RestoredWeights(rg, m, mark, n, d, true, activation);
  }

  /**
   * Rebuilding a model from its settled export with the corrected construction gives back
   * the same numbers and tags, so the rebuilt model computes what the original did on every input.
   */
  lemma FixedForwardAgrees(h: Graph, q: Sequential, g: Graph, m: Numerics, activation: string)
    requires LayersIn(h, q.layers) && Valid(g)
    requires Settled(m, Weights(h, q)) && ActivatedAs(h, q, activation)
    ensures var r := BootstrapFixed(g, m, Weights(h, q), activation);
            ModelSnapshot(r.graph, r.model.layers) == ModelSnapshot(h, q.layers)
  {
    var s := Weights(h, q);
    var r := BootstrapFixed(g, m, s, activation);
    var a := ModelSnapshot(r.graph, r.model.layers);
    var b := ModelSnapshot(h, q.layers);
    forall i | 0 <= i < |s| ensures a[i] == b[i] {
      var l := r.model.layers[i];
      var act := ActivationAt(s, i, activation);
      assert LayerRestored(r.graph, m, |g|, l, s[i], act, true);
      forall j | 0 <= j < |s[i]| ensures a[i][j] == b[i][j] {
        RestoredSnapshot(r.graph, h, m, |g|, l.neurons[j], q.layers[i].neurons[j], s[i][j], act);
      }
    }
  }
}
