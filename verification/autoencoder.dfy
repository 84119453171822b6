/**
 * `Autoencoder`: an encoder and a decoder model. The forward pass copies the encoder's
 * outputs into fresh leaves before the decoder reads them, so the decoder's graph has no link
 * back into the encoder's.
 */
module Autoencoders {
  import opened Precision
  import opened Results
  import opened Engine
  import opened Strings
  import opened Neurons
  import opened Layers
  import opened Sequentials
  import opened Backprop

  datatype Autoencoder = Autoencoder(encoder: Sequential, decoder: Sequential)

  predicate AutoencoderIn(g: Graph, a: Autoencoder) {
    LayersIn(g, a.encoder.layers) && LayersIn(g, a.decoder.layers)
  }

  /**
   * The first `k` steps of `encoded.map((v) => new Value(v.data))`: a fresh leaf holding each
   * entry's data. A plain number has no `data`, and `new Value(undefined)` throws.
   */
  function Detach(h: Graph, m: Numerics, xs: seq<Operand>, k: nat): (r: Result<BuiltMany>)
    requires Valid(h) && OperandsOk(h, xs) && k <= |xs|
    ensures r.Ok? <==> forall i :: 0 <= i < k ==> xs[i].Ref?
    ensures r.Err? ==> r.error == UndefinedOperand
    ensures r.Ok? ==> && Valid(r.value.graph) && Extends(h, r.value.graph)
                      && |r.value.graph| == |h| + k && |r.value.ids| == k
                      && forall i :: 0 <= i < k ==>
                           && r.value.ids[i] == |h| + i
                           && r.value.graph[|h| + i] == Node(m.round(h[xs[i].id].data), 0.0, Leaf, [])
  {
    if k == 0 then Ok(BuiltMany(h, []))
    else
      var prev := Detach(h, m, xs, k - 1);
      if prev.Err? then prev
      else if xs[k - 1].Num? then Err(UndefinedOperand)
      else
        var c := Constant(prev.value.graph, m, h[xs[k - 1].id].data);
        Ok(BuiltMany(c.graph, prev.value.ids + [c.id]))
  }

  /** Copy `i` is a fresh leaf holding entry `i`'s data, rounded. */
  lemma DetachEntry(h: Graph, m: Numerics, xs: seq<Operand>, i: nat)
    requires Valid(h) && OperandsOk(h, xs) && Detach(h, m, xs, |xs|).Ok? && i < |xs|
    ensures Detach(h, m, xs, |xs|).value.ids[i] < |Detach(h, m, xs, |xs|).value.graph|
    ensures Detach(h, m, xs, |xs|).value.graph[Detach(h, m, xs, |xs|).value.ids[i]].data
            == m.round(ValOf(h, m, Vector(xs)).xs[i])
  {
    assert xs[i].Ref?;
    assert ValOf(h, m, Vector(xs)).xs[i] == h[xs[i].id].data;
  }

  /** The copies hold the encoder's numbers, rounded. */
  lemma DetachData(h: Graph, m: Numerics, xs: seq<Operand>)
    requires Valid(h) && OperandsOk(h, xs) && Detach(h, m, xs, |xs|).Ok?
    ensures SignalIn(Detach(h, m, xs, |xs|).value.graph, Vector(RefsTo(Detach(h, m, xs, |xs|).value.ids)))
    ensures ValOf(Detach(h, m, xs, |xs|).value.graph, m, Vector(RefsTo(Detach(h, m, xs, |xs|).value.ids)))
            == Many(Rounded(m, ValOf(h, m, Vector(xs)).xs))
  {
    var d := Detach(h, m, xs, |xs|).value;
    forall i | 0 <= i < |xs| ensures d.ids[i] < |d.graph| && d.graph[d.ids[i]].data == m.round(ValOf(h, m, Vector(xs)).xs[i]) {
      DetachEntry(h, m, xs, i);
    }
    RefsData(d.graph, m, d.ids);
    assert DataOf(d.graph, d.ids) == Rounded(m, ValOf(h, m, Vector(xs)).xs);
  }

  /**
   * `forward(inputs)`: the encoder, the copy into fresh leaves, then the decoder. An encoder
   * that returns a single node fails, since a single `Value` has no `map`. On numbers: the
   * decoder computes on the rounded outputs of the encoder.
   */
  function Forward(g: Graph, m: Numerics, a: Autoencoder, inputs: Signal): (r: Result<Emitted>)
    requires Valid(g) && AutoencoderIn(g, a) && SignalIn(g, inputs)
    ensures r.Ok? ==> Valid(r.value.graph) && Extends(g, r.value.graph) && SignalIn(r.value.graph, r.value.out)
    ensures var enc := Sequentials.Evaluate(m, ModelSnapshot(g, a.encoder.layers), ValOf(g, m, inputs));
            && (enc.Err? ==> r == Err(enc.error))
            && (enc.Ok? && enc.value.One? ==> r == Err(NotAList))
            && (r.Ok? ==> && enc.Ok? && enc.value.Many?
                          && Sequentials.Evaluate(m, ModelSnapshot(g, a.decoder.layers), Many(Rounded(m, enc.value.xs)))
                             == Ok(ValOf(r.value.graph, m, r.value.out)))
  {
    var e :- Sequentials.Forward(g, m, a.encoder, inputs);
    if e.out.Scalar? then Err(NotAList)
    else
      var d :- Detach(e.graph, m, e.out.xs, |e.out.xs|);
      DetachData(e.graph, m, e.out.xs);
      ModelSnapshotExtends(g, d.graph, a.decoder.layers);
      Sequentials.Forward(d.graph, m, a.decoder, Vector(RefsTo(d.ids)))
  }

  /** The copies are leaves, so from them on nothing reaches back before them. */
  lemma DetachConfined(h: Graph, m: Numerics, xs: seq<Operand>, deps: seq<nat>)
    requires Valid(h) && OperandsOk(h, xs) && Detach(h, m, xs, |xs|).Ok?
    ensures Confined(Detach(h, m, xs, |xs|).value.graph, |h|, deps)
    ensures SignalWithin(Vector(RefsTo(Detach(h, m, xs, |xs|).value.ids)), |h|, deps)
  {
    var d := Detach(h, m, xs, |xs|).value;
    forall v | |h| <= v < |d.graph| ensures OperandsWithin(d.graph[v], |h|, deps) {
      var i := v - |h|;
      assert d.ids[i] == v;
    }
    ConfinedIntro(d.graph, |h|, deps, |h|);
  }

  /**
   * The decoder's pass appends nodes that reach back, past the end of the encoder's pass, only
   * to the decoder's parameters.
   */
  lemma DecoderConfined(g: Graph, m: Numerics, a: Autoencoder, inputs: Signal)
    requires Valid(g) && AutoencoderIn(g, a) && SignalIn(g, inputs) && Forward(g, m, a, inputs).Ok?
    ensures Sequentials.Forward(g, m, a.encoder, inputs).Ok?
    ensures Confined(Forward(g, m, a, inputs).value.graph,
                     |Sequentials.Forward(g, m, a.encoder, inputs).value.graph|, Sequentials.Parameters(a.decoder))
    ensures SignalWithin(Forward(g, m, a, inputs).value.out,
                         |Sequentials.Forward(g, m, a.encoder, inputs).value.graph|, Sequentials.Parameters(a.decoder))
  {
    var e := Sequentials.Forward(g, m, a.encoder, inputs).value;
    var d := Detach(e.graph, m, e.out.xs, |e.out.xs|).value;
    DetachConfined(e.graph, m, e.out.xs, Sequentials.Parameters(a.decoder));
    LayersInExtends(g, d.graph, a.decoder.layers);
    Sequentials.ForwardConfined(d.graph, m, a.decoder, Vector(RefsTo(d.ids)), |e.graph|);
    assert Forward(g, m, a, inputs) == Sequentials.Forward(d.graph, m, a.decoder, Vector(RefsTo(d.ids)));
  }

  /**
   * `backward` from any output of the decoder reaches, of the nodes that were there before
   * the copies were made, only the decoder's own parameters: never a node the encoder's pass
   * appended, and never an encoder parameter the decoder does not share.
   */
  lemma DetachCuts(g: Graph, m: Numerics, a: Autoencoder, inputs: Signal, v: nat)
    requires Valid(g) && AutoencoderIn(g, a) && SignalIn(g, inputs)
    requires Leaves(g, Sequentials.Parameters(a.decoder))
    requires Forward(g, m, a, inputs).Ok? && Names(Forward(g, m, a, inputs).value.out, v)
    ensures Sequentials.Forward(g, m, a.encoder, inputs).Ok?
    ensures v < |Forward(g, m, a, inputs).value.graph|
    ensures forall u :: u in Reachable(Forward(g, m, a, inputs).value.graph, v) ==>
              u >= |Sequentials.Forward(g, m, a.encoder, inputs).value.graph| || u in Sequentials.Parameters(a.decoder)
  {
    var mark := |Sequentials.Forward(g, m, a.encoder, inputs).value.graph|;
    var ps := Sequentials.Parameters(a.decoder);
    var f := Forward(g, m, a, inputs).value;
    DecoderConfined(g, m, a, inputs);
    assert Within(v, mark, ps) && v < |f.graph| by {
      if f.out.Vector? {
        var i :| 0 <= i < |f.out.xs| && f.out.xs[i] == Ref(v);
      }
    }
    ConfinedReach(f.graph, mark, ps, v);
  }

  /** `parameters()`: the encoder's, then the decoder's. */
  function Parameters(a: Autoencoder): (r: seq<nat>)
    ensures |r| == |Sequentials.Parameters(a.encoder)| + |Sequentials.Parameters(a.decoder)|
    ensures r[..|Sequentials.Parameters(a.encoder)|] == Sequentials.Parameters(a.encoder)
    ensures r[|Sequentials.Parameters(a.encoder)|..] == Sequentials.Parameters(a.decoder)
  {
    Sequentials.Parameters(a.encoder) + Sequentials.Parameters(a.decoder)
  }

  /** `toString()`: one `Sequential of [...]` holding the encoder's layers, then the decoder's. */
  function ToString(a: Autoencoder): (r: string)
    ensures r == Sequentials.ToString(Sequential(a.encoder.layers + a.decoder.layers))
  {
    "Sequential of [" + Join(LayerStrings(a.encoder.layers + a.decoder.layers), ", ") + "]"
  }
}
