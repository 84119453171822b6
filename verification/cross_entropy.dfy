/**
 * `crossEntropyLoss(predictions, labels)`: for each prediction `p_j` in order, a leaf holding
 * `-labels[j]` times `p_j.log()`, then the terms added left to right onto a fresh `Value(0)`.
 * No softmax is applied: the predictions are used as the probabilities they are given as.
 */
module CrossEntropy {
  import opened Precision
  import opened Engine
  import opened Neurons

  /** One term on numbers: `new Value(-label).mul(p.log())`, each node rounding its data. */
  function Term(m: Numerics, y: real, p: real): real {
    m.round(m.times(m.round(-y), m.round(m.ln(LogArgument(p, Epsilon)))))
  }

  /** The reference loss on numbers: a rounded 0, then each term added in index order. */
  function LossOf(m: Numerics, labels: seq<real>, ps: seq<real>): real
    requires |ps| <= |labels|
  {
    if |ps| == 0 then m.round(0.0)
    else m.round(LossOf(m, labels, ps[..|ps| - 1]) + Term(m, labels[|ps| - 1], ps[|ps| - 1]))
  }

  /** Node `v` of `g` once `log` has run on each of `ps`: a zero in its data became epsilon. */
  function Logged(g: Graph, ps: seq<nat>, v: nat): Node
    requires v < |g|
  {
    if v in ps then g[v].(data := LogArgument(g[v].data, Epsilon)) else g[v]
  }

  /** Replacing a zero twice is replacing it once, so a repeated prediction logs alike. */
  lemma LogArgumentIdempotent(x: real)
    ensures LogArgument(LogArgument(x, Epsilon), Epsilon) == LogArgument(x, Epsilon)
  {
  }

  /** A term sees its prediction only through the argument `log` takes. */
  lemma TermOfArgument(m: Numerics, y: real, p: real, q: real)
    requires LogArgument(p, Epsilon) == LogArgument(q, Epsilon)
    ensures Term(m, y, p) == Term(m, y, q)
  {
  }

  /** `h` shows the nodes of `g` as `log` left them after running on each of `ps`. */
  predicate LoggedBy(h: Graph, g: Graph, ps: seq<nat>)
    requires |g| <= |h|
  {
    forall v :: 0 <= v < |g| ==> h[v] == Logged(g, ps, v)
  }

  /** The `k` products of `ids` sit every third node after `g` and hold the reference terms. */
  predicate TermsFrom(h: Graph, m: Numerics, g: Graph, preds: seq<nat>, labels: seq<real>, ids: seq<nat>, k: nat)
    requires IdsIn(g, preds) && k <= |preds| <= |labels|
  {
    && |ids| == k
    && forall i :: 0 <= i < k ==>
         ids[i] == |g| + 3 * i + 2 && ids[i] < |h| && h[ids[i]].data == Term(m, labels[i], g[preds[i]].data)
  }

  /** One more `log` on `p` turns the picture for `ps` into the picture for `ps + [p]`. */
  lemma LoggedStep(h: Graph, t: Graph, g: Graph, ps: seq<nat>, p: nat)
    requires |g| <= |h| <= |t| && p < |g| && LoggedBy(h, g, ps)
    requires t[p] == h[p].(data := LogArgument(h[p].data, Epsilon))
    requires forall v :: 0 <= v < |h| && v != p ==> t[v] == h[v]
    ensures LoggedBy(t, g, ps + [p])
  {
    forall v | 0 <= v < |g| ensures t[v] == Logged(g, ps + [p], v) {
      assert (v in ps + [p]) == (v in ps || v == p);
      LogArgumentIdempotent(g[v].data);
    }
  }

  /** A new product for prediction `k - 1` extends the terms, whatever `log` did earlier. */
  lemma TermsStep(h: Graph, t: Built, m: Numerics, g: Graph, preds: seq<nat>, labels: seq<real>, ids: seq<nat>, k: nat)
    requires IdsIn(g, preds) && 0 < k <= |preds| <= |labels| && |h| == |g| + 3 * (k - 1)
    requires LoggedBy(h, g, preds[..k - 1]) && TermsFrom(h, m, g, preds, labels, ids, k - 1)
    requires |t.graph| == |h| + 3 && t.id == |h| + 2
    requires forall v :: 0 <= v < |h| && v != preds[k - 1] ==> t.graph[v] == h[v]
    requires t.graph[t.id].data == Term(m, labels[k - 1], h[preds[k - 1]].data)
    ensures TermsFrom(t.graph, m, g, preds, labels, ids + [t.id], k)
  {
    var p := preds[k - 1];
    LogArgumentIdempotent(g[p].data);
    TermOfArgument(m, labels[k - 1], h[p].data, g[p].data);
    forall i | 0 <= i < k - 1
      ensures (ids + [t.id])[i] < |t.graph| && t.graph[(ids + [t.id])[i]].data == Term(m, labels[i], g[preds[i]].data)
    {
      assert (ids + [t.id])[i] == ids[i] >= |g|;
    }
  }

  /**
   * One step of the map: a leaf for `-y`, then `p.log()`, which may overwrite `p`'s data, then
   * their product.
   */
  function TermNode(h: Graph, m: Numerics, p: nat, y: real): (r: Built)
    requires Valid(h) && p < |h|
    ensures Valid(r.graph) && |r.graph| == |h| + 3 && r.id == |h| + 2
    ensures r.graph[p] == h[p].(data := LogArgument(h[p].data, Epsilon))
    ensures forall v :: 0 <= v < |h| && v != p ==> r.graph[v] == h[v]
    ensures r.graph[r.id].data == Term(m, y, h[p].data)
  {
    var c := Constant(h, m, -y);
    var l := Log(c.graph, m, p);
    assert l.graph[c.id] == c.graph[c.id];
    Mul(l.graph, m, c.id, Ref(l.id))
  }

  /**
   * The first `k` steps of `predictions.map((p, j) => new Value(-labels[j]).mul(p.log()))`: the
   * products hold the reference terms of the predictions' original data (a prediction met twice
   * has its zero replaced only once), and the earlier nodes are as `log` left them.
   */
  function MapTerms(g: Graph, m: Numerics, preds: seq<nat>, labels: seq<real>, k: nat): (r: BuiltMany)
    requires Valid(g) && IdsIn(g, preds) && k <= |preds| <= |labels|
    ensures Valid(r.graph) && |r.graph| == |g| + 3 * k
    ensures LoggedBy(r.graph, g, preds[..k])
    ensures TermsFrom(r.graph, m, g, preds, labels, r.ids, k)
  {
    if k == 0 then BuiltMany(g, [])
    else
      var prev := MapTerms(g, m, preds, labels, k - 1);
      var t := TermNode(prev.graph, m, preds[k - 1], labels[k - 1]);
      MapTermsStep(g, m, preds, labels, k, prev, t);
      BuiltMany(t.graph, prev.ids + [t.id])
  }

  /** Step `k` of the map keeps both halves of its contract. */
  lemma MapTermsStep(g: Graph, m: Numerics, preds: seq<nat>, labels: seq<real>, k: nat, prev: BuiltMany, t: Built)
    requires Valid(g) && IdsIn(g, preds) && 0 < k <= |preds| <= |labels|
    requires Valid(prev.graph) && |prev.graph| == |g| + 3 * (k - 1)
    requires LoggedBy(prev.graph, g, preds[..k - 1]) && TermsFrom(prev.graph, m, g, preds, labels, prev.ids, k - 1)
    requires t == TermNode(prev.graph, m, preds[k - 1], labels[k - 1])
    ensures LoggedBy(t.graph, g, preds[..k]) && TermsFrom(t.graph, m, g, preds, labels, prev.ids + [t.id], k)
  {
    assert preds[..k] == preds[..k - 1] + [preds[k - 1]];
    LoggedStep(prev.graph, t.graph, g, preds[..k - 1], preds[k - 1]);
    TermsStep(prev.graph, t, m, g, preds, labels, prev.ids, k);
  }

  /** The left-leaning `add` chain over the terms adds up the reference loss. */
  lemma {:induction false} ChainSumIsLoss(h: Graph, m: Numerics, ids: seq<nat>, labels: seq<real>, ps: seq<real>)
    requires |ids| == |ps| <= |labels|
    requires forall i :: 0 <= i < |ids| ==> ids[i] < |h| && h[ids[i]].data == Term(m, labels[i], ps[i])
    ensures ChainSum(h, m, m.round(0.0), ids) == LossOf(m, labels, ps)
  {
    if |ids| > 0 {
      var n := |ids| - 1;
      ChainSumIsLoss(h, m, ids[..n], labels, ps[..n]);
    }
  }

  /** `crossEntropyLoss(predictions, labels)`: the map, then `reduce` onto a fresh `Value(0)`. */
  function Loss(g: Graph, m: Numerics, preds: seq<nat>, labels: seq<real>): (r: Built)
    requires Valid(g) && IdsIn(g, preds) && |preds| <= |labels|
    ensures Valid(r.graph) && |r.graph| == |g| + 4 * |preds| + 1 && r.id < |r.graph|
  {
    var terms := MapTerms(g, m, preds, labels, |preds|);
    var z := Constant(terms.graph, m, 0.0);
    AddAll(z.graph, m, z.id, terms.ids)
  }

  /** The loss node holds the reference loss of the predictions' original data. */
  lemma LossValue(g: Graph, m: Numerics, preds: seq<nat>, labels: seq<real>)
    requires Valid(g) && IdsIn(g, preds) && |preds| <= |labels|
    ensures Loss(g, m, preds, labels).graph[Loss(g, m, preds, labels).id].data == LossOf(m, labels, DataOf(g, preds))
  {
    var terms := MapTerms(g, m, preds, labels, |preds|);
    var z := Constant(terms.graph, m, 0.0);
    var ps := DataOf(g, preds);
    forall i | 0 <= i < |terms.ids|
      ensures terms.ids[i] < |z.graph| && z.graph[terms.ids[i]].data == Term(m, labels[i], ps[i])
    {
      assert z.graph[terms.ids[i]] == terms.graph[terms.ids[i]];
    }
    ChainSumIsLoss(z.graph, m, terms.ids, labels, ps);
  }

  /** The loss as a number: the loss node, or NaN when some term's label is missing. */
  datatype Outcome = Number(built: Built) | NaN

  /**
   * `crossEntropyLoss` for any labels: a prediction without a label makes its leaf
   * `new Value(-undefined)`, which holds NaN, and NaN carries through the product and every sum
   * after it, so the loss is NaN exactly when there are more predictions than labels.
   */
  function TotalLoss(g: Graph, m: Numerics, preds: seq<nat>, labels: seq<real>): (r: Outcome)
    requires Valid(g) && IdsIn(g, preds)
    ensures r.NaN? <==> |labels| < |preds|
    ensures r.Number? ==> && Valid(r.built.graph) && r.built.id < |r.built.graph|
                          && r.built.graph[r.built.id].data == LossOf(m, labels, DataOf(g, preds))
  {
    if |labels| < |preds| then NaN
    else
      LossValue(g, m, preds, labels);
      Number(Loss(g, m, preds, labels))
  }

  /** Afterwards every prediction whose data was 0 holds 1e-8, and no other earlier node changed. */
  lemma LossLogs(g: Graph, m: Numerics, preds: seq<nat>, labels: seq<real>, v: nat)
    requires Valid(g) && IdsIn(g, preds) && |preds| <= |labels| && v < |g|
    ensures Loss(g, m, preds, labels).graph[v] == Logged(g, preds, v)
  {
    var terms := MapTerms(g, m, preds, labels, |preds|);
    assert preds[..|preds|] == preds;
    assert terms.graph[v] == Logged(g, preds, v);
  }

  /** What a rounding must do for the one-hot loss to come out exact: fix 0 and 1, be odd, settle. */
  ghost predicate SettledRounding(m: Numerics) {
    && m.round(0.0) == 0.0
    && m.round(1.0) == 1.0
    && (forall x: real :: m.round(-x) == -m.round(x))
    && (forall x: real :: m.round(m.round(x)) == m.round(x))
  }

  /** `toFixed(8)` is such a rounding. */
  lemma Fixed8Settled(m: Numerics)
    requires RoundsToFixed8(m)
    ensures SettledRounding(m)
  {
    RoundFixesInteger(0);
    RoundFixesInteger(1);
    forall x: real ensures m.round(-x) == -m.round(x) {
      RoundOdd(x);
    }
    forall x: real ensures m.round(m.round(x)) == m.round(x) {
      RoundIdempotent(x);
    }
  }

  /** A settled rounding leaves a negated rounded number as it is. */
  lemma SettledNegation(m: Numerics, x: real)
    requires SettledRounding(m)
    ensures m.round(-m.round(x)) == -m.round(x) && m.round(-m.round(x) + 0.0) == -m.round(x)
    ensures m.round(0.0 + -m.round(x)) == -m.round(x)
  {
    assert -m.round(x) + 0.0 == 0.0 + -m.round(x) == -m.round(x);
    assert m.round(-m.round(x)) == -m.round(m.round(x));
  }

  /** A prediction whose label is 0 adds nothing. */
  lemma TermOfZeroLabel(m: Numerics, y: real, p: real)
    requires m.round(0.0) == 0.0 && y == 0.0 && ExactProducts(m)
    ensures Term(m, y, p) == 0.0
  {
    var z, l := m.round(-y), m.round(m.ln(LogArgument(p, Epsilon)));
    assert -y == 0.0;
    assert z == 0.0;
    assert m.times(z, l) == z * l == 0.0;
  }

  /** A prediction whose label is 1 adds minus its rounded logarithm. */
  lemma TermOfUnitLabel(m: Numerics, p: real)
    requires SettledRounding(m) && ExactProducts(m)
    ensures Term(m, 1.0, p) == -m.round(m.ln(LogArgument(p, Epsilon)))
  {
    var z := m.ln(LogArgument(p, Epsilon));
    var l := m.round(z);
    assert m.round(-1.0) == -1.0 by {
      assert m.round(-1.0) == -m.round(1.0);
    }
    assert m.times(-1.0, l) == -l;
    assert m.round(m.round(z)) == m.round(z);
    assert m.round(-l) == -m.round(l);
  }

  /** Labels 1 at `k` and 0 everywhere else. */
  predicate OneHotAt(labels: seq<real>, k: nat) {
    k < |labels| && forall j :: 0 <= j < |labels| ==> labels[j] == (if j == k then 1.0 else 0.0)
  }

  /**
   * For one-hot labels the loss of the first predictions is 0 before the labelled class and
   * minus the rounded logarithm of the labelled prediction from it on.
   */
  lemma {:induction false} OneHotPrefix(m: Numerics, labels: seq<real>, ps: seq<real>, k: nat)
    requires SettledRounding(m) && ExactProducts(m) && OneHotAt(labels, k) && |ps| <= |labels|
    ensures LossOf(m, labels, ps) == if k < |ps| then -m.round(m.ln(LogArgument(ps[k], Epsilon))) else 0.0
  {
    if |ps| > 0 {
      var n := |ps| - 1;
      var acc := LossOf(m, labels, ps[..n]);
      OneHotPrefix(m, labels, ps[..n], k);
      if n == k {
        TermOfUnitLabel(m, ps[n]);
        SettledNegation(m, m.ln(LogArgument(ps[n], Epsilon)));
      } else {
        TermOfZeroLabel(m, labels[n], ps[n]);
        if k < n {
          assert ps[..n][k] == ps[k];
          SettledNegation(m, m.ln(LogArgument(ps[k], Epsilon)));
        }
      }
    }
  }

  /**
   * The loss for one-hot labels is minus the rounded logarithm of the labelled prediction, taken
   * after a zero became 1e-8: the other predictions do not enter it.
   */
  lemma OneHotLoss(m: Numerics, labels: seq<real>, ps: seq<real>, k: nat)
    requires SettledRounding(m) && ExactProducts(m) && OneHotAt(labels, k) && k < |ps| <= |labels|
    ensures LossOf(m, labels, ps) == -m.round(m.ln(LogArgument(ps[k], Epsilon)))
  {
    OneHotPrefix(m, labels, ps, k);
  }

  /** Ignoring rounding, the loss for one-hot labels is minus the labelled prediction's logarithm. */
  lemma OneHotLossExact(m: Numerics, labels: seq<real>, ps: seq<real>, k: nat)
    requires ExactRounding(m) && ExactProducts(m) && OneHotAt(labels, k) && k < |ps| <= |labels|
    ensures LossOf(m, labels, ps) == -m.ln(LogArgument(ps[k], Epsilon))
  {
    assert SettledRounding(m);
    OneHotLoss(m, labels, ps, k);
  }

  /** Prediction nodes as `new Value(x)` leaves for numbers already on the 10^-8 grid. */
  function Predictions(xs: seq<real>): (r: Graph)
    ensures Valid(r) && |r| == |xs|
    ensures forall i :: 0 <= i < |xs| ==> r[i] == Node(xs[i], 0.0, Leaf, [])
  {
    seq(|xs|, i requires 0 <= i < |xs| => Node(xs[i], 0.0, Leaf, []))
  }

  /** Two prediction leaves, read back in order. */
  lemma PairData(g: Graph, xs: seq<real>)
    requires |xs| == 2 && g == Predictions(xs)
    ensures IdsIn(g, [0, 1]) && DataOf(g, [0, 1]) == xs
  {
    assert DataOf(g, [0, 1])[0] == xs[0];
    assert DataOf(g, [0, 1])[1] == xs[1];
  }

  /** The library's first expectation, with `toFixed(8)` rounding: [0.1, 0.9] against [0, 1]. */
  lemma LibraryExampleCertain(m: Numerics, g: Graph)
    requires RoundsToFixed8(m) && ExactProducts(m) && g == Predictions([0.1, 0.9])
    ensures Loss(g, m, [0, 1], [0.0, 1.0]).graph[Loss(g, m, [0, 1], [0.0, 1.0]).id].data == -m.round(m.ln(0.9))
  {
    Fixed8Settled(m);
    assert OneHotAt([0.0, 1.0], 1);
    LossValue(g, m, [0, 1], [0.0, 1.0]);
    PairData(g, [0.1, 0.9]);
    OneHotLoss(m, [0.0, 1.0], [0.1, 0.9], 1);
  }

  /** The second: [1, 0] against [0, 1], where the zero prediction is logged as 1e-8. */
  lemma LibraryExampleZero(m: Numerics, g: Graph)
    requires RoundsToFixed8(m) && ExactProducts(m) && g == Predictions([1.0, 0.0])
    ensures Loss(g, m, [0, 1], [0.0, 1.0]).graph[Loss(g, m, [0, 1], [0.0, 1.0]).id].data == -m.round(m.ln(Epsilon))
    ensures Loss(g, m, [0, 1], [0.0, 1.0]).graph[1].data == Epsilon
  {
    Fixed8Settled(m);
    assert OneHotAt([0.0, 1.0], 1);
    LossValue(g, m, [0, 1], [0.0, 1.0]);
    PairData(g, [1.0, 0.0]);
    OneHotLoss(m, [0.0, 1.0], [1.0, 0.0], 1);
    LossLogs(g, m, [0, 1], [0.0, 1.0], 1);
  }
}
