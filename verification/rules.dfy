/**
 * The `_backward` closures of the engine, each as a function of the whole graph: a rule
 * changes gradients only, and reads the data of the nodes at the time it runs.
 */
module Rules {
  import opened Precision
  import opened Engine


  /** `u.grad += d`. */
  function Bump(g: Graph, u: nat, d: real): (r: Graph)
    requires u < |g|
    ensures |r| == |g| && r[u].grad == g[u].grad + d
    ensures GradsOnly(g, r) && forall w :: 0 <= w < |g| && w != u ==> r[w] == g[w]
  {
    g[u := g[u].(grad := g[u].grad + d)]
  }

  /** `u.grad = x`. */
  function Assign(g: Graph, u: nat, x: real): (r: Graph)
    requires u < |g|
    ensures |r| == |g| && r[u].grad == x
    ensures GradsOnly(g, r) && forall w :: 0 <= w < |g| && w != u ==> r[w] == g[w]
  {
    g[u := g[u].(grad := x)]
  }

  /** `r` differs from `g` in gradients at most. */
  predicate GradsOnly(g: Graph, r: Graph) {
    |r| == |g| && forall u :: 0 <= u < |g| ==> r[u] == g[u].(grad := r[u].grad)
  }

  lemma GradsOnlyValid(g: Graph, r: Graph)
    requires Valid(g) && GradsOnly(g, r)
    ensures Valid(r)
  {
    forall u | 0 <= u < |r| ensures NodeOk(r[u], u) {
      assert NodeOk(g[u], u);
      assert r[u].prev == g[u].prev && r[u].op == g[u].op;
    }
  }

  lemma GradsOnlyTrans(g: Graph, h: Graph, r: Graph)
    requires GradsOnly(g, h) && GradsOnly(h, r)
    ensures GradsOnly(g, r)
  {
    forall u | 0 <= u < |g| ensures r[u] == g[u].(grad := r[u].grad) {
      assert h[u] == g[u].(grad := h[u].grad);
    }
  }

  /** The nodes whose gradient a rule may write. */
  function Targets(op: Op): seq<nat> {
    match op
    case Leaf => []
    case AddOf(a, b) => [a, b]
    case MulOf(a, b) => [a, b]
    case PowOf(a, _) => [a]
    case ExpOf(a) => [a]
    case LogOf(a) => [a]
    case ReluOf(a) => [a]
    case TanhOf(a, _) => [a]
    case SoftmaxOf(_, inputs, _, _) => inputs
  }

  /** A rule writes only to nodes created before its own. */
  lemma TargetsBelow(g: Graph, v: nat)
    requires Valid(g) && v < |g|
    ensures forall t :: t in Targets(g[v].op) ==> t < v
  {
    assert NodeOk(g[v], v);
  }

  /** The rules that add to their operands' gradients, as opposed to overwriting them. */
  predicate Accumulates(op: Op) {
    !op.ReluOf? && !op.TanhOf?
  }

  /** What the softmax rule of output `i` adds to `values[j].grad`, given the output's data `s`. */
  function SoftmaxDelta(g: Graph, m: Numerics, i: nat, exps: seq<nat>, sum: nat, s: real, og: real, j: nat): real
    requires j < |exps| && exps[j] < |g| && sum < |g|
  {
    if i == j then m.times(m.times(s, 1.0 - s), og)
    else m.times(m.times(-s, Quot(g[exps[j]].data, g[sum].data)), og)
  }

  /** `values.forEach((val, j) => ...)` for the first `k` inputs. */
  function SoftmaxUpdates(g: Graph, m: Numerics, i: nat, inputs: seq<nat>, exps: seq<nat>, sum: nat, s: real, og: real, k: nat): (r: Graph)
    requires k <= |inputs| == |exps| && sum < |g|
    requires forall j :: 0 <= j < |inputs| ==> inputs[j] < |g| && exps[j] < |g|
    ensures GradsOnly(g, r)
  {
    if k == 0 then g
    else
      var h := SoftmaxUpdates(g, m, i, inputs, exps, sum, s, og, k - 1);
      var r := Bump(h, inputs[k - 1], SoftmaxDelta(g, m, i, exps, sum, s, og, k - 1));
      GradsOnlyTrans(g, h, r);
      r
  }

  /**
   * Runs the `_backward` closure of node `v`. Products and powers are the engine's own
   * formulas; `relu` and `tanh` assign where every other rule adds.
   */
  function ApplyRule(g: Graph, m: Numerics, v: nat): (r: Graph)
    requires Valid(g) && v < |g|
    ensures Valid(r) && GradsOnly(g, r)
  {
    assert NodeOk(g[v], v);
    var og := g[v].grad;
    var r := match g[v].op
      case Leaf => g
      case AddOf(a, b) => (
        var h := Bump(g, a, og);
        var r := Bump(h, b, og);
        GradsOnlyTrans(g, h, r);
        r)
      case MulOf(a, b) => (
        var h := Bump(g, a, m.times(g[b].data, og));
        var r := Bump(h, b, m.times(g[a].data, og));
        GradsOnlyTrans(g, h, r);
        r)
      case PowOf(a, k) => Bump(g, a, m.times(m.times(k, m.pow(g[a].data, k - 1.0)), og))
      case ExpOf(a) => Bump(g, a, m.times(g[v].data, og))
      case LogOf(a) => Bump(g, a, m.times(Quot(1.0, g[a].data), og))
      case ReluOf(a) => Assign(g, a, m.times(if g[v].data > 0.0 then 1.0 else 0.0, og))
      case TanhOf(a, t) => Assign(g, a, m.times(1.0 - m.times(t, t), og))
      case SoftmaxOf(i, inputs, exps, sum) =>
        SoftmaxUpdates(g, m, i, inputs, exps, sum, g[v].data, og, |inputs|);
    GradsOnlyValid(g, r);
    r
  }

  lemma {:induction false} SoftmaxUpdatesFrame(g: Graph, m: Numerics, i: nat, inputs: seq<nat>, exps: seq<nat>, sum: nat, s: real, og: real, k: nat, u: nat)
    requires k <= |inputs| == |exps| && sum < |g|
    requires forall j :: 0 <= j < |inputs| ==> inputs[j] < |g| && exps[j] < |g|
    requires u < |g| && forall l :: 0 <= l < k ==> inputs[l] != u
    ensures SoftmaxUpdates(g, m, i, inputs, exps, sum, s, og, k)[u] == g[u]
  {
    if k > 0 {
      SoftmaxUpdatesFrame(g, m, i, inputs, exps, sum, s, og, k - 1, u);
    }
  }

  /** A rule writes the gradients of its own operands and of no other node. */
  lemma RuleFrame(g: Graph, m: Numerics, v: nat, u: nat)
    requires Valid(g) && v < |g| && u < |g| && u !in Targets(g[v].op)
    ensures ApplyRule(g, m, v)[u] == g[u]
  {
    assert NodeOk(g[v], v);
    match g[v].op
    case SoftmaxOf(i, inputs, exps, sum) =>
      SoftmaxUpdatesFrame(g, m, i, inputs, exps, sum, g[v].data, g[v].grad, |inputs|, u);
    case _ =>
  }

  /** The gradient an operand ends up with after an `add` rule: `out.grad` once per occurrence. */
  lemma AddRule(g: Graph, m: Numerics, v: nat)
    requires Valid(g) && v < |g| && g[v].op.AddOf?
    ensures var a, b, og, r := g[v].op.a, g[v].op.b, g[v].grad, ApplyRule(g, m, v);
            if a == b then r[a].grad == g[a].grad + 2.0 * og
            else r[a].grad == g[a].grad + og && r[b].grad == g[b].grad + og
  {
  }

  /** After a `mul` rule each factor has gained the other factor's data times `out.grad`; `x.mul(x)` gains `2x`. */
  lemma MulRule(g: Graph, m: Numerics, v: nat)
    requires Valid(g) && v < |g| && g[v].op.MulOf? && ExactProducts(m)
    ensures var a, b, og, r := g[v].op.a, g[v].op.b, g[v].grad, ApplyRule(g, m, v);
            if a == b then r[a].grad == g[a].grad + 2.0 * g[a].data * og
            else r[a].grad == g[a].grad + g[b].data * og && r[b].grad == g[b].grad + g[a].data * og
  {
    var a, b, og := g[v].op.a, g[v].op.b, g[v].grad;
    if a == b {
      assert m.times(g[a].data, og) + m.times(g[a].data, og) == 2.0 * g[a].data * og;
    }
  }

  /** `relu` and `tanh` discard whatever gradient their operand had collected before they run. */
  lemma OverwritingRules(g: Graph, m: Numerics, v: nat, x: real)
    requires Valid(g) && v < |g| && !Accumulates(g[v].op)
    ensures var a := g[v].op.arg;
            ApplyRule(g, m, v)[a] == ApplyRule(Assign(g, a, x), m, v)[a]
  {
    assert NodeOk(g[v], v);
  }

  /** What `relu` and `tanh` write: the local derivative times `out.grad`. */
  lemma OverwritingRuleValues(g: Graph, m: Numerics, v: nat)
    requires Valid(g) && v < |g| && !Accumulates(g[v].op) && ExactProducts(m)
    ensures var a, og, r := g[v].op.arg, g[v].grad, ApplyRule(g, m, v);
            match g[v].op
            case ReluOf(_) => r[a].grad == (if g[v].data > 0.0 then og else 0.0)
            case TanhOf(_, t) => r[a].grad == (1.0 - t * t) * og
            case _ => false
  {
  }

  /** `SoftmaxUpdates` adds `SoftmaxDelta` once for every position an input occupies. */
  lemma {:induction false} SoftmaxUpdatesAdd(g: Graph, m: Numerics, i: nat, inputs: seq<nat>, exps: seq<nat>, sum: nat, s: real, og: real, k: nat, j: nat)
    requires k <= |inputs| == |exps| && sum < |g|
    requires forall j :: 0 <= j < |inputs| ==> inputs[j] < |g| && exps[j] < |g|
    requires j < k && forall l :: 0 <= l < k && l != j ==> inputs[l] != inputs[j]
    ensures SoftmaxUpdates(g, m, i, inputs, exps, sum, s, og, k)[inputs[j]].grad
            == g[inputs[j]].grad + SoftmaxDelta(g, m, i, exps, sum, s, og, j)
  {
    if j < k - 1 {
      SoftmaxUpdatesAdd(g, m, i, inputs, exps, sum, s, og, k - 1, j);
    } else {
      SoftmaxUpdatesFrame(g, m, i, inputs, exps, sum, s, og, k - 1, inputs[j]);
    }
  }

  /** The rule of a softmax output is the loop over its inputs. */
  lemma ApplyRuleSoftmax(g: Graph, m: Numerics, v: nat)
    requires Valid(g) && v < |g| && g[v].op.SoftmaxOf?
    ensures NodeOk(g[v], v)
    ensures var op := g[v].op;
            ApplyRule(g, m, v) == SoftmaxUpdates(g, m, op.i, op.inputs, op.exps, op.sum, g[v].data, g[v].grad, |op.inputs|)
  {
    assert NodeOk(g[v], v);
  }

  /** In a sequence without repeats, entry `j` differs from every other entry. */
  lemma DistinctFrom(xs: seq<nat>, j: nat)
    requires j < |xs| && forall l, l' :: 0 <= l < l' < |xs| ==> xs[l] != xs[l']
    ensures forall l :: 0 <= l < |xs| && l != j ==> xs[l] != xs[j]
  {
    forall l | 0 <= l < |xs| && l != j ensures xs[l] != xs[j] {
      if l < j { } else { }
    }
  }

  /** With exact products, a softmax delta is the textbook product. */
  lemma SoftmaxDeltaExact(g: Graph, m: Numerics, i: nat, exps: seq<nat>, sum: nat, s: real, og: real, j: nat)
    requires j < |exps| && exps[j] < |g| && sum < |g| && ExactProducts(m)
    ensures SoftmaxDelta(g, m, i, exps, sum, s, og, j)
            == if i == j then s * (1.0 - s) * og else -s * Quot(g[exps[j]].data, g[sum].data) * og
  {
    var q := Quot(g[exps[j]].data, g[sum].data);
    assert m.times(s, 1.0 - s) == s * (1.0 - s);
    assert m.times(-s, q) == -s * q;
    assert m.times(s * (1.0 - s), og) == s * (1.0 - s) * og;
    assert m.times(-s * q, og) == -s * q * og;
  }

  /**
   * The joint softmax rule of output `i`: with distinct inputs, input `j` gains
   * `s * (1 - s) * out.grad` when `j == i` and `-s * (exps[j] / sum) * out.grad` otherwise.
   */
  lemma SoftmaxRule(g: Graph, m: Numerics, v: nat, j: nat)
    requires Valid(g) && v < |g| && g[v].op.SoftmaxOf? && j < |g[v].op.inputs| && ExactProducts(m)
    requires forall l, l' :: 0 <= l < l' < |g[v].op.inputs| ==> g[v].op.inputs[l] != g[v].op.inputs[l']
    ensures var op, s, og := g[v].op, g[v].data, g[v].grad;
            ApplyRule(g, m, v)[op.inputs[j]].grad
            == g[op.inputs[j]].grad
               + (if j == op.i then s * (1.0 - s) * og
                  else -s * Quot(g[op.exps[j]].data, g[op.sum].data) * og)
  {
    var op := g[v].op;
    assert NodeOk(g[v], v);
    ApplyRuleSoftmax(g, m, v);
    DistinctFrom(op.inputs, j);
    SoftmaxUpdatesAdd(g, m, op.i, op.inputs, op.exps, op.sum, g[v].data, g[v].grad, |op.inputs|, j);
    SoftmaxDeltaExact(g, m, op.i, op.exps, op.sum, g[v].data, g[v].grad, j);
  }

  /** Adding zero to a gradient leaves the graph as it was. */
  lemma BumpZero(g: Graph, u: nat)
    requires u < |g|
    ensures Bump(g, u, 0.0) == g
  {
    assert g[u].(grad := g[u].grad + 0.0) == g[u];
  }

  lemma {:induction false} SoftmaxUpdatesZero(g: Graph, m: Numerics, i: nat, inputs: seq<nat>, exps: seq<nat>, sum: nat, s: real, k: nat)
    requires k <= |inputs| == |exps| && sum < |g| && ExactProducts(m)
    requires forall j :: 0 <= j < |inputs| ==> inputs[j] < |g| && exps[j] < |g|
    ensures SoftmaxUpdates(g, m, i, inputs, exps, sum, s, 0.0, k) == g
  {
    if k > 0 {
      SoftmaxUpdatesZero(g, m, i, inputs, exps, sum, s, k - 1);
      assert SoftmaxDelta(g, m, i, exps, sum, s, 0.0, k - 1) == 0.0;
      BumpZero(g, inputs[k - 1]);
    }
  }

  /**
   * A rule that accumulates is a no-op while its node's gradient is zero: nodes nothing depends on
   * (the internal nodes of a softmax, say) pass nothing on.
   */
  lemma ZeroGradientRule(g: Graph, m: Numerics, v: nat)
    requires Valid(g) && v < |g| && Accumulates(g[v].op) && g[v].grad == 0.0 && ExactProducts(m)
    ensures ApplyRule(g, m, v) == g
  {
    assert NodeOk(g[v], v);
    match g[v].op
    case SoftmaxOf(i, inputs, exps, sum) =>
      SoftmaxUpdatesZero(g, m, i, inputs, exps, sum, g[v].data, |inputs|);
    case AddOf(a, b) =>
      BumpZero(g, a);
      BumpZero(g, b);
    case MulOf(a, b) =>
      TimesZero(m, g[b].data);
      TimesZero(m, g[a].data);
      BumpZero(g, a);
      BumpZero(g, b);
    case PowOf(a, k) =>
      TimesZero(m, m.times(k, m.pow(g[a].data, k - 1.0)));
      assert ApplyRule(g, m, v) == Bump(g, a, 0.0);
      BumpZero(g, a);
    case ExpOf(a) =>
      TimesZero(m, g[v].data);
      assert ApplyRule(g, m, v) == Bump(g, a, 0.0);
      BumpZero(g, a);
    case LogOf(a) =>
      TimesZero(m, Quot(1.0, g[a].data));
      assert ApplyRule(g, m, v) == Bump(g, a, 0.0);
      BumpZero(g, a);
    case _ =>
  }

  /** Under exact products, any number times a zero gradient is zero. */
  lemma TimesZero(m: Numerics, x: real)
    requires ExactProducts(m)
    ensures m.times(x, 0.0) == 0.0
  {
    assert m.times(x, 0.0) == x * 0.0;
  }
  // ---------------------------------------------------------------------------------------
  // Rules that always accumulate (the `relu`/`tanh` rules with `+=`)
  // ---------------------------------------------------------------------------------------

  /**
   * The rules with `relu` and `tanh` adding their local derivative times `out.grad` to the
   * operand's gradient, as every other rule does, instead of overwriting it.
   */
  function ApplyRuleFixed(g: Graph, m: Numerics, v: nat): (r: Graph)
    requires Valid(g) && v < |g|
    ensures Valid(r) && GradsOnly(g, r)
  {
    assert NodeOk(g[v], v);
    var og := g[v].grad;
    var r := match g[v].op
      case ReluOf(a) => Bump(g, a, m.times(if g[v].data > 0.0 then 1.0 else 0.0, og))
      case TanhOf(a, t) => Bump(g, a, m.times(1.0 - m.times(t, t), og))
      case _ => ApplyRule(g, m, v);
    GradsOnlyValid(g, r);
    r
  }

  /** Two gradient additions commute. */
  lemma BumpCommute(g: Graph, u: nat, c: real, w: nat, d: real)
    requires u < |g| && w < |g|
    ensures Bump(Bump(g, u, c), w, d) == Bump(Bump(g, w, d), u, c)
  {
    var l, r := Bump(Bump(g, u, c), w, d), Bump(Bump(g, w, d), u, c);
    forall x | 0 <= x < |g| ensures l[x] == r[x] {
      if x == u && x == w {
        assert l[x].grad == r[x].grad;
      }
    }
  }

  /** The softmax updates add the same amounts whatever a gradient held before. */
  lemma {:induction false} SoftmaxUpdatesShift(g: Graph, m: Numerics, i: nat, inputs: seq<nat>, exps: seq<nat>, sum: nat, s: real, og: real, k: nat, u: nat, c: real)
    requires k <= |inputs| == |exps| && sum < |g|
    requires forall j :: 0 <= j < |inputs| ==> inputs[j] < |g| && exps[j] < |g|
    requires u < |g|
    ensures SoftmaxUpdates(Bump(g, u, c), m, i, inputs, exps, sum, s, og, k)
            == Bump(SoftmaxUpdates(g, m, i, inputs, exps, sum, s, og, k), u, c)
  {
    if k > 0 {
      var g' := Bump(g, u, c);
      var h := SoftmaxUpdates(g, m, i, inputs, exps, sum, s, og, k - 1);
      var h' := SoftmaxUpdates(g', m, i, inputs, exps, sum, s, og, k - 1);
      var d := SoftmaxDelta(g, m, i, exps, sum, s, og, k - 1);
      assert g'[exps[k - 1]].data == g[exps[k - 1]].data && g'[sum].data == g[sum].data;
      assert SoftmaxDelta(g', m, i, exps, sum, s, og, k - 1) == d;
      SoftmaxUpdatesShift(g, m, i, inputs, exps, sum, s, og, k - 1, u, c);
      assert h' == Bump(h, u, c);
      BumpCommute(h, u, c, inputs[k - 1], d);
    }
  }

  /** `FixedRuleAccumulates` for the rules of `add` and `mul`. */
  lemma BinaryRuleAccumulates(g: Graph, m: Numerics, v: nat, u: nat, c: real)
    requires Valid(g) && v < |g| && u < |g| && u != v && (g[v].op.AddOf? || g[v].op.MulOf?)
    requires Valid(Bump(g, u, c))
    ensures ApplyRuleFixed(Bump(g, u, c), m, v) == Bump(ApplyRuleFixed(g, m, v), u, c)
  {
    var g' := Bump(g, u, c);
    assert NodeOk(g[v], v);
    assert g'[v] == g[v];
    var og, a, b := g[v].grad, g[v].op.a, g[v].op.b;
    assert g'[a].data == g[a].data && g'[b].data == g[b].data;
    var da, db := if g[v].op.AddOf? then og else m.times(g[b].data, og), if g[v].op.AddOf? then og else m.times(g[a].data, og);
    assert ApplyRuleFixed(g', m, v) == Bump(Bump(g', a, da), b, db);
    assert ApplyRuleFixed(g, m, v) == Bump(Bump(g, a, da), b, db);
    BumpCommute(g, u, c, a, da);
    BumpCommute(Bump(g, a, da), u, c, b, db);
  }

  /** `FixedRuleAccumulates` for the rules of the one-operand ops. */
  lemma UnaryRuleAccumulates(g: Graph, m: Numerics, v: nat, u: nat, c: real)
    requires Valid(g) && v < |g| && u < |g| && u != v
    requires g[v].op.PowOf? || g[v].op.ExpOf? || g[v].op.LogOf? || g[v].op.ReluOf? || g[v].op.TanhOf?
    requires Valid(Bump(g, u, c))
    ensures ApplyRuleFixed(Bump(g, u, c), m, v) == Bump(ApplyRuleFixed(g, m, v), u, c)
  {
    var g' := Bump(g, u, c);
    assert NodeOk(g[v], v);
    assert g'[v] == g[v];
    var og := g[v].grad;
    var a := if g[v].op.PowOf? then g[v].op.base else g[v].op.arg;
    assert g'[a].data == g[a].data;
    var d := match g[v].op
      case PowOf(_, k) => m.times(m.times(k, m.pow(g[a].data, k - 1.0)), og)
      case ExpOf(_) => m.times(g[v].data, og)
      case LogOf(_) => m.times(Quot(1.0, g[a].data), og)
      case ReluOf(_) => m.times(if g[v].data > 0.0 then 1.0 else 0.0, og)
      case TanhOf(_, t) => m.times(1.0 - m.times(t, t), og)
      case _ => 0.0;
    assert ApplyRuleFixed(g', m, v) == Bump(g', a, d);
    assert ApplyRuleFixed(g, m, v) == Bump(g, a, d);
    BumpCommute(g, u, c, a, d);
  }

  /** `FixedRuleAccumulates` for the rule of a softmax output. */
  lemma SoftmaxRuleAccumulates(g: Graph, m: Numerics, v: nat, u: nat, c: real)
    requires Valid(g) && v < |g| && u < |g| && u != v && g[v].op.SoftmaxOf?
    requires Valid(Bump(g, u, c))
    ensures ApplyRuleFixed(Bump(g, u, c), m, v) == Bump(ApplyRuleFixed(g, m, v), u, c)
  {
    var g' := Bump(g, u, c);
    assert NodeOk(g[v], v);
    assert g'[v] == g[v];
    var op := g[v].op;
    assert ApplyRuleFixed(g', m, v) == SoftmaxUpdates(g', m, op.i, op.inputs, op.exps, op.sum, g[v].data, g[v].grad, |op.inputs|);
    assert ApplyRuleFixed(g, m, v) == SoftmaxUpdates(g, m, op.i, op.inputs, op.exps, op.sum, g[v].data, g[v].grad, |op.inputs|);
    SoftmaxUpdatesShift(g, m, op.i, op.inputs, op.exps, op.sum, g[v].data, g[v].grad, |op.inputs|, u, c);
  }

  /**
   * Every corrected rule accumulates: whatever gradient another node has collected before the
   * rule runs is kept, and the rule's contribution is added on top of it.
   */
  lemma FixedRuleAccumulates(g: Graph, m: Numerics, v: nat, u: nat, c: real)
    requires Valid(g) && v < |g| && u < |g| && u != v
    ensures Valid(Bump(g, u, c))
    ensures ApplyRuleFixed(Bump(g, u, c), m, v) == Bump(ApplyRuleFixed(g, m, v), u, c)
  {
    var g' := Bump(g, u, c);
    GradsOnlyValid(g, g');
    if g[v].op.Leaf? {
      assert g'[v] == g[v];
    } else if g[v].op.AddOf? || g[v].op.MulOf? {
      BinaryRuleAccumulates(g, m, v, u, c);
    } else if g[v].op.SoftmaxOf? {
      SoftmaxRuleAccumulates(g, m, v, u, c);
    } else {
      UnaryRuleAccumulates(g, m, v, u, c);
    }
  }

  /**
   * The rules as written do not: a `relu` or `tanh` rule throws away what its operand had
   * collected, so the result is the same whatever was added to it before.
   */
  lemma OverwritingRuleForgets(g: Graph, m: Numerics, v: nat, c: real)
    requires Valid(g) && v < |g| && !Accumulates(g[v].op)
    ensures g[v].op.arg < |g| && Valid(Bump(g, g[v].op.arg, c))
    ensures ApplyRule(Bump(g, g[v].op.arg, c), m, v) == ApplyRule(g, m, v)
  {
    var a := g[v].op.arg;
    assert NodeOk(g[v], v);
    var g' := Bump(g, a, c);
    GradsOnlyValid(g, g');
    assert g'[v] == g[v];
    assert g'[a := g'[a].(grad := 0.0)] == g[a := g[a].(grad := 0.0)];
    var x := if g[v].op.ReluOf? then m.times(if g[v].data > 0.0 then 1.0 else 0.0, g[v].grad)
             else m.times(1.0 - m.times(g[v].op.t, g[v].op.t), g[v].grad);
    assert Assign(g', a, x) == Assign(g, a, x);
  }
}
