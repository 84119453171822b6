/**
 * The chain rule that the rule phase of `backward` computes when every rule accumulates:
 * each node ends with its starting gradient plus what the rule of each of its consumers
 * adds, every consumer's rule reading that consumer's final gradient.
 */
module ChainRule {
  import opened Precision
  import opened Engine
  import opened Rules
  import opened Backprop

  // ---------------------------------------------------------------------------------------
  // What one rule contributes to one node
  // ---------------------------------------------------------------------------------------

  /** What the softmax rule adds to node `u` through the inputs `j < k` that are `u`. */
  function SoftmaxShare(g: Graph, m: Numerics, i: nat, inputs: seq<nat>, exps: seq<nat>, sum: nat,
                        s: real, og: real, k: nat, u: nat): real
    requires k <= |inputs| == |exps| && sum < |g|
    requires forall j :: 0 <= j < |exps| ==> exps[j] < |g|
  {
    if k == 0 then 0.0
    else SoftmaxShare(g, m, i, inputs, exps, sum, s, og, k - 1, u)
         + (if inputs[k - 1] == u then SoftmaxDelta(g, m, i, exps, sum, s, og, k - 1) else 0.0)
  }

  /**
   * The local derivative of node `v` with respect to node `u`, times `v`'s gradient: what
   * `v`'s rule adds to `u.grad`, counted once per occurrence of `u` among `v`'s operands.
   */
  function Delta(g: Graph, m: Numerics, v: nat, u: nat): real
    requires Valid(g) && v < |g|
  {
    assert NodeOk(g[v], v);
    var og := g[v].grad;
    match g[v].op
    case Leaf => 0.0
    case AddOf(a, b) => (if u == a then og else 0.0) + (if u == b then og else 0.0)
    case MulOf(a, b) =>
      (if u == a then m.times(g[b].data, og) else 0.0) + (if u == b then m.times(g[a].data, og) else 0.0)
    case PowOf(a, k) => if u == a then m.times(m.times(k, m.pow(g[a].data, k - 1.0)), og) else 0.0
    case ExpOf(a) => if u == a then m.times(g[v].data, og) else 0.0
    case LogOf(a) => if u == a then m.times(Quot(1.0, g[a].data), og) else 0.0
    case ReluOf(a) => if u == a then m.times(if g[v].data > 0.0 then 1.0 else 0.0, og) else 0.0
    case TanhOf(a, t) => if u == a then m.times(1.0 - m.times(t, t), og) else 0.0
    case SoftmaxOf(i, inputs, exps, sum) => SoftmaxShare(g, m, i, inputs, exps, sum, g[v].data, og, |inputs|, u)
  }

  lemma {:induction false} SoftmaxShareUpdates(g: Graph, m: Numerics, i: nat, inputs: seq<nat>, exps: seq<nat>,
                                               sum: nat, s: real, og: real, k: nat, u: nat)
    requires k <= |inputs| == |exps| && sum < |g| && u < |g|
    requires forall j :: 0 <= j < |inputs| ==> inputs[j] < |g| && exps[j] < |g|
    ensures SoftmaxUpdates(g, m, i, inputs, exps, sum, s, og, k)[u].grad
            == g[u].grad + SoftmaxShare(g, m, i, inputs, exps, sum, s, og, k, u)
  {
    if k > 0 {
      SoftmaxShareUpdates(g, m, i, inputs, exps, sum, s, og, k - 1, u);
    }
  }

  lemma {:induction false} SoftmaxShareZero(g: Graph, m: Numerics, i: nat, inputs: seq<nat>, exps: seq<nat>,
                                            sum: nat, s: real, og: real, k: nat, u: nat)
    requires k <= |inputs| == |exps| && sum < |g|
    requires forall j :: 0 <= j < |exps| ==> exps[j] < |g|
    requires u !in inputs
    ensures SoftmaxShare(g, m, i, inputs, exps, sum, s, og, k, u) == 0.0
  {
    if k > 0 {
      SoftmaxShareZero(g, m, i, inputs, exps, sum, s, og, k - 1, u);
      assert inputs[k - 1] in inputs;
    }
  }

  lemma {:induction false} SoftmaxShareGradsOnly(g: Graph, h: Graph, m: Numerics, i: nat, inputs: seq<nat>,
                                                 exps: seq<nat>, sum: nat, s: real, og: real, k: nat, u: nat)
    requires k <= |inputs| == |exps| && sum < |g| && GradsOnly(g, h)
    requires forall j :: 0 <= j < |exps| ==> exps[j] < |g|
    ensures SoftmaxShare(h, m, i, inputs, exps, sum, s, og, k, u) == SoftmaxShare(g, m, i, inputs, exps, sum, s, og, k, u)
  {
    if k > 0 {
      SoftmaxShareGradsOnly(g, h, m, i, inputs, exps, sum, s, og, k - 1, u);
      assert h[exps[k - 1]].data == g[exps[k - 1]].data && h[sum].data == g[sum].data;
    }
  }

  /** Running `v`'s accumulating rule adds exactly `Delta` to every node. */
  lemma FixedRuleDelta(g: Graph, m: Numerics, v: nat, u: nat)
    requires Valid(g) && v < |g| && u < |g|
    ensures ApplyRuleFixed(g, m, v)[u].grad == g[u].grad + Delta(g, m, v, u)
  {
    assert NodeOk(g[v], v);
    if g[v].op.SoftmaxOf? {
      var op := g[v].op;
      ApplyRuleSoftmax(g, m, v);
      SoftmaxShareUpdates(g, m, op.i, op.inputs, op.exps, op.sum, g[v].data, g[v].grad, |op.inputs|, u);
    }
  }

  /** A rule adds nothing to a node it does not target. */
  lemma DeltaOffTargets(g: Graph, m: Numerics, v: nat, u: nat)
    requires Valid(g) && v < |g| && u !in Targets(g[v].op)
    ensures Delta(g, m, v, u) == 0.0
  {
    assert NodeOk(g[v], v);
    if g[v].op.SoftmaxOf? {
      var op := g[v].op;
      SoftmaxShareZero(g, m, op.i, op.inputs, op.exps, op.sum, g[v].data, g[v].grad, |op.inputs|, u);
    }
  }

  /** A contribution depends on the data of the graph and the gradient of its own node only. */
  lemma DeltaGradsOnly(g: Graph, h: Graph, m: Numerics, v: nat, u: nat)
    requires Valid(g) && v < |g| && GradsOnly(g, h) && h[v].grad == g[v].grad
    ensures Valid(h) && Delta(h, m, v, u) == Delta(g, m, v, u)
  {
    GradsOnlyValid(g, h);
    assert NodeOk(g[v], v);
    assert h[v] == g[v];
    if g[v].op.SoftmaxOf? {
      var op := g[v].op;
      SoftmaxShareGradsOnly(g, h, m, op.i, op.inputs, op.exps, op.sum, g[v].data, g[v].grad, |op.inputs|, u);
    } else if g[v].op.AddOf? || g[v].op.MulOf? {
      assert h[g[v].op.a].data == g[g[v].op.a].data && h[g[v].op.b].data == g[g[v].op.b].data;
    } else if g[v].op.PowOf? {
      assert h[g[v].op.base].data == g[g[v].op.base].data;
    } else if !g[v].op.Leaf? {
      assert h[g[v].op.arg].data == g[g[v].op.arg].data;
    }
  }

  // ---------------------------------------------------------------------------------------
  // Sums of contributions over a rule order
  // ---------------------------------------------------------------------------------------

  predicate InRange(g: Graph, order: seq<nat>) {
    forall i :: 0 <= i < |order| ==> order[i] < |g|
  }

  /** What the rules of `order` add to node `u`, each read off `g`. */
  function Contributions(g: Graph, m: Numerics, order: seq<nat>, u: nat): real
    requires Valid(g) && InRange(g, order)
  {
    if |order| == 0 then 0.0
    else Contributions(g, m, order[..|order| - 1], u) + Delta(g, m, order[|order| - 1], u)
  }

  /** A single consumer contributes its own `Delta`. */
  lemma ContributionsSingle(g: Graph, m: Numerics, w: nat, u: nat)
    requires Valid(g) && w < |g|
    ensures InRange(g, [w]) && Contributions(g, m, [w], u) == Delta(g, m, w, u)
  {
    assert [w][..0] == [];
  }

  /** One more consumer adds its own `Delta`. */
  lemma ContributionsSnoc(g: Graph, m: Numerics, ws: seq<nat>, w: nat, u: nat)
    requires Valid(g) && InRange(g, ws) && w < |g|
    ensures InRange(g, ws + [w]) && Contributions(g, m, ws + [w], u) == Contributions(g, m, ws, u) + Delta(g, m, w, u)
  {
    assert (ws + [w])[..|ws|] == ws;
  }

  /** No rule of `order` writes to a node whose rule ran before it. */
  predicate Settles(g: Graph, order: seq<nat>)
    requires InRange(g, order)
  {
    forall i, j :: 0 <= i < j < |order| ==> order[i] !in Targets(g[order[j]].op)
  }

  /** Contributions only change with the gradients of the contributing nodes. */
  lemma {:induction false} ContributionsStable(g: Graph, h: Graph, m: Numerics, order: seq<nat>, u: nat)
    requires Valid(g) && InRange(g, order) && GradsOnly(g, h)
    requires forall i :: 0 <= i < |order| ==> h[order[i]].grad == g[order[i]].grad
    ensures Valid(h) && Contributions(h, m, order, u) == Contributions(g, m, order, u)
  {
    GradsOnlyValid(g, h);
    if |order| > 0 {
      ContributionsStable(g, h, m, order[..|order| - 1], u);
      DeltaGradsOnly(g, h, m, order[|order| - 1], u);
    }
  }

  /**
   * The chain rule for a settling order: once a node's rule has run no later rule writes to
   * the node, so the gradient its rule read is its final one, and every node ends with its
   * starting gradient plus the contribution of each rule in the order.
   */
  lemma {:induction false} RunChainRule(g: Graph, m: Numerics, order: seq<nat>, u: nat)
    requires Valid(g) && InRange(g, order) && Settles(g, order) && u < |g|
    ensures RunRulesFixed(g, m, order)[u].grad == g[u].grad + Contributions(RunRulesFixed(g, m, order), m, order, u)
  {
    if |order| > 0 {
      var n := |order| - 1;
      var p, v := order[..n], order[n];
      var h := RunRulesFixed(g, m, p);
      var r := ApplyRuleFixed(h, m, v);
      assert RunRulesFixed(g, m, order) == r;
      assert Settles(g, p) by {
        forall i, j | 0 <= i < j < |p| ensures p[i] !in Targets(g[p[j]].op) {
          assert p[i] == order[i] && p[j] == order[j];
        }
      }
      RunChainRule(g, m, p, u);
      FixedRuleDelta(h, m, v, u);
      assert h[v].op == g[v].op;
      TargetsBelow(h, v);
      FixedRuleDelta(h, m, v, v);
      DeltaOffTargets(h, m, v, v);
      DeltaGradsOnly(h, r, m, v, u);
      forall i | 0 <= i < |p| ensures r[p[i]].grad == h[p[i]].grad {
        assert p[i] == order[i] && h[p[i]].op == g[p[i]].op;
        assert p[i] !in Targets(h[v].op);
        FixedRuleDelta(h, m, v, p[i]);
        DeltaOffTargets(h, m, v, p[i]);
      }
      ContributionsStable(h, r, m, p, u);
    }
  }

  /** The sum over a rule order counts the consumers `ws` of `u` only, in any order. */
  lemma {:induction false} ConsumersOnly(g: Graph, m: Numerics, order: seq<nat>, ws: seq<nat>, u: nat)
    requires Valid(g) && InRange(g, order) && InRange(g, ws) && Distinct(order) && Distinct(ws)
    requires multiset(ws) <= multiset(order)
    requires forall j :: 0 <= j < |order| && order[j] !in ws ==> u !in Targets(g[order[j]].op)
    ensures Contributions(g, m, order, u) == Contributions(g, m, ws, u)
    decreases |order|, 1
  {
    if |order| == 0 {
      assert |ws| == 0;
    } else {
      var n := |order| - 1;
      var p, v := order[..n], order[n];
      DistinctLast(order);
      assert order == p + [v];
      if v in ws {
        var k :| 0 <= k < |ws| && ws[k] == v;
        ConsumersOnlyLast(g, m, order, ws, u, k);
      } else {
        assert multiset(ws) <= multiset(p);
        ConsumersOnly(g, m, p, ws, u);
        DeltaOffTargets(g, m, v, u);
      }
    }
  }

  /** `ConsumersOnly` when the last rule of the order is the consumer `ws[k]`. */
  lemma {:induction false} ConsumersOnlyLast(g: Graph, m: Numerics, order: seq<nat>, ws: seq<nat>, u: nat, k: nat)
    requires Valid(g) && InRange(g, order) && InRange(g, ws) && Distinct(order) && Distinct(ws)
    requires multiset(ws) <= multiset(order)
    requires forall j :: 0 <= j < |order| && order[j] !in ws ==> u !in Targets(g[order[j]].op)
    requires |order| > 0 && k < |ws| && ws[k] == order[|order| - 1]
    requires Distinct(order[..|order| - 1]) && order[|order| - 1] !in order[..|order| - 1]
    ensures Contributions(g, m, order, u) == Contributions(g, m, ws, u)
    decreases |order|, 0
  {
    var n := |order| - 1;
    var p, v := order[..n], order[n];
    var ws' := ws[..k] + ws[k + 1..];
    DistinctRemove(ws, k);
    MultisetDropLast(ws, k, order);
    forall j | 0 <= j < |p| && p[j] !in ws' ensures u !in Targets(g[p[j]].op) {
      assert p[j] == order[j] && p[j] != v;
    }
    ConsumersOnly(g, m, p, ws', u);
    ContributionsRemove(g, m, ws, k, u);
  }

  /** Dropping the same element from both sides keeps a sub-multiset a sub-multiset. */
  lemma MultisetDropLast(ws: seq<nat>, k: nat, order: seq<nat>)
    requires multiset(ws) <= multiset(order) && k < |ws| && |order| > 0 && ws[k] == order[|order| - 1]
    ensures multiset(ws[..k] + ws[k + 1..]) <= multiset(order[..|order| - 1])
  {
    var v, p, ws' := ws[k], order[..|order| - 1], ws[..k] + ws[k + 1..];
    assert ws == ws[..k] + [v] + ws[k + 1..];
    assert multiset(ws) == multiset(ws') + multiset{v};
    assert order == p + [v];
    assert multiset(order) == multiset(p) + multiset{v};
    forall x ensures multiset(ws')[x] <= multiset(p)[x] {
      assert multiset(ws)[x] <= multiset(order)[x];
    }
  }

  lemma DistinctLast(xs: seq<nat>)
    requires Distinct(xs) && |xs| > 0
    ensures Distinct(xs[..|xs| - 1]) && xs[|xs| - 1] !in xs[..|xs| - 1]
  {
    var n := |xs| - 1;
    assert forall j :: 0 <= j < n ==> xs[..n][j] == xs[j];
  }

  lemma DistinctRemove(xs: seq<nat>, k: nat)
    requires Distinct(xs) && k < |xs|
    ensures Distinct(xs[..k] + xs[k + 1..])
    ensures forall x :: x in xs[..k] + xs[k + 1..] <==> x in xs && x != xs[k]
  {
    var ys := xs[..k] + xs[k + 1..];
    assert forall l :: 0 <= l < |ys| ==> ys[l] == (if l < k then xs[l] else xs[l + 1]);
    forall x | x in xs && x != xs[k] ensures x in ys {
      var l :| 0 <= l < |xs| && xs[l] == x;
      if l < k { assert ys[l] == x; } else { assert ys[l - 1] == x; }
    }
  }

  /** Taking one entry out of a sum of contributions. */
  lemma {:induction false} ContributionsRemove(g: Graph, m: Numerics, ws: seq<nat>, k: nat, u: nat)
    requires Valid(g) && InRange(g, ws) && k < |ws|
    ensures InRange(g, ws[..k] + ws[k + 1..])
    ensures Contributions(g, m, ws, u) == Contributions(g, m, ws[..k] + ws[k + 1..], u) + Delta(g, m, ws[k], u)
  {
    var n := |ws| - 1;
    var ws' := ws[..k] + ws[k + 1..];
    assert forall l :: 0 <= l < |ws'| ==> ws'[l] == (if l < k then ws[l] else ws[l + 1]);
    if k == n {
      assert ws' == ws[..n];
    } else {
      ContributionsRemove(g, m, ws[..n], k, u);
      assert ws'[..|ws'| - 1] == ws[..n][..k] + ws[..n][k + 1..];
      assert ws'[|ws'| - 1] == ws[n];
    }
  }

  // ---------------------------------------------------------------------------------------
  // The order `backward` uses settles every node
  // ---------------------------------------------------------------------------------------

  /** Every node a rule writes to is among the nodes its own node depends on. */
  predicate TargetsReach(g: Graph)
    requires Valid(g)
  {
    forall v, t :: 0 <= v < |g| && t in Targets(g[v].op) ==> t in Reachable(g, v)
  }

  /** An operand of a reachable node is reachable. */
  lemma OperandReach(g: Graph, root: nat, v: nat, j: nat)
    requires Valid(g) && root < |g| && v in Reachable(g, root) && j < |g[v].prev|
    ensures g[v].prev[j] in Reachable(g, root)
  {
    ReachableClosed(g, root);
  }

  /** When each rule writes to operands of its node only, its targets are reachable. */
  lemma TargetsInPrevReach(g: Graph)
    requires Valid(g) && forall v, t :: 0 <= v < |g| && t in Targets(g[v].op) ==> t in g[v].prev
    ensures TargetsReach(g)
  {
    forall v, t | 0 <= v < |g| && t in Targets(g[v].op) ensures t in Reachable(g, v) {
      assert NodeOk(g[v], v);
      var j :| 0 <= j < |g[v].prev| && g[v].prev[j] == t;
      ReachableFromCovers(g, g[v].prev, v, j);
    }
  }

  /** The first `b + 1` entries of `t`. */
  function Upto(t: seq<nat>, b: nat): set<nat>
    requires b < |t|
  {
    set c | 0 <= c <= b :: t[c]
  }

  /** The nodes up to position `b` of a topological order are closed under operands. */
  lemma PrefixClosed(g: Graph, t: seq<nat>, b: nat)
    requires Topological(g, t) && b < |t|
    ensures Closed(g, Upto(t, b))
  {
    forall x | x in Upto(t, b) ensures x < |g| && forall j :: 0 <= j < |g[x].prev| ==> g[x].prev[j] in Upto(t, b) {
      var c :| 0 <= c <= b && t[c] == x;
      forall j | 0 <= j < |g[x].prev| ensures g[x].prev[j] in Upto(t, b) {
        assert g[x].prev[j] in t[..c];
        var d :| 0 <= d < c && t[d] == g[x].prev[j];
      }
    }
  }

  /** In a topological order, no node's rule writes to a node listed after it. */
  lemma TopoTargetsEarlier(g: Graph, t: seq<nat>, b: nat, a: nat)
    requires Valid(g) && TargetsReach(g) && Topological(g, t) && Distinct(t) && b < a < |t|
    ensures t[a] !in Targets(g[t[b]].op)
  {
    PrefixClosed(g, t, b);
    ReachableLeast(g, t[b], Upto(t, b));
  }

  /** A reversed topological order runs every rule before the rules of the nodes it writes to. */
  lemma ReverseSettles(g: Graph, t: seq<nat>)
    requires Valid(g) && TargetsReach(g) && Topological(g, t) && Distinct(t)
    ensures InRange(g, Reverse(t)) && Settles(g, Reverse(t))
  {
    var o := Reverse(t);
    var n := |t|;
    assert InRange(g, o) by {
      forall i | 0 <= i < n ensures o[i] < |g| {
        assert o[i] == t[n - 1 - i];
      }
    }
    forall i, j | 0 <= i < j < n ensures o[i] !in Targets(g[o[j]].op) {
      var a, b := n - 1 - i, n - 1 - j;
      assert o[i] == t[a] && o[j] == t[b];
      TopoTargetsEarlier(g, t, b, a);
    }
  }

  /** ... which is the order `backward` runs the rules in. */
  lemma ReverseTopoSettles(g: Graph, root: nat)
    requires Valid(g) && root < |g| && TargetsReach(g)
    ensures InRange(g, Reverse(TopoOrder(g, root))) && Settles(g, Reverse(TopoOrder(g, root)))
  {
    ReverseSettles(g, TopoOrder(g, root));
  }

  /**
   * `backward` with accumulating rules: the output ends with gradient 1 plus what its
   * consumers inside the graph add, every other node with its starting gradient plus what
   * the rules of its consumers add, each read with that consumer's final gradient.
   */
  lemma BackwardChainRule(g: Graph, m: Numerics, root: nat, u: nat)
    requires Valid(g) && root < |g| && TargetsReach(g) && u < |g|
    ensures InRange(g, Reverse(TopoOrder(g, root)))
    ensures var r := BackwardFixed(g, m, root);
            Valid(r) && r[u].grad == (if u == root then 1.0 else g[u].grad) + Contributions(r, m, Reverse(TopoOrder(g, root)), u)
  {
    var o := Reverse(TopoOrder(g, root));
    ReverseTopoSettles(g, root);
    var g1 := Assign(g, root, 1.0);
    GradsOnlyValid(g, g1);
    assert Settles(g1, o) by {
      forall j | 0 <= j < |o| ensures g1[o[j]].op == g[o[j]].op {}
    }
    RunChainRule(g1, m, o, u);
    GradsOnlyValid(g, BackwardFixed(g, m, root));
  }

  /** Reversing keeps the entries and their distinctness. */
  lemma ReverseMembers(xs: seq<nat>)
    ensures forall x :: x in Reverse(xs) <==> x in xs
    ensures Distinct(xs) ==> Distinct(Reverse(xs))
  {
    var r, n := Reverse(xs), |xs|;
    forall x | x in xs ensures x in r {
      var i :| 0 <= i < n && xs[i] == x;
      assert r[n - 1 - i] == x;
    }
  }

  /** A list without repeats whose entries all occur in `order` is a sub-multiset of it. */
  lemma {:induction false} DistinctSubMultiset(ws: seq<nat>, order: seq<nat>)
    requires Distinct(ws) && forall k :: 0 <= k < |ws| ==> ws[k] in order
    ensures multiset(ws) <= multiset(order)
  {
    if |ws| > 0 {
      var n := |ws| - 1;
      DistinctLast(ws);
      DistinctSubMultiset(ws[..n], order);
      assert ws == ws[..n] + [ws[n]];
      forall x ensures multiset(ws)[x] <= multiset(order)[x] {
        if x == ws[n] {
          assert x !in multiset(ws[..n]);
          assert x in multiset(order);
        }
      }
    }
  }

  /**
   * `backward` with accumulating rules, node by node: a node whose consumers within the
   * graph are exactly `ws`, each depending on the output, ends with its starting gradient
   * (1 for the output) plus the contribution of each consumer.
   */
  lemma BackwardConsumers(g: Graph, m: Numerics, root: nat, u: nat, ws: seq<nat>)
    requires Valid(g) && root < |g| && TargetsReach(g) && u < |g| && Distinct(ws)
    requires forall k :: 0 <= k < |ws| ==> ws[k] < |g| && ws[k] in Reachable(g, root)
    requires forall v :: 0 <= v < |g| && v !in ws ==> u !in Targets(g[v].op)
    ensures var r := BackwardFixed(g, m, root);
            Valid(r) && InRange(r, ws) && r[u].grad == (if u == root then 1.0 else g[u].grad) + Contributions(r, m, ws, u)
  {
    var r := BackwardFixed(g, m, root);
    var t := TopoOrder(g, root);
    var o := Reverse(t);
    BackwardChainRule(g, m, root, u);
    ReverseMembers(t);
    DistinctSubMultiset(ws, o);
    forall j | 0 <= j < |o| && o[j] !in ws ensures u !in Targets(r[o[j]].op) {
      assert r[o[j]].op == g[o[j]].op;
    }
    ConsumersOnly(r, m, o, ws, u);
  }

  // ---------------------------------------------------------------------------------------
  // Without `relu` and `tanh` the rule phase as written is the accumulating one
  // ---------------------------------------------------------------------------------------

  lemma {:induction false} RunRulesAccumulating(g: Graph, m: Numerics, order: seq<nat>)
    requires Valid(g) && InRange(g, order) && forall v :: 0 <= v < |g| ==> Accumulates(g[v].op)
    ensures RunRules(g, m, order) == RunRulesFixed(g, m, order)
  {
    if |order| > 0 {
      var n := |order| - 1;
      RunRulesAccumulating(g, m, order[..n]);
      var h := RunRules(g, m, order[..n]);
      assert h[order[n]].op == g[order[n]].op;
    }
  }

  /** On a graph without `relu` or `tanh` nodes, `backward` as written obeys the chain rule. */
  lemma BackwardAccumulating(g: Graph, m: Numerics, root: nat)
    requires Valid(g) && root < |g| && forall v :: 0 <= v < |g| ==> Accumulates(g[v].op)
    ensures BackwardSpec(g, m, root) == BackwardFixed(g, m, root)
  {
    var g1 := Assign(g, root, 1.0);
    GradsOnlyValid(g, g1);
    ReverseTopoBelow(g, root);
    assert forall v :: 0 <= v < |g1| ==> g1[v].op == g[v].op;
    RunRulesAccumulating(g1, m, Reverse(TopoOrder(g, root)));
  }
  // ---------------------------------------------------------------------------------------
  // When the overwriting `relu`/`tanh` rules do no harm
  // ---------------------------------------------------------------------------------------

  /**
   * In `order`, every `relu`/`tanh` rule runs before any other rule that writes its operand,
   * and that operand's gradient starts at 0: assigning then gives what adding would.
   */
  predicate OverwritesFirst(g: Graph, order: seq<nat>) {
    && InRange(g, order)
    && forall k, a :: 0 <= k < |order| && !Accumulates(g[order[k]].op) && a in Targets(g[order[k]].op) ==>
         && a < |g| && g[a].grad == 0.0
         && forall l :: 0 <= l < k ==> a !in Targets(g[order[l]].op)
  }

  /** The corrected rules of `order` leave a node none of them writes to alone. */
  lemma {:induction false} RunRulesFixedFrame(g: Graph, m: Numerics, order: seq<nat>, u: nat)
    requires Valid(g) && InRange(g, order) && u < |g|
    requires forall l :: 0 <= l < |order| ==> u !in Targets(g[order[l]].op)
    ensures RunRulesFixed(g, m, order)[u] == g[u]
  {
    if |order| > 0 {
      var n := |order| - 1;
      RunRulesFixedFrame(g, m, order[..n], u);
      var h := RunRulesFixed(g, m, order[..n]);
      var v := order[n];
      assert h[v].op == g[v].op;
      if Accumulates(h[v].op) {
        RuleFrame(h, m, v, u);
      }
    }
  }

  lemma OverwritesFirstPrefix(g: Graph, order: seq<nat>, n: nat)
    requires OverwritesFirst(g, order) && n <= |order|
    ensures OverwritesFirst(g, order[..n])
  {
    assert forall k :: 0 <= k < n ==> order[..n][k] == order[k];
  }

  /** A rule whose operands' gradients are all 0 gives the same graph as written and corrected. */
  lemma ApplyRuleOnZero(h: Graph, m: Numerics, v: nat)
    requires Valid(h) && v < |h| && forall a :: a in Targets(h[v].op) ==> a < |h| && h[a].grad == 0.0
    ensures ApplyRule(h, m, v) == ApplyRuleFixed(h, m, v)
  {
    match h[v].op
    case ReluOf(a) => assert a in Targets(h[v].op);
    case TanhOf(a, t) => assert a in Targets(h[v].op);
    case _ =>
  }

  /** Under `OverwritesFirst`, the rule phase as written is the accumulating one. */
  lemma {:induction false} RunRulesOverwritesFirst(g: Graph, m: Numerics, order: seq<nat>)
    requires Valid(g) && OverwritesFirst(g, order)
    ensures RunRules(g, m, order) == RunRulesFixed(g, m, order)
  {
    if |order| > 0 {
      var n := |order| - 1;
      var prefix := order[..n];
      OverwritesFirstPrefix(g, order, n);
      RunRulesOverwritesFirst(g, m, prefix);
      var h := RunRules(g, m, prefix);
      var v := order[n];
      assert h[v].op == g[v].op;
      if !Accumulates(g[v].op) {
        forall a | a in Targets(h[v].op) ensures a < |h| && h[a].grad == 0.0 {
          assert forall l :: 0 <= l < n ==> prefix[l] == order[l];
          RunRulesFixedFrame(g, m, prefix, a);
        }
        ApplyRuleOnZero(h, m, v);
      }
    }
  }

  /**
   * `backward` as written obeys the chain rule whenever, in its order, each `relu`/`tanh`
   * rule runs before every other rule writing to the same operand.
   */
  lemma BackwardOverwritesFirst(g: Graph, m: Numerics, root: nat)
    requires Valid(g) && root < |g| && OverwritesFirst(g, Reverse(TopoOrder(g, root)))
    ensures BackwardSpec(g, m, root) == BackwardFixed(g, m, root)
  {
    var order := Reverse(TopoOrder(g, root));
    ReverseTopoBelow(g, root);
    var g1 := Assign(g, root, 1.0);
    GradsOnlyValid(g, g1);
    forall k, a | 0 <= k < |order| && !Accumulates(g1[order[k]].op) && a in Targets(g1[order[k]].op)
      ensures a < |g1| && g1[a].grad == 0.0
      ensures forall l :: 0 <= l < k ==> a !in Targets(g1[order[l]].op)
    {
      TargetsBelow(g, order[k]);
    }
    RunRulesOverwritesFirst(g1, m, order);
  }
}
