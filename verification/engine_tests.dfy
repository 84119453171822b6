/**
 * The graphs of the engine's backward tests, with the gradients the tests expect derived
 * from the chain rule.
 */
module EngineTests {
  import opened Precision
  import opened Engine
  import opened Rules
  import opened Backprop
  import opened ChainRule

  // ---------------------------------------------------------------------------------------
  // The test "backward(): simple": l = (c + a * b) * f
  // ---------------------------------------------------------------------------------------

  /** `a = 2, b = -3, e = a.mul(b), c = 10, d = c.add(e), f = -2, l = d.mul(f)`. */
  function SimpleChain(m: Numerics): Built {
    var a := Constant([], m, 2.0);
    var b := Constant(a.graph, m, -3.0);
    var e := Mul(b.graph, m, a.id, Ref(b.id));
    var c := Constant(e.graph, m, 10.0);
    var d := Add(c.graph, m, c.id, Ref(e.id));
    var f := Constant(d.graph, m, -2.0);
    Mul(f.graph, m, d.id, Ref(f.id))
  }

  /** The test's graph field by field, which is all the proofs below look at. */
  predicate SimpleChainShape(g: Graph) {
    && Valid(g) && |g| == 7
    && g[0] == Node(2.0, 0.0, Leaf, []) && g[1] == Node(-3.0, 0.0, Leaf, [])
    && g[2] == Node(-6.0, 0.0, MulOf(0, 1), [0, 1]) && g[3] == Node(10.0, 0.0, Leaf, [])
    && g[4] == Node(4.0, 0.0, AddOf(3, 2), [3, 2]) && g[5] == Node(-2.0, 0.0, Leaf, [])
    && g[6].op == MulOf(4, 5) && g[6].prev == [4, 5]
  }

  /** With eight-place rounding and exact products the test's data come out: e -6, d 4, l -8. */
  lemma SimpleChainBuilds(m: Numerics)
    requires RoundsToFixed8(m) && ExactProducts(m)
    ensures SimpleChain(m).id == 6 && SimpleChainShape(SimpleChain(m).graph)
    ensures SimpleChain(m).graph[6] == Node(-8.0, 0.0, MulOf(4, 5), [4, 5])
  {
    RoundFixesInteger(2);
    RoundFixesInteger(-3);
    RoundFixesInteger(-6);
    RoundFixesInteger(10);
    RoundFixesInteger(4);
    RoundFixesInteger(-2);
    RoundFixesInteger(-8);
  }

  /** Who writes to whom: `e` to `a` and `b`, `d` to `c` and `e`, `l` to `d` and `f`. */
  lemma SimpleChainWriters(g: Graph)
    requires SimpleChainShape(g)
    ensures forall v, u :: 0 <= v < 7 && u in Targets(g[v].op) ==> u in g[v].prev
    ensures forall v, u :: 0 <= v < 7 && u in Targets(g[v].op) ==> u < 6 && v == [2, 2, 4, 4, 6, 6][u]
    ensures forall v :: 0 <= v < 7 ==> Accumulates(g[v].op)
  {
    forall v | 0 <= v < 7
      ensures Accumulates(g[v].op)
      ensures forall u :: u in Targets(g[v].op) ==> u in g[v].prev && u < 6 && v == [2, 2, 4, 4, 6, 6][u]
    {
      if v == 0 {} else if v == 1 {} else if v == 2 {} else if v == 3 {} else if v == 4 {} else if v == 5 {} else {}
    }
  }

  /** Every node of the test's graph is reachable from `l`, and so is every rule's target. */
  lemma SimpleChainReach(g: Graph)
    requires SimpleChainShape(g)
    ensures TargetsReach(g) && forall u :: 0 <= u < 7 ==> u in Reachable(g, 6)
  {
    SimpleChainWriters(g);
    TargetsInPrevReach(g);
    OperandReach(g, 6, 6, 0);
    OperandReach(g, 6, 6, 1);
    OperandReach(g, 6, 4, 0);
    OperandReach(g, 6, 4, 1);
    OperandReach(g, 6, 2, 0);
    OperandReach(g, 6, 2, 1);
    HoldsBelowSeven(Reachable(g, 6));
  }

  /** A set holding each of `0, ..., 6` holds every number below 7. */
  lemma HoldsBelowSeven(R: set<nat>)
    requires 0 in R && 1 in R && 2 in R && 3 in R && 4 in R && 5 in R && 6 in R
    ensures forall u :: 0 <= u < 7 ==> u in R
  {
    forall u | 0 <= u < 7 ensures u in R {
      if u == 0 {} else if u == 1 {} else if u == 2 {} else if u == 3 {} else if u == 4 {} else if u == 5 {} else {}
    }
  }

  /** What each rule of the test's graph contributes, whatever the gradients. */
  lemma SimpleChainDeltas(g: Graph, r: Graph, m: Numerics)
    requires SimpleChainShape(g) && GradsOnly(g, r) && Valid(r) && ExactProducts(m)
    ensures Contributions(r, m, [6], 4) == -2.0 * r[6].grad && Contributions(r, m, [6], 5) == 4.0 * r[6].grad
    ensures Contributions(r, m, [4], 3) == r[4].grad && Contributions(r, m, [4], 2) == r[4].grad
    ensures Contributions(r, m, [2], 1) == 2.0 * r[2].grad && Contributions(r, m, [2], 0) == -3.0 * r[2].grad
  {
    assert r[2] == g[2].(grad := r[2].grad) && r[4] == g[4].(grad := r[4].grad) && r[6] == g[6].(grad := r[6].grad);
    assert r[0].data == 2.0 && r[1].data == -3.0 && r[5].data == -2.0 && r[4].data == 4.0;
    ContributionsSingle(r, m, 6, 4);
    ContributionsSingle(r, m, 6, 5);
    ContributionsSingle(r, m, 4, 3);
    ContributionsSingle(r, m, 4, 2);
    ContributionsSingle(r, m, 2, 1);
    ContributionsSingle(r, m, 2, 0);
  }

  /** Each node but `l` has one consumer, so its gradient is that consumer's contribution. */
  lemma SimpleChainNode(g: Graph, m: Numerics, u: nat)
    requires SimpleChainShape(g) && u < 6
    ensures GradsOnly(g, BackwardFixed(g, m, 6)) && Valid(BackwardFixed(g, m, 6))
    ensures InRange(BackwardFixed(g, m, 6), [[2, 2, 4, 4, 6, 6][u]])
    ensures BackwardFixed(g, m, 6)[u].grad == Contributions(BackwardFixed(g, m, 6), m, [[2, 2, 4, 4, 6, 6][u]], u)
  {
    SimpleChainReach(g);
    SimpleChainWriters(g);
    BackwardConsumers(g, m, 6, u, [[2, 2, 4, 4, 6, 6][u]]);
  }

  /** With the accumulating rules, `l.backward()` gives a 6, b -4, e -2, c -2, d -2, f 4, l 1. */
  lemma SimpleChainFixed(g: Graph, m: Numerics)
    requires SimpleChainShape(g) && ExactProducts(m)
    ensures var r := BackwardFixed(g, m, 6);
            && r[0].grad == 6.0 && r[1].grad == -4.0 && r[2].grad == -2.0 && r[3].grad == -2.0
            && r[4].grad == -2.0 && r[5].grad == 4.0 && r[6].grad == 1.0
  {
    SimpleChainReach(g);
    var r := BackwardFixed(g, m, 6);
    BackwardConsumers(g, m, 6, 6, []);
    SimpleChainNode(g, m, 0);
    SimpleChainNode(g, m, 1);
    SimpleChainNode(g, m, 2);
    SimpleChainNode(g, m, 3);
    SimpleChainNode(g, m, 4);
    SimpleChainNode(g, m, 5);
    SimpleChainDeltas(g, r, m);
  }

  /**
   * `l.backward()` as written gives the gradients the test expects. The graph has neither
   * `relu` nor `tanh`, so the rules as written are the accumulating ones.
   */
  lemma SimpleChainGradients(m: Numerics)
    requires RoundsToFixed8(m) && ExactProducts(m)
    ensures Valid(SimpleChain(m).graph) && SimpleChain(m).id < |SimpleChain(m).graph| == 7
    ensures var r := BackwardSpec(SimpleChain(m).graph, m, SimpleChain(m).id);
            && r[0].grad == 6.0 && r[1].grad == -4.0 && r[2].grad == -2.0 && r[3].grad == -2.0
            && r[4].grad == -2.0 && r[5].grad == 4.0 && r[6].grad == 1.0
  {
    SimpleChainBuilds(m);
    var g := SimpleChain(m).graph;
    SimpleChainWriters(g);
    BackwardAccumulating(g, m, 6);
    SimpleChainFixed(g, m);
  }

  // ---------------------------------------------------------------------------------------
  // The test "backward(): complex": x reaches y along several paths, one through a relu
  // ---------------------------------------------------------------------------------------

  /** `x = -4; z = x.mul(2).add(2).add(x)`. */
  function DiamondZ(m: Numerics): (r: Built)
    ensures Valid(r.graph) && |r.graph| == 6 && r.id == 5
  {
    var x := Constant([], m, -4.0);
    var x2 := Mul(x.graph, m, x.id, Num(2.0));
    var x22 := Add(x2.graph, m, x2.id, Num(2.0));
    Add(x22.graph, m, x22.id, Ref(x.id))
  }

  /** `q = z.mul(x).add(z.relu())`. */
  function DiamondQ(m: Numerics): (r: Built)
    ensures Valid(r.graph) && Extends(DiamondZ(m).graph, r.graph) && |r.graph| == 9 && r.id == 8
  {
    var z := DiamondZ(m);
    var zx := Mul(z.graph, m, z.id, Ref(0));
    var rz := Relu(zx.graph, m, z.id);
    Add(rz.graph, m, zx.id, Ref(rz.id))
  }

  /** `h = z.mul(z).relu()`. */
  function DiamondH(m: Numerics): (r: Built)
    ensures Valid(r.graph) && Extends(DiamondQ(m).graph, r.graph) && |r.graph| == 11 && r.id == 10
  {
    var q := DiamondQ(m);
    var zz := Mul(q.graph, m, 5, Ref(5));
    Relu(zz.graph, m, zz.id)
  }

  /** `y = h.add(q).add(q.mul(x))`. */
  function Diamond(m: Numerics): (r: Built)
    ensures Valid(r.graph) && Extends(DiamondH(m).graph, r.graph) && |r.graph| == 14 && r.id == 13
  {
    var h := DiamondH(m);
    var hq := Add(h.graph, m, h.id, Ref(8));
    var qx := Mul(hq.graph, m, 8, Ref(0));
    Add(qx.graph, m, hq.id, Ref(qx.id))
  }

  lemma DiamondZData(m: Numerics)
    requires RoundsToFixed8(m) && ExactProducts(m)
    ensures var g := DiamondZ(m).graph;
            && g[0] == Node(-4.0, 0.0, Leaf, []) && g[1] == Node(2.0, 0.0, Leaf, [])
            && g[2] == Node(-8.0, 0.0, MulOf(0, 1), [0, 1]) && g[3] == Node(2.0, 0.0, Leaf, [])
            && g[4] == Node(-6.0, 0.0, AddOf(2, 3), [2, 3]) && g[5] == Node(-10.0, 0.0, AddOf(4, 0), [4, 0])
  {
    RoundFixesInteger(-4);
    RoundFixesInteger(2);
    RoundFixesInteger(-8);
    RoundFixesInteger(-6);
    RoundFixesInteger(-10);
  }

  lemma DiamondQData(m: Numerics)
    requires RoundsToFixed8(m) && ExactProducts(m)
    ensures var g := DiamondQ(m).graph;
            && g[6] == Node(40.0, 0.0, MulOf(5, 0), [5, 0]) && g[7] == Node(0.0, 0.0, ReluOf(5), [5])
            && g[8] == Node(40.0, 0.0, AddOf(6, 7), [6, 7])
  {
    DiamondZData(m);
    RoundFixesInteger(40);
    RoundFixesInteger(0);
  }

  lemma DiamondHData(m: Numerics)
    requires RoundsToFixed8(m) && ExactProducts(m)
    ensures var g := DiamondH(m).graph;
            g[9] == Node(100.0, 0.0, MulOf(5, 5), [5]) && g[10] == Node(100.0, 0.0, ReluOf(9), [9])
  {
    DiamondZData(m);
    assert DiamondQ(m).graph[5] == DiamondZ(m).graph[5];
    RoundFixesInteger(100);
  }

  lemma DiamondYData(m: Numerics)
    requires RoundsToFixed8(m) && ExactProducts(m)
    ensures var g := Diamond(m).graph;
            && g[11] == Node(140.0, 0.0, AddOf(10, 8), [10, 8]) && g[12] == Node(-160.0, 0.0, MulOf(8, 0), [8, 0])
            && g[13] == Node(-20.0, 0.0, AddOf(11, 12), [11, 12])
  {
    DiamondZData(m);
    DiamondQData(m);
    DiamondHData(m);
    var h := DiamondH(m).graph;
    assert h[0] == DiamondZ(m).graph[0] && h[8] == DiamondQ(m).graph[8];
    RoundFixesInteger(140);
    RoundFixesInteger(-160);
    RoundFixesInteger(-20);
  }

  /** The test's graph field by field. */
  predicate DiamondShape(g: Graph) {
    && Valid(g) && |g| == 14
    && g[0] == Node(-4.0, 0.0, Leaf, []) && g[1] == Node(2.0, 0.0, Leaf, [])
    && g[2] == Node(-8.0, 0.0, MulOf(0, 1), [0, 1]) && g[3] == Node(2.0, 0.0, Leaf, [])
    && g[4] == Node(-6.0, 0.0, AddOf(2, 3), [2, 3]) && g[5] == Node(-10.0, 0.0, AddOf(4, 0), [4, 0])
    && g[6] == Node(40.0, 0.0, MulOf(5, 0), [5, 0]) && g[7] == Node(0.0, 0.0, ReluOf(5), [5])
    && g[8] == Node(40.0, 0.0, AddOf(6, 7), [6, 7]) && g[9] == Node(100.0, 0.0, MulOf(5, 5), [5])
    && g[10] == Node(100.0, 0.0, ReluOf(9), [9]) && g[11] == Node(140.0, 0.0, AddOf(10, 8), [10, 8])
    && g[12] == Node(-160.0, 0.0, MulOf(8, 0), [8, 0]) && g[13].op == AddOf(11, 12) && g[13].prev == [11, 12]
  }

  /** With eight-place rounding and exact products the data come out whole: z -10, q 40, h 100, y -20. */
  lemma DiamondBuilds(m: Numerics)
    requires RoundsToFixed8(m) && ExactProducts(m)
    ensures DiamondShape(Diamond(m).graph) && Diamond(m).graph[13].data == -20.0
  {
    DiamondZData(m);
    DiamondQData(m);
    DiamondHData(m);
    DiamondYData(m);
    var z, q, h, y := DiamondZ(m).graph, DiamondQ(m).graph, DiamondH(m).graph, Diamond(m).graph;
    assert forall i :: 0 <= i < 6 ==> y[i] == h[i] == q[i] == z[i];
    assert forall i :: 6 <= i < 9 ==> y[i] == h[i] == q[i];
    assert forall i :: 9 <= i < 11 ==> y[i] == h[i];
  }

  /** The consumers of each node: `x` feeds `x*2`, `z`, `z*x` and `q*x`; `z` feeds `z*x`, `relu(z)` and `z*z`. */
  function DiamondConsumers(u: nat): seq<nat>
    requires u < 14
  {
    [[2, 5, 6, 12], [2], [4], [4], [5], [6, 7, 9], [8], [8], [11, 12], [10], [11], [13], [13], []][u]
  }

  lemma DiamondConsumersOk(u: nat)
    requires u < 14
    ensures Distinct(DiamondConsumers(u)) && forall k :: 0 <= k < |DiamondConsumers(u)| ==> DiamondConsumers(u)[k] < 14
  {
    if u == 0 {} else if u == 5 {} else if u == 8 {} else if u < 5 {} else if u < 8 {} else {}
  }

  /** The rules of `x` through `relu(z)` and whom they write to. */
  lemma DiamondWritersLower(g: Graph)
    requires DiamondShape(g)
    ensures forall v, u :: 0 <= v < 7 && u in Targets(g[v].op) ==> u in g[v].prev && u < 13 && v in DiamondConsumers(u)
  {
    forall v | 0 <= v < 7
      ensures forall u :: u in Targets(g[v].op) ==> u in g[v].prev && u < 13 && v in DiamondConsumers(u)
    {
      if v == 0 {} else if v == 1 {} else if v == 2 {} else if v == 3 {} else if v == 4 {} else if v == 5 {} else {}
    }
  }

  /** The rules of `relu(z)` through `y` and whom they write to. */
  lemma DiamondWritersUpper(g: Graph)
    requires DiamondShape(g)
    ensures forall v, u :: 7 <= v < 14 && u in Targets(g[v].op) ==> u in g[v].prev && u < 13 && v in DiamondConsumers(u)
  {
    forall v | 7 <= v < 14
      ensures forall u :: u in Targets(g[v].op) ==> u in g[v].prev && u < 13 && v in DiamondConsumers(u)
    {
      if v == 7 {} else if v == 8 {} else if v == 9 {} else if v == 10 {} else if v == 11 {} else if v == 12 {} else {}
    }
  }

  /** Who writes to whom. */
  lemma DiamondWriters(g: Graph)
    requires DiamondShape(g)
    ensures forall v, u :: 0 <= v < 14 && u in Targets(g[v].op) ==> u in g[v].prev
    ensures forall v, u :: 0 <= v < 14 && u in Targets(g[v].op) ==> u < 13 && v in DiamondConsumers(u)
  {
    DiamondWritersLower(g);
    DiamondWritersUpper(g);
  }

  /** Every rule's target is reachable from the rule's node. */
  lemma DiamondTargetsReach(g: Graph)
    requires DiamondShape(g)
    ensures TargetsReach(g)
  {
    DiamondWriters(g);
    TargetsInPrevReach(g);
  }

  lemma DiamondReachUpper(g: Graph)
    requires DiamondShape(g)
    ensures var R := Reachable(g, 13); 11 in R && 12 in R && 10 in R && 8 in R && 0 in R
  {
    OperandReach(g, 13, 13, 0);
    OperandReach(g, 13, 13, 1);
    OperandReach(g, 13, 11, 0);
    OperandReach(g, 13, 11, 1);
    OperandReach(g, 13, 12, 1);
  }

  lemma DiamondReachMiddle(g: Graph)
    requires DiamondShape(g) && 10 in Reachable(g, 13) && 8 in Reachable(g, 13)
    ensures var R := Reachable(g, 13); 9 in R && 6 in R && 7 in R && 5 in R
  {
    OperandReach(g, 13, 10, 0);
    OperandReach(g, 13, 8, 0);
    OperandReach(g, 13, 8, 1);
    OperandReach(g, 13, 6, 0);
  }

  lemma DiamondReachLower(g: Graph)
    requires DiamondShape(g) && 5 in Reachable(g, 13)
    ensures var R := Reachable(g, 13); 4 in R && 2 in R && 3 in R && 1 in R
  {
    OperandReach(g, 13, 5, 0);
    OperandReach(g, 13, 4, 0);
    OperandReach(g, 13, 4, 1);
    OperandReach(g, 13, 2, 1);
  }

  /** A set holding each of `0, ..., 13` holds every number below 14. */
  lemma HoldsBelowFourteen(R: set<nat>)
    requires 0 in R && 1 in R && 2 in R && 3 in R && 4 in R && 5 in R && 6 in R
    requires 7 in R && 8 in R && 9 in R && 10 in R && 11 in R && 12 in R && 13 in R
    ensures forall u :: 0 <= u < 14 ==> u in R
  {
    forall u | 0 <= u < 14 ensures u in R {
      if u < 7 {
        if u == 0 {} else if u == 1 {} else if u == 2 {} else if u == 3 {} else if u == 4 {} else if u == 5 {} else {}
      } else {
        if u == 7 {} else if u == 8 {} else if u == 9 {} else if u == 10 {} else if u == 11 {} else if u == 12 {} else {}
      }
    }
  }

  /** Every node is reachable from `y`. */
  lemma DiamondReach(g: Graph)
    requires DiamondShape(g)
    ensures forall u :: 0 <= u < 14 ==> u in Reachable(g, 13)
  {
    DiamondReachUpper(g);
    DiamondReachMiddle(g);
    DiamondReachLower(g);
    HoldsBelowFourteen(Reachable(g, 13));
  }

  /** Each node's gradient is the sum of its consumers' contributions (plus 1 for `y`). */
  lemma DiamondNode(g: Graph, m: Numerics, u: nat)
    requires DiamondShape(g) && u < 14
    ensures GradsOnly(g, BackwardFixed(g, m, 13)) && Valid(BackwardFixed(g, m, 13))
    ensures InRange(BackwardFixed(g, m, 13), DiamondConsumers(u))
    ensures BackwardFixed(g, m, 13)[u].grad
            == (if u == 13 then 1.0 else g[u].grad) + Contributions(BackwardFixed(g, m, 13), m, DiamondConsumers(u), u)
  {
    DiamondTargetsReach(g);
    DiamondReach(g);
    DiamondWriters(g);
    DiamondConsumersOk(u);
    BackwardConsumers(g, m, 13, u, DiamondConsumers(u));
  }

  /** What the single consumers contribute, whatever the gradients. */
  lemma DiamondSingleDeltas(g: Graph, r: Graph, m: Numerics)
    requires DiamondShape(g) && GradsOnly(g, r) && Valid(r) && ExactProducts(m)
    ensures Contributions(r, m, [2], 1) == -4.0 * r[2].grad
    ensures Contributions(r, m, [4], 2) == r[4].grad && Contributions(r, m, [4], 3) == r[4].grad
    ensures Contributions(r, m, [5], 4) == r[5].grad
    ensures Contributions(r, m, [8], 6) == r[8].grad && Contributions(r, m, [8], 7) == r[8].grad
    ensures Contributions(r, m, [10], 9) == r[10].grad && Contributions(r, m, [11], 10) == r[11].grad
    ensures Contributions(r, m, [13], 11) == r[13].grad && Contributions(r, m, [13], 12) == r[13].grad
  {
    assert r[2] == g[2].(grad := r[2].grad) && r[4] == g[4].(grad := r[4].grad) && r[5] == g[5].(grad := r[5].grad);
    assert r[8] == g[8].(grad := r[8].grad) && r[10] == g[10].(grad := r[10].grad);
    assert r[11] == g[11].(grad := r[11].grad) && r[13].op == g[13].op;
    assert r[0].data == -4.0;
    ContributionsSingle(r, m, 2, 1);
    ContributionsSingle(r, m, 4, 2);
    ContributionsSingle(r, m, 4, 3);
    ContributionsSingle(r, m, 5, 4);
    ContributionsSingle(r, m, 8, 6);
    ContributionsSingle(r, m, 8, 7);
    ContributionsSingle(r, m, 10, 9);
    ContributionsSingle(r, m, 11, 10);
    ContributionsSingle(r, m, 13, 11);
    ContributionsSingle(r, m, 13, 12);
  }

  /** What the consumers of `x` contribute: through `x*2`, `z`, `z*x` and `q*x`. */
  lemma DiamondXDeltas(g: Graph, r: Graph, m: Numerics)
    requires DiamondShape(g) && GradsOnly(g, r) && Valid(r) && ExactProducts(m)
    ensures Contributions(r, m, [2, 5, 6, 12], 0) == 2.0 * r[2].grad + r[5].grad - 10.0 * r[6].grad + 40.0 * r[12].grad
  {
    assert r[2] == g[2].(grad := r[2].grad) && r[5] == g[5].(grad := r[5].grad) && r[6] == g[6].(grad := r[6].grad);
    assert r[12] == g[12].(grad := r[12].grad);
    assert r[1].data == 2.0 && r[5].data == -10.0 && r[8].data == 40.0;
    ContributionsSingle(r, m, 2, 0);
    ContributionsSnoc(r, m, [2], 5, 0);
    assert [2] + [5] == [2, 5];
    ContributionsSnoc(r, m, [2, 5], 6, 0);
    assert [2, 5] + [6] == [2, 5, 6];
    ContributionsSnoc(r, m, [2, 5, 6], 12, 0);
    assert [2, 5, 6] + [12] == [2, 5, 6, 12];
  }

  /** What the consumers of `z` contribute; `relu(z)` passes nothing back, as `z < 0`. */
  lemma DiamondZDeltas(g: Graph, r: Graph, m: Numerics)
    requires DiamondShape(g) && GradsOnly(g, r) && Valid(r) && ExactProducts(m)
    ensures Contributions(r, m, [6, 7, 9], 5) == -4.0 * r[6].grad - 20.0 * r[9].grad
  {
    assert r[6] == g[6].(grad := r[6].grad) && r[7] == g[7].(grad := r[7].grad) && r[9] == g[9].(grad := r[9].grad);
    assert r[0].data == -4.0 && r[5].data == -10.0;
    ContributionsSingle(r, m, 6, 5);
    ContributionsSnoc(r, m, [6], 7, 5);
    assert [6] + [7] == [6, 7];
    ContributionsSnoc(r, m, [6, 7], 9, 5);
    assert [6, 7] + [9] == [6, 7, 9];
  }

  /** What the consumers of `q` contribute. */
  lemma DiamondQDeltas(g: Graph, r: Graph, m: Numerics)
    requires DiamondShape(g) && GradsOnly(g, r) && Valid(r) && ExactProducts(m)
    ensures Contributions(r, m, [11, 12], 8) == r[11].grad - 4.0 * r[12].grad
  {
    assert r[11] == g[11].(grad := r[11].grad) && r[12] == g[12].(grad := r[12].grad);
    assert r[0].data == -4.0;
    ContributionsSingle(r, m, 11, 8);
    ContributionsSnoc(r, m, [11], 12, 8);
    assert [11] + [12] == [11, 12];
  }

  // ---------------------------------------------------------------------------------------
  // The search order `backward` builds for the test's graph
  // ---------------------------------------------------------------------------------------

  /** The operand lists of the test's graph, which are all the search looks at. */
  predicate DiamondPrevs(g: Graph) {
    && Valid(g) && |g| == 14
    && g[0].prev == [] && g[1].prev == [] && g[2].prev == [0, 1] && g[3].prev == []
    && g[4].prev == [2, 3] && g[5].prev == [4, 0] && g[6].prev == [5, 0] && g[7].prev == [5]
    && g[8].prev == [6, 7] && g[9].prev == [5] && g[10].prev == [9] && g[11].prev == [10, 8]
    && g[12].prev == [8, 0] && g[13].prev == [11, 12]
  }

  /** The node on top of a non-empty stack. */
  function Top(s: Search): nat
    requires |s.stack| > 0
  {
    s.stack[|s.stack| - 1]
  }

  /** Expanding a node with operands `[a, b]`, neither visited, pushes `b` and then `a`. */
  lemma ExpandTwo(g: Graph, s: Search, a: nat, b: nat)
    requires Valid(g) && Bounded(g, s) && |s.stack| > 0 && Top(s) !in s.visited
    requires g[Top(s)].prev == [a, b] && a !in s.visited + {Top(s)} && b !in s.visited + {Top(s)}
    ensures Step(g, s) == Search(s.stack + [b, a], s.visited + {Top(s)}, s.added, s.topo)
  {
    var visited := s.visited + {Top(s)};
    assert Reverse([a, b]) == [b, a];
    assert [b, a][..1] == [b] && [b][..0] == [];
    assert Unvisited([b], visited) == [b];
    StepExpands(g, s, [b, a]);
  }

  /** Expanding a node with the one unvisited operand `a` pushes it. */
  lemma ExpandOne(g: Graph, s: Search, a: nat)
    requires Valid(g) && Bounded(g, s) && |s.stack| > 0 && Top(s) !in s.visited
    requires g[Top(s)].prev == [a] && a !in s.visited + {Top(s)}
    ensures Step(g, s) == Search(s.stack + [a], s.visited + {Top(s)}, s.added, s.topo)
  {
    assert Reverse([a]) == [a];
    StepExpands(g, s, [a]);
  }

  /** No entry of `cs` is pushed when all are visited. */
  lemma {:induction false} NonePushed(cs: seq<nat>, visited: set<nat>)
    requires forall j :: 0 <= j < |cs| ==> cs[j] in visited
    ensures Unvisited(cs, visited) == []
  {
    if |cs| > 0 {
      NonePushed(cs[..|cs| - 1], visited);
    }
  }

  /** A node met for the first time whose operands are all visited is popped and recorded. */
  lemma RecordFresh(g: Graph, s: Search)
    requires Valid(g) && Bounded(g, s) && |s.stack| > 0 && Top(s) !in s.visited && Top(s) !in s.added
    requires forall j :: 0 <= j < |g[Top(s)].prev| ==> g[Top(s)].prev[j] in s.visited
    ensures Step(g, s) == Search(s.stack[..|s.stack| - 1], s.visited + {Top(s)}, s.added + {Top(s)}, s.topo + [Top(s)])
  {
    var prev := g[Top(s)].prev;
    forall j | 0 <= j < |prev| ensures Reverse(prev)[j] in s.visited + {Top(s)} {
      assert Reverse(prev)[j] == prev[|prev| - 1 - j];
    }
    NonePushed(Reverse(prev), s.visited + {Top(s)});
    StepPops(g, s);
  }

  /** A visited node is popped, and recorded unless it is recorded already. */
  lemma PopVisited(g: Graph, s: Search)
    requires Valid(g) && Bounded(g, s) && |s.stack| > 0 && Top(s) in s.visited
    ensures Step(g, s) == if Top(s) in s.added then Search(s.stack[..|s.stack| - 1], s.visited, s.added, s.topo)
                          else Search(s.stack[..|s.stack| - 1], s.visited, s.added + {Top(s)}, s.topo + [Top(s)])
  {
    StepPops(g, s);
    assert s.visited + {Top(s)} == s.visited;
  }

  /** The state of the search from `y` after `i` iterations. */
  function DiamondState(i: nat): Search
  {
    if i == 0 then Search([13], {}, {}, [])
    else if i == 1 then Search([13, 12, 11], {13}, {}, [])
    else if i == 2 then Search([13, 12, 11, 8, 10], {11, 13}, {}, [])
    else if i == 3 then Search([13, 12, 11, 8, 10, 9], {10, 11, 13}, {}, [])
    else if i == 4 then Search([13, 12, 11, 8, 10, 9, 5], {9, 10, 11, 13}, {}, [])
    else if i == 5 then Search([13, 12, 11, 8, 10, 9, 5, 0, 4], {5, 9, 10, 11, 13}, {}, [])
    else if i == 6 then Search([13, 12, 11, 8, 10, 9, 5, 0, 4, 3, 2], {4, 5, 9, 10, 11, 13}, {}, [])
    else if i == 7 then Search([13, 12, 11, 8, 10, 9, 5, 0, 4, 3, 2, 1, 0], {2, 4, 5, 9, 10, 11, 13}, {}, [])
    else if i == 8 then Search([13, 12, 11, 8, 10, 9, 5, 0, 4, 3, 2, 1], {0, 2, 4, 5, 9, 10, 11, 13}, {0}, [0])
    else if i == 9 then Search([13, 12, 11, 8, 10, 9, 5, 0, 4, 3, 2], {0, 1, 2, 4, 5, 9, 10, 11, 13}, {0, 1}, [0, 1])
    else if i == 10 then Search([13, 12, 11, 8, 10, 9, 5, 0, 4, 3], {0, 1, 2, 4, 5, 9, 10, 11, 13}, {0, 1, 2}, [0, 1, 2])
    else if i == 11 then Search([13, 12, 11, 8, 10, 9, 5, 0, 4], {0, 1, 2, 3, 4, 5, 9, 10, 11, 13}, {0, 1, 2, 3}, [0, 1, 2, 3])
    else if i == 12 then Search([13, 12, 11, 8, 10, 9, 5, 0], {0, 1, 2, 3, 4, 5, 9, 10, 11, 13}, {0, 1, 2, 3, 4}, [0, 1, 2, 3, 4])
    else if i == 13 then Search([13, 12, 11, 8, 10, 9, 5], {0, 1, 2, 3, 4, 5, 9, 10, 11, 13}, {0, 1, 2, 3, 4}, [0, 1, 2, 3, 4])
    else if i == 14 then Search([13, 12, 11, 8, 10, 9], {0, 1, 2, 3, 4, 5, 9, 10, 11, 13}, {0, 1, 2, 3, 4, 5}, [0, 1, 2, 3, 4, 5])
    else if i == 15 then Search([13, 12, 11, 8, 10], {0, 1, 2, 3, 4, 5, 9, 10, 11, 13}, {0, 1, 2, 3, 4, 5, 9}, [0, 1, 2, 3, 4, 5, 9])
    else if i == 16 then Search([13, 12, 11, 8], {0, 1, 2, 3, 4, 5, 9, 10, 11, 13}, {0, 1, 2, 3, 4, 5, 9, 10}, [0, 1, 2, 3, 4, 5, 9, 10])
    else if i == 17 then Search([13, 12, 11, 8, 7, 6], {0, 1, 2, 3, 4, 5, 8, 9, 10, 11, 13}, {0, 1, 2, 3, 4, 5, 9, 10}, [0, 1, 2, 3, 4, 5, 9, 10])
    else if i == 18 then Search([13, 12, 11, 8, 7], {0, 1, 2, 3, 4, 5, 6, 8, 9, 10, 11, 13}, {0, 1, 2, 3, 4, 5, 6, 9, 10}, [0, 1, 2, 3, 4, 5, 9, 10, 6])
    else if i == 19 then Search([13, 12, 11, 8], {0, 1, 2, 3, 4, 5, 6, 7, 8, 9, 10, 11, 13}, {0, 1, 2, 3, 4, 5, 6, 7, 9, 10}, [0, 1, 2, 3, 4, 5, 9, 10, 6, 7])
    else if i == 20 then Search([13, 12, 11], {0, 1, 2, 3, 4, 5, 6, 7, 8, 9, 10, 11, 13}, {0, 1, 2, 3, 4, 5, 6, 7, 8, 9, 10}, [0, 1, 2, 3, 4, 5, 9, 10, 6, 7, 8])
    else if i == 21 then Search([13, 12], {0, 1, 2, 3, 4, 5, 6, 7, 8, 9, 10, 11, 13}, {0, 1, 2, 3, 4, 5, 6, 7, 8, 9, 10, 11}, [0, 1, 2, 3, 4, 5, 9, 10, 6, 7, 8, 11])
    else if i == 22 then Search([13], {0, 1, 2, 3, 4, 5, 6, 7, 8, 9, 10, 11, 12, 13}, {0, 1, 2, 3, 4, 5, 6, 7, 8, 9, 10, 11, 12}, [0, 1, 2, 3, 4, 5, 9, 10, 6, 7, 8, 11, 12])
    else Search([], {0, 1, 2, 3, 4, 5, 6, 7, 8, 9, 10, 11, 12, 13}, {0, 1, 2, 3, 4, 5, 6, 7, 8, 9, 10, 11, 12, 13}, [0, 1, 2, 3, 4, 5, 9, 10, 6, 7, 8, 11, 12, 13])
  }

  /** Iteration 1 expands 13. */
  lemma DiamondIteration1(g: Graph)
    requires DiamondPrevs(g) && Bounded(g, DiamondState(0))
    ensures |DiamondState(0).stack| > 0
    ensures Step(g, DiamondState(0)) == DiamondState(1)
  {
    var s := DiamondState(0);
    assert Top(s) == 13;
    ExpandTwo(g, s, 11, 12);
    DiamondNext1();
  }

  /** What iteration 1 computes from state 0 is state 1. */
  lemma DiamondNext1()
    ensures var s := DiamondState(0);
            Search(s.stack + [12, 11], s.visited + {13}, s.added, s.topo) == DiamondState(1)
  {
  }

  /** Iteration 2 expands 11. */
  lemma DiamondIteration2(g: Graph)
    requires DiamondPrevs(g) && Bounded(g, DiamondState(1))
    ensures |DiamondState(1).stack| > 0
    ensures Step(g, DiamondState(1)) == DiamondState(2)
  {
    var s := DiamondState(1);
    assert Top(s) == 11;
    ExpandTwo(g, s, 10, 8);
    DiamondNext2();
  }

  /** What iteration 2 computes from state 1 is state 2. */
  lemma DiamondNext2()
    ensures var s := DiamondState(1);
            Search(s.stack + [8, 10], s.visited + {11}, s.added, s.topo) == DiamondState(2)
  {
  }

  /** Iteration 3 expands 10. */
  lemma DiamondIteration3(g: Graph)
    requires DiamondPrevs(g) && Bounded(g, DiamondState(2))
    ensures |DiamondState(2).stack| > 0
    ensures Step(g, DiamondState(2)) == DiamondState(3)
  {
    var s := DiamondState(2);
    assert Top(s) == 10;
    ExpandOne(g, s, 9);
    DiamondNext3();
  }

  /** What iteration 3 computes from state 2 is state 3. */
  lemma DiamondNext3()
    ensures var s := DiamondState(2);
            Search(s.stack + [9], s.visited + {10}, s.added, s.topo) == DiamondState(3)
  {
  }

  /** Iteration 4 expands 9. */
  lemma DiamondIteration4(g: Graph)
    requires DiamondPrevs(g) && Bounded(g, DiamondState(3))
    ensures |DiamondState(3).stack| > 0
    ensures Step(g, DiamondState(3)) == DiamondState(4)
  {
    var s := DiamondState(3);
    assert Top(s) == 9;
    ExpandOne(g, s, 5);
    DiamondNext4();
  }

  /** What iteration 4 computes from state 3 is state 4. */
  lemma DiamondNext4()
    ensures var s := DiamondState(3);
            Search(s.stack + [5], s.visited + {9}, s.added, s.topo) == DiamondState(4)
  {
  }

  /** Iteration 5 expands 5. */
  lemma DiamondIteration5(g: Graph)
    requires DiamondPrevs(g) && Bounded(g, DiamondState(4))
    ensures |DiamondState(4).stack| > 0
    ensures Step(g, DiamondState(4)) == DiamondState(5)
  {
    var s := DiamondState(4);
    assert Top(s) == 5;
    ExpandTwo(g, s, 4, 0);
    DiamondNext5();
  }

  /** What iteration 5 computes from state 4 is state 5. */
  lemma DiamondNext5()
    ensures var s := DiamondState(4);
            Search(s.stack + [0, 4], s.visited + {5}, s.added, s.topo) == DiamondState(5)
  {
  }

  /** Iteration 6 expands 4. */
  lemma DiamondIteration6(g: Graph)
    requires DiamondPrevs(g) && Bounded(g, DiamondState(5))
    ensures |DiamondState(5).stack| > 0
    ensures Step(g, DiamondState(5)) == DiamondState(6)
  {
    var s := DiamondState(5);
    assert Top(s) == 4;
    ExpandTwo(g, s, 2, 3);
    DiamondNext6();
  }

  /** What iteration 6 computes from state 5 is state 6. */
  lemma DiamondNext6()
    ensures var s := DiamondState(5);
            Search(s.stack + [3, 2], s.visited + {4}, s.added, s.topo) == DiamondState(6)
  {
  }

  /** Iteration 7 expands 2. */
  lemma DiamondIteration7(g: Graph)
    requires DiamondPrevs(g) && Bounded(g, DiamondState(6))
    ensures |DiamondState(6).stack| > 0
    ensures Step(g, DiamondState(6)) == DiamondState(7)
  {
    var s := DiamondState(6);
    assert Top(s) == 2;
    ExpandTwo(g, s, 0, 1);
    DiamondNext7();
  }

  /** What iteration 7 computes from state 6 is state 7. */
  lemma DiamondNext7()
    ensures var s := DiamondState(6);
            Search(s.stack + [1, 0], s.visited + {2}, s.added, s.topo) == DiamondState(7)
  {
  }

  /** Iteration 8 records 0. */
  lemma DiamondIteration8(g: Graph)
    requires DiamondPrevs(g) && Bounded(g, DiamondState(7))
    ensures |DiamondState(7).stack| > 0
    ensures Step(g, DiamondState(7)) == DiamondState(8)
  {
    var s := DiamondState(7);
    assert Top(s) == 0;
    RecordFresh(g, s);
    DiamondNext8();
  }

  /** What iteration 8 computes from state 7 is state 8. */
  lemma DiamondNext8()
    ensures var s := DiamondState(7);
            Search(s.stack[..|s.stack| - 1], s.visited + {0}, s.added + {0}, s.topo + [0]) == DiamondState(8)
  {
  }

  /** Iteration 9 records 1. */
  lemma DiamondIteration9(g: Graph)
    requires DiamondPrevs(g) && Bounded(g, DiamondState(8))
    ensures |DiamondState(8).stack| > 0
    ensures Step(g, DiamondState(8)) == DiamondState(9)
  {
    var s := DiamondState(8);
    assert Top(s) == 1;
    RecordFresh(g, s);
    DiamondNext9();
  }

  /** What iteration 9 computes from state 8 is state 9. */
  lemma DiamondNext9()
    ensures var s := DiamondState(8);
            Search(s.stack[..|s.stack| - 1], s.visited + {1}, s.added + {1}, s.topo + [1]) == DiamondState(9)
  {
  }

  /** Iteration 10 records 2. */
  lemma DiamondIteration10(g: Graph)
    requires DiamondPrevs(g) && Bounded(g, DiamondState(9))
    ensures |DiamondState(9).stack| > 0
    ensures Step(g, DiamondState(9)) == DiamondState(10)
  {
    var s := DiamondState(9);
    assert Top(s) == 2;
    PopVisited(g, s);
    DiamondNext10();
  }

  /** What iteration 10 computes from state 9 is state 10. */
  lemma DiamondNext10()
    ensures var s := DiamondState(9);
            (if 2 in s.added then Search(s.stack[..|s.stack| - 1], s.visited, s.added, s.topo)
                                        else Search(s.stack[..|s.stack| - 1], s.visited, s.added + {2}, s.topo + [2])) == DiamondState(10)
  {
  }

  /** Iteration 11 records 3. */
  lemma DiamondIteration11(g: Graph)
    requires DiamondPrevs(g) && Bounded(g, DiamondState(10))
    ensures |DiamondState(10).stack| > 0
    ensures Step(g, DiamondState(10)) == DiamondState(11)
  {
    var s := DiamondState(10);
    assert Top(s) == 3;
    RecordFresh(g, s);
    DiamondNext11();
  }

  /** What iteration 11 computes from state 10 is state 11. */
  lemma DiamondNext11()
    ensures var s := DiamondState(10);
            Search(s.stack[..|s.stack| - 1], s.visited + {3}, s.added + {3}, s.topo + [3]) == DiamondState(11)
  {
  }

  /** Iteration 12 records 4. */
  lemma DiamondIteration12(g: Graph)
    requires DiamondPrevs(g) && Bounded(g, DiamondState(11))
    ensures |DiamondState(11).stack| > 0
    ensures Step(g, DiamondState(11)) == DiamondState(12)
  {
    var s := DiamondState(11);
    assert Top(s) == 4;
    PopVisited(g, s);
    DiamondNext12();
  }

  /** What iteration 12 computes from state 11 is state 12. */
  lemma DiamondNext12()
    ensures var s := DiamondState(11);
            (if 4 in s.added then Search(s.stack[..|s.stack| - 1], s.visited, s.added, s.topo)
                                        else Search(s.stack[..|s.stack| - 1], s.visited, s.added + {4}, s.topo + [4])) == DiamondState(12)
  {
  }

  /** Iteration 13 drops 0, recorded already. */
  lemma DiamondIteration13(g: Graph)
    requires DiamondPrevs(g) && Bounded(g, DiamondState(12))
    ensures |DiamondState(12).stack| > 0
    ensures Step(g, DiamondState(12)) == DiamondState(13)
  {
    var s := DiamondState(12);
    assert Top(s) == 0;
    PopVisited(g, s);
    DiamondNext13();
  }

  /** What iteration 13 computes from state 12 is state 13. */
  lemma DiamondNext13()
    ensures var s := DiamondState(12);
            (if 0 in s.added then Search(s.stack[..|s.stack| - 1], s.visited, s.added, s.topo)
                                        else Search(s.stack[..|s.stack| - 1], s.visited, s.added + {0}, s.topo + [0])) == DiamondState(13)
  {
  }

  /** Iteration 14 records 5. */
  lemma DiamondIteration14(g: Graph)
    requires DiamondPrevs(g) && Bounded(g, DiamondState(13))
    ensures |DiamondState(13).stack| > 0
    ensures Step(g, DiamondState(13)) == DiamondState(14)
  {
    var s := DiamondState(13);
    assert Top(s) == 5;
    PopVisited(g, s);
    DiamondNext14();
  }

  /** What iteration 14 computes from state 13 is state 14. */
  lemma DiamondNext14()
    ensures var s := DiamondState(13);
            (if 5 in s.added then Search(s.stack[..|s.stack| - 1], s.visited, s.added, s.topo)
                                        else Search(s.stack[..|s.stack| - 1], s.visited, s.added + {5}, s.topo + [5])) == DiamondState(14)
  {
  }

  /** Iteration 15 records 9. */
  lemma DiamondIteration15(g: Graph)
    requires DiamondPrevs(g) && Bounded(g, DiamondState(14))
    ensures |DiamondState(14).stack| > 0
    ensures Step(g, DiamondState(14)) == DiamondState(15)
  {
    var s := DiamondState(14);
    assert Top(s) == 9;
    PopVisited(g, s);
    DiamondNext15();
  }

  /** What iteration 15 computes from state 14 is state 15. */
  lemma DiamondNext15()
    ensures var s := DiamondState(14);
            (if 9 in s.added then Search(s.stack[..|s.stack| - 1], s.visited, s.added, s.topo)
                                        else Search(s.stack[..|s.stack| - 1], s.visited, s.added + {9}, s.topo + [9])) == DiamondState(15)
  {
  }

  /** Iteration 16 records 10. */
  lemma DiamondIteration16(g: Graph)
    requires DiamondPrevs(g) && Bounded(g, DiamondState(15))
    ensures |DiamondState(15).stack| > 0
    ensures Step(g, DiamondState(15)) == DiamondState(16)
  {
    var s := DiamondState(15);
    assert Top(s) == 10;
    PopVisited(g, s);
    DiamondNext16();
  }

  /** What iteration 16 computes from state 15 is state 16. */
  lemma DiamondNext16()
    ensures var s := DiamondState(15);
            (if 10 in s.added then Search(s.stack[..|s.stack| - 1], s.visited, s.added, s.topo)
                                        else Search(s.stack[..|s.stack| - 1], s.visited, s.added + {10}, s.topo + [10])) == DiamondState(16)
  {
  }

  /** Iteration 17 expands 8. */
  lemma DiamondIteration17(g: Graph)
    requires DiamondPrevs(g) && Bounded(g, DiamondState(16))
    ensures |DiamondState(16).stack| > 0
    ensures Step(g, DiamondState(16)) == DiamondState(17)
  {
    var s := DiamondState(16);
    assert Top(s) == 8;
    ExpandTwo(g, s, 6, 7);
    DiamondNext17();
  }

  /** What iteration 17 computes from state 16 is state 17. */
  lemma DiamondNext17()
    ensures var s := DiamondState(16);
            Search(s.stack + [7, 6], s.visited + {8}, s.added, s.topo) == DiamondState(17)
  {
  }

  /** Iteration 18 records 6. */
  lemma DiamondIteration18(g: Graph)
    requires DiamondPrevs(g) && Bounded(g, DiamondState(17))
    ensures |DiamondState(17).stack| > 0
    ensures Step(g, DiamondState(17)) == DiamondState(18)
  {
    var s := DiamondState(17);
    assert Top(s) == 6;
    RecordFresh(g, s);
    DiamondNext18();
  }

  /** What iteration 18 computes from state 17 is state 18. */
  lemma DiamondNext18()
    ensures var s := DiamondState(17);
            Search(s.stack[..|s.stack| - 1], s.visited + {6}, s.added + {6}, s.topo + [6]) == DiamondState(18)
  {
  }

  /** Iteration 19 records 7. */
  lemma DiamondIteration19(g: Graph)
    requires DiamondPrevs(g) && Bounded(g, DiamondState(18))
    ensures |DiamondState(18).stack| > 0
    ensures Step(g, DiamondState(18)) == DiamondState(19)
  {
    var s := DiamondState(18);
    assert Top(s) == 7;
    RecordFresh(g, s);
    DiamondNext19();
  }

  /** What iteration 19 computes from state 18 is state 19. */
  lemma DiamondNext19()
    ensures var s := DiamondState(18);
            Search(s.stack[..|s.stack| - 1], s.visited + {7}, s.added + {7}, s.topo + [7]) == DiamondState(19)
  {
  }

  /** Iteration 20 records 8. */
  lemma DiamondIteration20(g: Graph)
    requires DiamondPrevs(g) && Bounded(g, DiamondState(19))
    ensures |DiamondState(19).stack| > 0
    ensures Step(g, DiamondState(19)) == DiamondState(20)
  {
    var s := DiamondState(19);
    assert Top(s) == 8;
    PopVisited(g, s);
    DiamondNext20();
  }

  /** What iteration 20 computes from state 19 is state 20. */
  lemma DiamondNext20()
    ensures var s := DiamondState(19);
            (if 8 in s.added then Search(s.stack[..|s.stack| - 1], s.visited, s.added, s.topo)
                                        else Search(s.stack[..|s.stack| - 1], s.visited, s.added + {8}, s.topo + [8])) == DiamondState(20)
  {
  }

  /** Iteration 21 records 11. */
  lemma DiamondIteration21(g: Graph)
    requires DiamondPrevs(g) && Bounded(g, DiamondState(20))
    ensures |DiamondState(20).stack| > 0
    ensures Step(g, DiamondState(20)) == DiamondState(21)
  {
    var s := DiamondState(20);
    assert Top(s) == 11;
    PopVisited(g, s);
    DiamondNext21();
  }

  /** What iteration 21 computes from state 20 is state 21. */
  lemma DiamondNext21()
    ensures var s := DiamondState(20);
            (if 11 in s.added then Search(s.stack[..|s.stack| - 1], s.visited, s.added, s.topo)
                                        else Search(s.stack[..|s.stack| - 1], s.visited, s.added + {11}, s.topo + [11])) == DiamondState(21)
  {
  }

  /** Iteration 22 records 12. */
  lemma DiamondIteration22(g: Graph)
    requires DiamondPrevs(g) && Bounded(g, DiamondState(21))
    ensures |DiamondState(21).stack| > 0
    ensures Step(g, DiamondState(21)) == DiamondState(22)
  {
    var s := DiamondState(21);
    assert Top(s) == 12;
    RecordFresh(g, s);
    DiamondNext22();
  }

  /** What iteration 22 computes from state 21 is state 22. */
  lemma DiamondNext22()
    ensures var s := DiamondState(21);
            Search(s.stack[..|s.stack| - 1], s.visited + {12}, s.added + {12}, s.topo + [12]) == DiamondState(22)
  {
  }

  /** Iteration 23 records 13. */
  lemma DiamondIteration23(g: Graph)
    requires DiamondPrevs(g) && Bounded(g, DiamondState(22))
    ensures |DiamondState(22).stack| > 0
    ensures Step(g, DiamondState(22)) == DiamondState(23)
  {
    var s := DiamondState(22);
    assert Top(s) == 13;
    PopVisited(g, s);
    DiamondNext23();
  }

  /** What iteration 23 computes from state 22 is state 23. */
  lemma DiamondNext23()
    ensures var s := DiamondState(22);
            (if 13 in s.added then Search(s.stack[..|s.stack| - 1], s.visited, s.added, s.topo)
                                        else Search(s.stack[..|s.stack| - 1], s.visited, s.added + {13}, s.topo + [13])) == DiamondState(23)
  {
  }

  /** Each iteration of the loop on the test's graph. */
  lemma DiamondStep(g: Graph, i: nat)
    requires DiamondPrevs(g) && i < 23 && Bounded(g, DiamondState(i))
    ensures |DiamondState(i).stack| > 0
    ensures Step(g, DiamondState(i)) == DiamondState(i + 1)
  {
    if i == 0 { DiamondIteration1(g); }
    else if i == 1 { DiamondIteration2(g); }
    else if i == 2 { DiamondIteration3(g); }
    else if i == 3 { DiamondIteration4(g); }
    else if i == 4 { DiamondIteration5(g); }
    else if i == 5 { DiamondIteration6(g); }
    else if i == 6 { DiamondIteration7(g); }
    else if i == 7 { DiamondIteration8(g); }
    else if i == 8 { DiamondIteration9(g); }
    else if i == 9 { DiamondIteration10(g); }
    else if i == 10 { DiamondIteration11(g); }
    else if i == 11 { DiamondIteration12(g); }
    else if i == 12 { DiamondIteration13(g); }
    else if i == 13 { DiamondIteration14(g); }
    else if i == 14 { DiamondIteration15(g); }
    else if i == 15 { DiamondIteration16(g); }
    else if i == 16 { DiamondIteration17(g); }
    else if i == 17 { DiamondIteration18(g); }
    else if i == 18 { DiamondIteration19(g); }
    else if i == 19 { DiamondIteration20(g); }
    else if i == 20 { DiamondIteration21(g); }
    else if i == 21 { DiamondIteration22(g); }
    else { DiamondIteration23(g); }
  }
  /** `st(i), ..., st(n)` are the states of consecutive iterations of the loop. */
  predicate Iterates(g: Graph, st: nat -> Search, i: nat, n: nat)
    requires Valid(g)
    decreases n - i
  {
    i >= n || (Bounded(g, st(i)) && |st(i).stack| > 0 && Step(g, st(i)) == st(i + 1) && Iterates(g, st, i + 1, n))
  }

  /** A run through consecutive states that ends with an empty stack ends in the last one. */
  lemma {:induction false} RunThrough(g: Graph, st: nat -> Search, i: nat, n: nat)
    requires Valid(g) && i <= n && Bounded(g, st(i)) && Iterates(g, st, i, n) && |st(n).stack| == 0
    ensures Run(g, st(i)) == st(n)
    decreases n - i
  {
    if i < n {
      RunStep(g, st(i));
      RunThrough(g, st, i + 1, n);
    }
  }

  /** From the state after `i` iterations on, the states above are consecutive. */
  lemma {:induction false} DiamondIterates(g: Graph, i: nat)
    requires DiamondPrevs(g) && i <= 23 && Bounded(g, DiamondState(i))
    ensures Iterates(g, DiamondState, i, 23)
    decreases 23 - i
  {
    if i < 23 {
      DiamondStep(g, i);
      DiamondIterates(g, i + 1);
    }
  }

  /** The last state: the stack is empty and `topo` is complete. */
  lemma DiamondLastState(st: nat -> Search)
    requires st == DiamondState
    ensures |st(23).stack| == 0 && st(23).topo == [0, 1, 2, 3, 4, 5, 9, 10, 6, 7, 8, 11, 12, 13]
  {
  }

  /** The loop from `[y]` ends with that `topo`. */
  lemma DiamondRun(g: Graph, st: nat -> Search)
    requires DiamondPrevs(g) && st == DiamondState
    ensures Bounded(g, st(0)) && Run(g, st(0)).topo == [0, 1, 2, 3, 4, 5, 9, 10, 6, 7, 8, 11, 12, 13]
  {
    DiamondLastState(st);
    DiamondIterates(g, 0);
    RunThrough(g, st, 0, 23);
  }

  /**
   * The search from `y` records x, 2, x*2, 2, x*2+2, z, z*z, h, z*x, relu(z), q, h+q, q*x and
   * y, in that order; so the rules run `relu(z)` before `z*x` and `z*z`.
   */
  lemma DiamondOrder(g: Graph)
    requires DiamondPrevs(g)
    ensures TopoOrder(g, 13) == [0, 1, 2, 3, 4, 5, 9, 10, 6, 7, 8, 11, 12, 13]
  {
    DiamondRun(g, DiamondState);
    assert Start(13) == DiamondState(0);
  }

  /** With the accumulating rules, `y.backward()` gives `x.grad == 46`, the derivative the test expects. */
  lemma DiamondFixed(g: Graph, m: Numerics)
    requires DiamondShape(g) && ExactProducts(m)
    ensures BackwardFixed(g, m, 13)[13].grad == 1.0 && BackwardFixed(g, m, 13)[0].grad == 46.0
  {
    var r := BackwardFixed(g, m, 13);
    DiamondNode(g, m, 13);
    DiamondNode(g, m, 12);
    DiamondNode(g, m, 11);
    DiamondNode(g, m, 10);
    DiamondNode(g, m, 9);
    DiamondNode(g, m, 8);
    DiamondNode(g, m, 7);
    DiamondNode(g, m, 6);
    DiamondNode(g, m, 5);
    DiamondNode(g, m, 4);
    DiamondNode(g, m, 2);
    DiamondNode(g, m, 0);
    DiamondSingleDeltas(g, r, m);
    DiamondXDeltas(g, r, m);
    DiamondZDeltas(g, r, m);
    DiamondQDeltas(g, r, m);
  }

  /** The order the rules run in: `relu(z)` (7) comes before `z*x` (6) and `z*z` (9), `h` (10) before `z*z`. */
  lemma DiamondRuleOrder(g: Graph)
    requires DiamondPrevs(g)
    ensures Reverse(TopoOrder(g, 13)) == [13, 12, 11, 8, 7, 6, 10, 9, 5, 4, 3, 2, 1, 0]
  {
    DiamondOrder(g);
    DiamondReverse(TopoOrder(g, 13));
  }

  /** Reversing the search order, element by element. */
  lemma DiamondReverse(t: seq<nat>)
    requires t == [0, 1, 2, 3, 4, 5, 9, 10, 6, 7, 8, 11, 12, 13]
    ensures Reverse(t) == [13, 12, 11, 8, 7, 6, 10, 9, 5, 4, 3, 2, 1, 0]
  {
    var r := Reverse(t);
    assert r[0] == 13 && r[1] == 12 && r[2] == 11 && r[3] == 8 && r[4] == 7 && r[5] == 6 && r[6] == 10;
    assert r[7] == 9 && r[8] == 5 && r[9] == 4 && r[10] == 3 && r[11] == 2 && r[12] == 1 && r[13] == 0;
  }

  /** Every rule but the two `relu` rules (7 and 10) accumulates. */
  lemma DiamondAccumulates(g: Graph)
    requires DiamondShape(g)
    ensures forall v :: 0 <= v < 14 && v != 7 && v != 10 ==> Accumulates(g[v].op)
    ensures Targets(g[7].op) == [5] && Targets(g[10].op) == [9]
  {
    forall v | 0 <= v < 14 && v != 7 && v != 10 ensures Accumulates(g[v].op) {
      if v < 7 {
        if v == 0 {} else if v == 1 {} else if v == 2 {} else if v == 3 {} else if v == 4 {} else if v == 5 {} else {}
      } else {
        if v == 8 {} else if v == 9 {} else if v == 11 {} else if v == 12 {} else {}
      }
    }
  }

  /** The rule order's positions of the two `relu` nodes. */
  lemma DiamondReluPositions(k: nat)
    requires k < 14
    ensures var o := [13, 12, 11, 8, 7, 6, 10, 9, 5, 4, 3, 2, 1, 0];
            (o[k] == 7 <==> k == 4) && (o[k] == 10 <==> k == 6)
  {
  }

  /** The rules that run before `relu(z)` and `h` do not write to `z` and `z*z` respectively. */
  lemma DiamondReluOperandsUntouched(g: Graph, l: nat)
    requires DiamondShape(g) && l < 6
    ensures var o := [13, 12, 11, 8, 7, 6, 10, 9, 5, 4, 3, 2, 1, 0];
            && 9 !in Targets(g[o[l]].op)
            && (l < 4 ==> 5 !in Targets(g[o[l]].op))
  {
    if l == 0 {} else if l == 1 {} else if l == 2 {} else if l == 3 {} else if l == 4 {} else {}
  }

  /** The facts about the test's graph that the rule order's condition needs. */
  predicate DiamondRelus(g: Graph) {
    && |g| == 14 && g[5].grad == 0.0 && g[9].grad == 0.0
    && (forall v :: 0 <= v < 14 && v != 7 && v != 10 ==> Accumulates(g[v].op))
    && Targets(g[7].op) == [5] && Targets(g[10].op) == [9]
    && forall l :: 0 <= l < 6 ==> var o := [13, 12, 11, 8, 7, 6, 10, 9, 5, 4, 3, 2, 1, 0];
         9 !in Targets(g[o[l]].op) && (l < 4 ==> 5 !in Targets(g[o[l]].op))
  }

  lemma DiamondRelusHold(g: Graph)
    requires DiamondShape(g)
    ensures DiamondRelus(g)
  {
    DiamondAccumulates(g);
    forall l | 0 <= l < 6
      ensures var o := [13, 12, 11, 8, 7, 6, 10, 9, 5, 4, 3, 2, 1, 0];
              9 !in Targets(g[o[l]].op) && (l < 4 ==> 5 !in Targets(g[o[l]].op))
    {
      DiamondReluOperandsUntouched(g, l);
    }
  }

  /**
   * In that order each `relu` rule is the first to write to its operand, whose gradient is
   * still 0: `relu(z)` runs before `z*x` and `z*z` write to `z`, and `h` is `z*z`'s only consumer.
   */
  lemma DiamondOverwritesFirst(g: Graph)
    requires DiamondRelus(g)
    ensures OverwritesFirst(g, [13, 12, 11, 8, 7, 6, 10, 9, 5, 4, 3, 2, 1, 0])
  {
    var o := [13, 12, 11, 8, 7, 6, 10, 9, 5, 4, 3, 2, 1, 0];
    forall k, a | 0 <= k < |o| && !Accumulates(g[o[k]].op) && a in Targets(g[o[k]].op)
      ensures a < |g| && g[a].grad == 0.0 && forall l :: 0 <= l < k ==> a !in Targets(g[o[l]].op)
    {
      DiamondReluPositions(k);
    }
  }

  /**
   * `y.backward()` as written: the `relu` rules overwrite, but each runs before anything else
   * writes to its operand, so the pass agrees with the accumulating one.
   */
  lemma DiamondAsWritten(g: Graph, m: Numerics)
    requires DiamondShape(g)
    ensures BackwardSpec(g, m, 13) == BackwardFixed(g, m, 13)
  {
    DiamondRuleOrder(g);
    DiamondRelusHold(g);
    DiamondOverwritesFirst(g);
    BackwardOverwritesFirst(g, m, 13);
  }

  /**
   * The test's values: `x.data` -4, `y.data` -20, and after `y.backward()` as written
   * `y.grad` 1 and `x.grad` 46, the same as with the accumulating rules.
   */
  lemma DiamondGradient(m: Numerics)
    requires RoundsToFixed8(m) && ExactProducts(m)
    ensures |Diamond(m).graph| == 14 && Diamond(m).id == 13 && Valid(Diamond(m).graph)
    ensures Diamond(m).graph[0].data == -4.0 && Diamond(m).graph[13].data == -20.0
    ensures BackwardSpec(Diamond(m).graph, m, 13)[13].grad == 1.0
    ensures BackwardSpec(Diamond(m).graph, m, 13)[0].grad == 46.0
    ensures BackwardFixed(Diamond(m).graph, m, 13)[0].grad == 46.0
  {
    DiamondBuilds(m);
    DiamondFixed(Diamond(m).graph, m);
    DiamondAsWritten(Diamond(m).graph, m);
  }
}
