/**
 * The graph `relu(x) + x`, worked through the model step by step: the search order, then the
 * rule phase with the overwriting `relu` rule and with the accumulating one.
 */
module Scenarios {
  import opened Precision
  import opened Results
  import opened Engine
  import opened Rules
  import opened Backprop

  /** `x = new Value(1); x.relu().add(x)`: `x` feeds the sum directly and through `relu`. */
  function ReluSkip(m: Numerics): Built
  {
    var x := Constant([], m, 1.0);
    var y := Relu(x.graph, m, x.id);
    Add(y.graph, m, y.id, Ref(x.id))
  }

  /** The graph `ReluSkip` builds, node by node. */
  function ReluSkipGraph(m: Numerics): Graph {
    [ Node(m.round(1.0), 0.0, Leaf, []),
      Node(m.round(if m.round(1.0) < 0.0 then 0.0 else m.round(1.0)), 0.0, ReluOf(0), [0]),
      Node(m.round(m.round(if m.round(1.0) < 0.0 then 0.0 else m.round(1.0)) + m.round(1.0)), 0.0, AddOf(1, 0), [1, 0]) ]
  }

  lemma ReluSkipBuilds(m: Numerics)
    ensures ReluSkip(m) == Built(ReluSkipGraph(m), 2) && Valid(ReluSkipGraph(m))
  {
    var x := Constant([], m, 1.0);
    var y := Relu(x.graph, m, x.id);
    var z := Add(y.graph, m, y.id, Ref(x.id));
    assert z.graph == ReluSkipGraph(m);
  }

  /** The operand lists of the `relu`-skip graph, which are all the search looks at. */
  predicate ReluSkipShape(g: Graph) {
    Valid(g) && |g| == 3 && g[0].prev == [] && g[1].prev == [0] && g[2].prev == [1, 0]
  }

  /** A list none of whose entries is visited is pushed whole. */
  lemma {:induction false} UnvisitedFresh(cs: seq<nat>, visited: set<nat>)
    requires forall k :: 0 <= k < |cs| ==> cs[k] !in visited
    ensures Unvisited(cs, visited) == cs
  {
    if |cs| > 0 {
      UnvisitedFresh(cs[..|cs| - 1], visited);
      assert cs[..|cs| - 1] + [cs[|cs| - 1]] == cs;
    }
  }

  /** The sum's operands, in push order, none of them visited yet. */
  lemma ReluSkipSumChildren(g: Graph)
    requires ReluSkipShape(g)
    ensures Unvisited(Reverse(g[2].prev), {2}) == [0, 1]
  {
    assert Reverse([1, 0]) == [0, 1];
    UnvisitedFresh([0, 1], {2});
  }

  /** Expanding the sum pushes `x` and then the `relu` node. */
  lemma ReluSkipExpandSum(g: Graph)
    requires ReluSkipShape(g)
    ensures Run(g, Search([2], {}, {}, [])) == Run(g, Search([2, 0, 1], {2}, {}, []))
  {
    var s0 := Search([2], {}, {}, []);
    assert s0.visited + {2} == {2};
    ReluSkipSumChildren(g);
    StepExpands(g, s0, [0, 1]);
    RunStep(g, s0);
    assert s0.stack + [0, 1] == [2, 0, 1];
  }

  /** Expanding the `relu` node pushes `x` a second time. */
  lemma ReluSkipExpandRelu(g: Graph)
    requires ReluSkipShape(g)
    ensures Run(g, Search([2, 0, 1], {2}, {}, []))
            == Run(g, Search([2, 0, 1, 0], {1, 2}, {}, []))
  {
    var s1 := Search([2, 0, 1], {2}, {}, []);
    assert Reverse([0]) == [0];
    assert s1.visited + {1} == {1, 2};
    UnvisitedFresh([0], {1, 2});
    StepExpands(g, s1, [0]);
    RunStep(g, s1);
    assert s1.stack + [0] == [2, 0, 1, 0];
  }

  /** `x` has no operands and is recorded; then the `relu` node is popped and recorded. */
  lemma ReluSkipRecord(g: Graph)
    requires ReluSkipShape(g)
    ensures Run(g, Search([2, 0, 1, 0], {1, 2}, {}, []))
            == Run(g, Search([2, 0], {0, 1, 2}, {0, 1}, [0, 1]))
  {
    var s2 := Search([2, 0, 1, 0], {1, 2}, {}, []);
    assert Unvisited(Reverse([]), s2.visited + {0}) == [];
    StepPops(g, s2);
    var s3 := Search(s2.stack[..3], s2.visited + {0}, s2.added + {0}, s2.topo + [0]);
    RunStep(g, s2);
    StepPops(g, s3);
    var s4 := Search(s3.stack[..2], s3.visited + {1}, s3.added + {1}, s3.topo + [1]);
    RunStep(g, s3);
    assert s4 == Search([2, 0], {0, 1, 2}, {0, 1}, [0, 1]);
  }

  /** The second entry of `x` is popped without recording it again; the sum is recorded last. */
  lemma ReluSkipFinish(g: Graph)
    requires ReluSkipShape(g)
    ensures Run(g, Search([2, 0], {0, 1, 2}, {0, 1}, [0, 1])).topo == [0, 1, 2]
  {
    var s4 := Search([2, 0], {0, 1, 2}, {0, 1}, [0, 1]);
    StepPops(g, s4);
    var s5 := Search(s4.stack[..1], s4.visited + {0}, s4.added, s4.topo);
    RunStep(g, s4);
    StepPops(g, s5);
    var s6 := Search(s5.stack[..0], s5.visited + {2}, s5.added + {2}, s5.topo + [2]);
    RunStep(g, s5);
    assert Run(g, s6) == s6;
  }

  /** The search from the sum records `x`, then the `relu` node, then the sum. */
  lemma ReluSkipOrder(m: Numerics)
    ensures Valid(ReluSkipGraph(m)) && TopoOrder(ReluSkipGraph(m), 2) == [0, 1, 2]
  {
    ReluSkipBuilds(m);
    var g := ReluSkipGraph(m);
    ReluSkipExpandSum(g);
    ReluSkipExpandRelu(g);
    ReluSkipRecord(g);
    ReluSkipFinish(g);
  }

  /** The rules as written: the sum gives `x` gradient 1, then the `relu` rule writes 1 over it. */
  lemma ReluSkipAsWritten(m: Numerics)
    requires m.round(1.0) == 1.0 && ExactProducts(m)
    ensures Valid(ReluSkipGraph(m))
    ensures RunRules(Assign(ReluSkipGraph(m), 2, 1.0), m, [2, 1, 0])[0].grad == 1.0
  {
    var g := ReluSkipGraph(m);
    ReluSkipBuilds(m);
    var h0 := Assign(g, 2, 1.0);
    GradsOnlyValid(g, h0);
    var h1 := ApplyRule(h0, m, 2);
    assert h1[1].grad == 1.0;
    var h2 := ApplyRule(h1, m, 1);
    assert h2[0].grad == 1.0;
    assert [2][..0] == [];
    assert RunRules(h0, m, [2]) == h1;
    assert [2, 1][..1] == [2];
    assert RunRules(h0, m, [2, 1]) == h2;
    assert [2, 1, 0][..2] == [2, 1];
    assert RunRules(h0, m, [2, 1, 0]) == ApplyRule(h2, m, 0) == h2;
  }

  /** The corrected rules: the `relu` rule adds its 1 to the 1 the sum gave `x`. */
  lemma ReluSkipCorrected(m: Numerics)
    requires m.round(1.0) == 1.0 && ExactProducts(m)
    ensures Valid(ReluSkipGraph(m))
    ensures RunRulesFixed(Assign(ReluSkipGraph(m), 2, 1.0), m, [2, 1, 0])[0].grad == 2.0
  {
    var g := ReluSkipGraph(m);
    ReluSkipBuilds(m);
    var h0 := Assign(g, 2, 1.0);
    GradsOnlyValid(g, h0);
    var f1 := ApplyRuleFixed(h0, m, 2);
    assert f1[0].grad == 1.0 && f1[1].grad == 1.0;
    var f2 := ApplyRuleFixed(f1, m, 1);
    assert f2[0].grad == 2.0;
    assert [2][..0] == [];
    assert RunRulesFixed(h0, m, [2]) == f1;
    assert [2, 1][..1] == [2];
    assert RunRulesFixed(h0, m, [2, 1]) == f2;
    assert [2, 1, 0][..2] == [2, 1];
    assert RunRulesFixed(h0, m, [2, 1, 0]) == ApplyRuleFixed(f2, m, 0) == f2;
  }

  /**
   * With `relu` overwriting, `x.grad` ends at 1: the sum's contribution is lost when the
   * `relu` rule runs. With the corrected rule it is 2, the derivative of `relu(x) + x` at 1.
   */
  lemma ReluSkipGradients(m: Numerics)
    requires m.round(1.0) == 1.0 && ExactProducts(m)
    ensures Valid(ReluSkip(m).graph)
    ensures BackwardSpec(ReluSkip(m).graph, m, 2)[0].grad == 1.0
    ensures BackwardFixed(ReluSkip(m).graph, m, 2)[0].grad == 2.0
  {
    ReluSkipBuilds(m);
    ReluSkipOrder(m);
    ReluSkipAsWritten(m);
    ReluSkipCorrected(m);
    assert Reverse([0, 1, 2]) == [2] + Reverse([0, 1]) == [2] + ([1] + Reverse([0])) == [2, 1, 0];
  }
}
