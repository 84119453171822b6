/**
 * The scalar autodiff engine (`Value`): nodes live in an arena, a sequence indexed by node id.
 * Every operand of a node has a smaller id than the node itself, which is how the
 * forward-only construction of the graph makes it acyclic.
 */
module Engine {
  import opened Precision
  import opened Results

  /** The op that produced a node, with exactly what its backward rule reads and writes. */
  datatype Op =
    | Leaf
    | AddOf(a: nat, b: nat)
    | MulOf(a: nat, b: nat)
    | PowOf(base: nat, k: real)
    | ExpOf(arg: nat)
    | LogOf(arg: nat)
    | ReluOf(arg: nat)
    | TanhOf(arg: nat, t: real)              // `t` is the unrounded tanh the rule captured
    | SoftmaxOf(i: nat, inputs: seq<nat>, exps: seq<nat>, sum: nat)

  /** One `Value`: `prev` is the operand set `_prev`, in insertion order without repeats. */
  datatype Node = Node(data: real, grad: real, op: Op, prev: seq<nat>)

  type Graph = seq<Node>

  /** A graph after an operation, with the id of the node the operation returns. */
  datatype Built = Built(graph: Graph, id: nat)

  /** A method argument that may be a `Value` or a plain number (`ensureValue`). */
  datatype Operand = Num(x: real) | Ref(id: nat)

  /** Every node a rule reads or updates precedes the node the rule belongs to. */
  predicate OpOk(op: Op, bound: nat) {
    match op
    case Leaf => true
    case AddOf(a, b) => a < bound && b < bound
    case MulOf(a, b) => a < bound && b < bound
    case PowOf(a, _) => a < bound
    case ExpOf(a) => a < bound
    case LogOf(a) => a < bound
    case ReluOf(a) => a < bound
    case TanhOf(a, _) => a < bound
    case SoftmaxOf(_, inputs, exps, sum) =>
      && |exps| == |inputs| && sum < bound
      && (forall j :: 0 <= j < |inputs| ==> inputs[j] < bound)
      && (forall j :: 0 <= j < |exps| ==> exps[j] < bound)
  }

  predicate NodeOk(n: Node, v: nat) {
    && (forall j :: 0 <= j < |n.prev| ==> n.prev[j] < v)
    && OpOk(n.op, v)
  }

  /** The arena invariant: operands precede the node, so the graph is a DAG. */
  predicate Valid(g: Graph) {
    forall v :: 0 <= v < |g| ==> NodeOk(g[v], v)
  }

  /** `g'` keeps every node of `g` and may append new ones. */
  predicate Extends(g: Graph, g': Graph) {
    |g| <= |g'| && forall v :: 0 <= v < |g| ==> g'[v] == g[v]
  }

  /** Node `u` was appended at or after position `mark`, or is one of `deps`. */
  predicate Within(u: nat, mark: nat, deps: seq<nat>) {
    u >= mark || u in deps
  }

  predicate OperandsWithin(n: Node, mark: nat, deps: seq<nat>) {
    forall j :: 0 <= j < |n.prev| ==> Within(n.prev[j], mark, deps)
  }

  /**
   * The nodes from position `mark` on take their operands from one another or from `deps`:
   * whatever they depend on before `mark` is reached through `deps`.
   */
  predicate Confined(h: Graph, mark: nat, deps: seq<nat>) {
    ConfinedFrom(h, mark, deps, mark)
  }

  /** The nodes from position `i` on draw only on nodes from `mark` on or on `deps`. */
  predicate ConfinedFrom(h: Graph, mark: nat, deps: seq<nat>, i: nat)
    decreases |h| - i
  {
    i >= |h| || (OperandsWithin(h[i], mark, deps) && ConfinedFrom(h, mark, deps, i + 1))
  }

  lemma {:induction false} ConfinedAt(h: Graph, mark: nat, deps: seq<nat>, i: nat, v: nat)
    requires ConfinedFrom(h, mark, deps, i) && i <= v < |h|
    ensures OperandsWithin(h[v], mark, deps)
    decreases v - i
  {
    if i < v {
      ConfinedAt(h, mark, deps, i + 1, v);
    }
  }

  lemma {:induction false} ConfinedIntro(h: Graph, mark: nat, deps: seq<nat>, i: nat)
    requires forall v :: i <= v < |h| ==> OperandsWithin(h[v], mark, deps)
    ensures ConfinedFrom(h, mark, deps, i)
    decreases |h| - i
  {
    if i < |h| {
      ConfinedIntro(h, mark, deps, i + 1);
    }
  }

  predicate OperandOk(g: Graph, o: Operand) {
    o.Ref? ==> o.id < |g|
  }

  /** `new Set([a, b])` in insertion order: the operand set of a binary node. */
  function Operands(a: nat, b: nat): seq<nat> {
    if a == b then [a] else [a, b]
  }

  /** `new Value(data, children, op)`: rounded data, zero gradient. */
  function Append(g: Graph, m: Numerics, data: real, prev: seq<nat>, op: Op): (r: Built)
    requires Valid(g)
    requires forall j :: 0 <= j < |prev| ==> prev[j] < |g|
    requires OpOk(op, |g|)
    ensures Valid(r.graph) && Extends(g, r.graph)
    ensures |r.graph| == |g| + 1 && r.id == |g|
    ensures r.graph[r.id] == Node(m.round(data), 0.0, op, prev)
  {
    Built(g + [Node(m.round(data), 0.0, op, prev)], |g|)
  }

  /** `new Value(x)`: a fresh leaf. */
  function Constant(g: Graph, m: Numerics, x: real): (r: Built)
    requires Valid(g)
    ensures Valid(r.graph) && Extends(g, r.graph)
    ensures |r.graph| == |g| + 1 && r.id == |g|
    ensures r.graph[r.id] == Node(m.round(x), 0.0, Leaf, [])
  {
    Append(g, m, x, [], Leaf)
  }

  /** The id an operand ends up with once `ensureValue` has wrapped it. */
  function Wrapped(g: Graph, o: Operand): nat {
    if o.Ref? then o.id else |g|
  }

  /** The data of an operand once wrapped: a number is rounded like any new node. */
  function OperandData(g: Graph, m: Numerics, o: Operand): real
    requires OperandOk(g, o)
  {
    if o.Ref? then g[o.id].data else m.round(o.x)
  }

  /** `ensureValue`: a `Value` is used as is, a number becomes a fresh leaf. */
  function EnsureValue(g: Graph, m: Numerics, o: Operand): (r: Built)
    requires Valid(g) && OperandOk(g, o)
    ensures Valid(r.graph) && Extends(g, r.graph)
    ensures r.id == Wrapped(g, o) && r.id < |r.graph|
    ensures o.Ref? ==> r.graph == g
    ensures o.Num? ==> |r.graph| == |g| + 1 && r.graph[r.id] == Node(m.round(o.x), 0.0, Leaf, [])
    ensures r.graph[r.id].data == OperandData(g, m, o)
  {
    match o
    case Ref(id) => Built(g, id)
    case Num(x) => Constant(g, m, x)
  }

  /** `a.add(b)`. */
  function Add(g: Graph, m: Numerics, a: nat, b: Operand): (r: Built)
    requires Valid(g) && a < |g| && OperandOk(g, b)
    ensures Valid(r.graph) && Extends(g, r.graph)
    ensures |r.graph| == |g| + (if b.Num? then 2 else 1) && r.id == |r.graph| - 1
    ensures b.Num? ==> r.graph[|g|] == Node(m.round(b.x), 0.0, Leaf, [])
    ensures r.graph[r.id] == Node(m.round(g[a].data + OperandData(g, m, b)), 0.0,
                                  AddOf(a, Wrapped(g, b)), Operands(a, Wrapped(g, b)))
  {
    var o := EnsureValue(g, m, b);
    assert o.graph[a] == g[a];
    Append(o.graph, m, g[a].data + OperandData(g, m, b), Operands(a, o.id), AddOf(a, o.id))
  }

  /** `a.mul(b)`. */
  function Mul(g: Graph, m: Numerics, a: nat, b: Operand): (r: Built)
    requires Valid(g) && a < |g| && OperandOk(g, b)
    ensures Valid(r.graph) && Extends(g, r.graph)
    ensures |r.graph| == |g| + (if b.Num? then 2 else 1) && r.id == |r.graph| - 1
    ensures b.Num? ==> r.graph[|g|] == Node(m.round(b.x), 0.0, Leaf, [])
    ensures r.graph[r.id] == Node(m.round(m.times(g[a].data, OperandData(g, m, b))), 0.0,
                                  MulOf(a, Wrapped(g, b)), Operands(a, Wrapped(g, b)))
  {
    var o := EnsureValue(g, m, b);
    assert o.graph[a] == g[a];
    Append(o.graph, m, m.times(g[a].data, OperandData(g, m, b)), Operands(a, o.id), MulOf(a, o.id))
  }

  /** `add` keeps a confined stretch confined when its operands are within it. */
  lemma AddConfined(g: Graph, m: Numerics, a: nat, b: Operand, mark: nat, deps: seq<nat>)
    requires Valid(g) && a < |g| && OperandOk(g, b) && mark <= |g| && Confined(g, mark, deps)
    requires Within(a, mark, deps) && (b.Ref? ==> Within(b.id, mark, deps))
    ensures Add(g, m, a, b).id >= mark && Confined(Add(g, m, a, b).graph, mark, deps)
  {
    var r := Add(g, m, a, b);
    forall v | mark <= v < |r.graph| ensures OperandsWithin(r.graph[v], mark, deps) {
      if v < |g| {
        ConfinedAt(g, mark, deps, mark, v);
        assert r.graph[v] == g[v];
      }
    }
    ConfinedIntro(r.graph, mark, deps, mark);
  }

  /** `mul` keeps a confined stretch confined when its operands are within it. */
  lemma MulConfined(g: Graph, m: Numerics, a: nat, b: Operand, mark: nat, deps: seq<nat>)
    requires Valid(g) && a < |g| && OperandOk(g, b) && mark <= |g| && Confined(g, mark, deps)
    requires Within(a, mark, deps) && (b.Ref? ==> Within(b.id, mark, deps))
    ensures Mul(g, m, a, b).id >= mark && Confined(Mul(g, m, a, b).graph, mark, deps)
  {
    var r := Mul(g, m, a, b);
    forall v | mark <= v < |r.graph| ensures OperandsWithin(r.graph[v], mark, deps) {
      if v < |g| {
        ConfinedAt(g, mark, deps, mark, v);
        assert r.graph[v] == g[v];
      }
    }
    ConfinedIntro(r.graph, mark, deps, mark);
  }

  /** `a.neg()` is `a.mul(-1)`: a leaf for -1 and a product node, no op of its own. */
  function Neg(g: Graph, m: Numerics, a: nat): (r: Built)
    requires Valid(g) && a < |g|
    ensures Valid(r.graph) && Extends(g, r.graph)
    ensures |r.graph| == |g| + 2 && r.id == |g| + 1
    ensures r.graph[|g|] == Node(m.round(-1.0), 0.0, Leaf, [])
    ensures r.graph[r.id] == Node(m.round(m.times(g[a].data, m.round(-1.0))), 0.0, MulOf(a, |g|), [a, |g|])
  {
    var n := Mul(g, m, a, Num(-1.0));
    assert n.graph[n.id] == Node(m.round(m.times(g[a].data, OperandData(g, m, Num(-1.0)))), 0.0,
                                 MulOf(a, Wrapped(g, Num(-1.0))), Operands(a, Wrapped(g, Num(-1.0))));
    assert m.times(g[a].data, OperandData(g, m, Num(-1.0))) == m.times(g[a].data, m.round(-1.0));
    n
  }

  /** `a.sub(b)` is `a.add(b.neg())`. */
  function Sub(g: Graph, m: Numerics, a: nat, b: Operand): (r: Built)
    requires Valid(g) && a < |g| && OperandOk(g, b)
    ensures Valid(r.graph) && Extends(g, r.graph)
    ensures |r.graph| == |g| + (if b.Num? then 4 else 3) && r.id == |r.graph| - 1
    ensures r.graph[r.id].op == AddOf(a, r.id - 1)
    ensures r.graph[r.id - 1].op == MulOf(Wrapped(g, b), r.id - 2)
    ensures r.graph[r.id - 2] == Node(m.round(-1.0), 0.0, Leaf, [])
    ensures r.graph[r.id].data == m.round(g[a].data + m.round(m.times(OperandData(g, m, b), m.round(-1.0))))
  {
    var o := EnsureValue(g, m, b);
    var n := Neg(o.graph, m, o.id);
    var x := OperandData(g, m, b);
    assert o.graph[o.id].data == x;
    assert n.graph[a] == g[a];
    assert n.graph[n.id].data == m.round(m.times(x, m.round(-1.0)));
    var s := Add(n.graph, m, a, Ref(n.id));
    assert s.graph[s.id] == Node(m.round(n.graph[a].data + OperandData(n.graph, m, Ref(n.id))), 0.0,
                                 AddOf(a, Wrapped(n.graph, Ref(n.id))), Operands(a, Wrapped(n.graph, Ref(n.id))));
    assert s.graph[n.id] == n.graph[n.id] && s.graph[n.id - 1] == n.graph[n.id - 1];
    s
  }

  /** `a.pow(k)`: only a plain number is accepted as the exponent. */
  function Pow(g: Graph, m: Numerics, a: nat, k: Operand): (r: Result<Built>)
    requires Valid(g) && a < |g|
    ensures k.Ref? <==> r == Err(UnsupportedExponent)
    ensures r.Ok? ==> && Valid(r.value.graph) && Extends(g, r.value.graph)
                      && |r.value.graph| == |g| + 1 && r.value.id == |g|
                      && r.value.graph[|g|] == Node(m.round(m.pow(g[a].data, k.x)), 0.0, PowOf(a, k.x), [a])
  {
    match k
    case Ref(_) => Err(UnsupportedExponent)
    case Num(x) => Ok(Append(g, m, m.pow(g[a].data, x), [a], PowOf(a, x)))
  }

  /** `a.div(b)` is `a.mul(b.pow(-1))`. */
  function Div(g: Graph, m: Numerics, a: nat, b: Operand): (r: Built)
    requires Valid(g) && a < |g| && OperandOk(g, b)
    ensures Valid(r.graph) && Extends(g, r.graph)
    ensures |r.graph| == |g| + (if b.Num? then 3 else 2) && r.id == |r.graph| - 1
    ensures r.graph[r.id - 1] == Node(m.round(m.pow(OperandData(g, m, b), -1.0)), 0.0,
                                      PowOf(Wrapped(g, b), -1.0), [Wrapped(g, b)])
    ensures r.graph[r.id].op == MulOf(a, r.id - 1) && r.graph[r.id].prev == [a, r.id - 1]
    ensures r.graph[r.id].data == m.round(m.times(g[a].data, m.round(m.pow(OperandData(g, m, b), -1.0))))
  {
    var o := EnsureValue(g, m, b);
    var p := Pow(o.graph, m, o.id, Num(-1.0)).value;
    assert p.graph[a] == g[a];
    assert p.graph[p.id] == Node(m.round(m.pow(o.graph[o.id].data, -1.0)), 0.0, PowOf(o.id, -1.0), [o.id]);
    var q := Mul(p.graph, m, a, Ref(p.id));
    var y := m.round(m.pow(OperandData(g, m, b), -1.0));
    assert p.graph[p.id].data == y;
    assert q.graph[q.id] == Node(m.round(m.times(p.graph[a].data, OperandData(p.graph, m, Ref(p.id)))), 0.0,
                                 MulOf(a, Wrapped(p.graph, Ref(p.id))), Operands(a, Wrapped(p.graph, Ref(p.id))));
    assert m.times(p.graph[a].data, OperandData(p.graph, m, Ref(p.id))) == m.times(g[a].data, y);
    assert q.graph[p.id] == p.graph[p.id];
    q
  }

  /** `a.exp()`. */
  function Exp(g: Graph, m: Numerics, a: nat): (r: Built)
    requires Valid(g) && a < |g|
    ensures Valid(r.graph) && Extends(g, r.graph) && |r.graph| == |g| + 1 && r.id == |g|
    ensures r.graph[r.id] == Node(m.round(m.exp(g[a].data)), 0.0, ExpOf(a), [a])
  {
    Append(g, m, m.exp(g[a].data), [a], ExpOf(a))
  }

  /** The data `log` takes the logarithm of: a falsy (zero) value is replaced by epsilon. */
  function LogArgument(x: real, epsilon: real): real {
    if x == 0.0 then epsilon else x
  }

  /**
   * `a.log(epsilon)`: overwrites a zero operand's data with epsilon in place, then
   * takes the logarithm of the (possibly overwritten) data.
   */
  function Log(g: Graph, m: Numerics, a: nat, epsilon: real := Epsilon): (r: Built)
    requires Valid(g) && a < |g|
    ensures Valid(r.graph) && |r.graph| == |g| + 1 && r.id == |g|
    ensures r.graph[a] == g[a].(data := LogArgument(g[a].data, epsilon))
    ensures forall v :: 0 <= v < |g| && v != a ==> r.graph[v] == g[v]
    ensures r.graph[r.id] == Node(m.round(m.ln(LogArgument(g[a].data, epsilon))), 0.0, LogOf(a), [a])
  {
    var g1 := g[a := g[a].(data := LogArgument(g[a].data, epsilon))];
    assert Valid(g1) by {
      forall v | 0 <= v < |g1| ensures NodeOk(g1[v], v) {
        assert NodeOk(g[v], v);
      }
    }
    Append(g1, m, m.ln(g1[a].data), [a], LogOf(a))
  }

  /** `a.relu()`. */
  function Relu(g: Graph, m: Numerics, a: nat): (r: Built)
    requires Valid(g) && a < |g|
    ensures Valid(r.graph) && Extends(g, r.graph) && |r.graph| == |g| + 1 && r.id == |g|
    ensures r.graph[r.id] == Node(m.round(if g[a].data < 0.0 then 0.0 else g[a].data), 0.0, ReluOf(a), [a])
  {
    Append(g, m, if g[a].data < 0.0 then 0.0 else g[a].data, [a], ReluOf(a))
  }

  /** `relu` keeps a confined stretch confined when its operand is within it. */
  lemma ReluConfined(g: Graph, m: Numerics, a: nat, mark: nat, deps: seq<nat>)
    requires Valid(g) && a < |g| && mark <= |g| && Confined(g, mark, deps) && Within(a, mark, deps)
    ensures Relu(g, m, a).id >= mark && Confined(Relu(g, m, a).graph, mark, deps)
  {
    var r := Relu(g, m, a);
    forall v | mark <= v < |r.graph| ensures OperandsWithin(r.graph[v], mark, deps) {
      if v < |g| {
        ConfinedAt(g, mark, deps, mark, v);
        assert r.graph[v] == g[v];
      }
    }
    ConfinedIntro(r.graph, mark, deps, mark);
  }

  /** The tanh formula of the source, (e^{2x} - 1) / (e^{2x} + 1). */
  function TanhF(m: Numerics, x: real): real {
    Quot(m.exp(2.0 * x) - 1.0, m.exp(2.0 * x) + 1.0)
  }

  /** `a.tanh()`: the rule keeps the unrounded value. */
  function Tanh(g: Graph, m: Numerics, a: nat): (r: Built)
    requires Valid(g) && a < |g|
    ensures Valid(r.graph) && Extends(g, r.graph) && |r.graph| == |g| + 1 && r.id == |g|
    ensures r.graph[r.id] == Node(m.round(TanhF(m, g[a].data)), 0.0, TanhOf(a, TanhF(m, g[a].data)), [a])
  {
    Append(g, m, TanhF(m, g[a].data), [a], TanhOf(a, TanhF(m, g[a].data)))
  }

  /** `tanh` keeps a confined stretch confined when its operand is within it. */
  lemma TanhConfined(g: Graph, m: Numerics, a: nat, mark: nat, deps: seq<nat>)
    requires Valid(g) && a < |g| && mark <= |g| && Confined(g, mark, deps) && Within(a, mark, deps)
    ensures Tanh(g, m, a).id >= mark && Confined(Tanh(g, m, a).graph, mark, deps)
  {
    var r := Tanh(g, m, a);
    forall v | mark <= v < |r.graph| ensures OperandsWithin(r.graph[v], mark, deps) {
      if v < |g| {
        ConfinedAt(g, mark, deps, mark, v);
        assert r.graph[v] == g[v];
      }
    }
    ConfinedIntro(r.graph, mark, deps, mark);
  }

  /** A graph after an operation that returns several nodes. */
  datatype BuiltMany = BuiltMany(graph: Graph, ids: seq<nat>)

  /** Node `base + j` is `values[j].exp()`. */
  predicate ExpNode(h: Graph, m: Numerics, values: seq<nat>, base: nat, j: nat) {
    && j < |values| && values[j] < |h| && base + j < |h|
    && h[base + j] == Node(m.round(m.exp(h[values[j]].data)), 0.0, ExpOf(values[j]), [values[j]])
  }

  lemma ExpNodesExtend(h: Graph, h': Graph, m: Numerics, values: seq<nat>, base: nat)
    requires Extends(h, h') && forall j :: 0 <= j < |values| ==> ExpNode(h, m, values, base, j)
    ensures forall j :: 0 <= j < |values| ==> ExpNode(h', m, values, base, j)
  {
    forall j | 0 <= j < |values| ensures ExpNode(h', m, values, base, j) {
      assert ExpNode(h, m, values, base, j);
      assert h'[values[j]] == h[values[j]] && h'[base + j] == h[base + j];
    }
  }

  /** `values.map((val) => val.exp())`: one exp node per input, appended in order. */
  function ExpAll(g: Graph, m: Numerics, values: seq<nat>): (r: BuiltMany)
    requires Valid(g) && forall j :: 0 <= j < |values| ==> values[j] < |g|
    ensures Valid(r.graph) && Extends(g, r.graph)
    ensures |r.graph| == |g| + |values| && r.ids == ExpIds(g, values)
    ensures forall j :: 0 <= j < |values| ==> ExpNode(r.graph, m, values, |g|, j)
  {
    if |values| == 0 then BuiltMany(g, [])
    else
      var n := |values| - 1;
      var p := ExpAll(g, m, values[..n]);
      assert p.graph[values[n]] == g[values[n]];
      var e := Exp(p.graph, m, values[n]);
      ExpNodesExtend(p.graph, e.graph, m, values[..n], |g|);
      forall j | 0 <= j < |values| ensures ExpNode(e.graph, m, values, |g|, j) {
        if j < n {
          assert ExpNode(e.graph, m, values[..n], |g|, j) && values[..n][j] == values[j];
        }
      }
      BuiltMany(e.graph, p.ids + [e.id])
  }

  /**
   * The data a left-leaning chain of `add` nodes ends with: `acc`, then `round(previous + x.data)`
   * for each `x` of `xs` in turn.
   */
  function ChainSum(g: Graph, m: Numerics, acc: real, xs: seq<nat>): real
    requires forall j :: 0 <= j < |xs| ==> xs[j] < |g|
  {
    if |xs| == 0 then acc else m.round(ChainSum(g, m, acc, xs[..|xs| - 1]) + g[xs[|xs| - 1]].data)
  }

  lemma {:induction false} ChainSumExtends(g: Graph, g': Graph, m: Numerics, acc: real, xs: seq<nat>)
    requires Extends(g, g') && forall j :: 0 <= j < |xs| ==> xs[j] < |g|
    ensures ChainSum(g', m, acc, xs) == ChainSum(g, m, acc, xs)
  {
    if |xs| > 0 {
      ChainSumExtends(g, g', m, acc, xs[..|xs| - 1]);
      assert g'[xs[|xs| - 1]] == g[xs[|xs| - 1]];
    }
  }

  /** `xs.reduce((a, b) => a.add(b), start)`: a left-leaning chain of `add` nodes. */
  function AddAll(g: Graph, m: Numerics, start: nat, xs: seq<nat>): (r: Built)
    requires Valid(g) && start < |g| && forall j :: 0 <= j < |xs| ==> xs[j] < |g|
    ensures Valid(r.graph) && Extends(g, r.graph) && |r.graph| == |g| + |xs|
    ensures r.id == (if |xs| == 0 then start else |r.graph| - 1)
    ensures r.graph[r.id].data == ChainSum(g, m, g[start].data, xs)
  {
    if |xs| == 0 then Built(g, start)
    else
      var n := |xs| - 1;
      var p := AddAll(g, m, start, xs[..n]);
      var s := Add(p.graph, m, p.id, Ref(xs[n]));
      assert p.graph[xs[n]] == g[xs[n]];
      assert s.graph[s.id].data == m.round(p.graph[p.id].data + p.graph[xs[n]].data);
      s
  }

  /** Replaces the backward rule of an existing node (`out._backward = ...`). */
  function SetOp(g: Graph, v: nat, op: Op): (r: Graph)
    requires Valid(g) && v < |g| && OpOk(op, v)
    ensures Valid(r) && |r| == |g| && r[v] == g[v].(op := op)
    ensures forall u :: 0 <= u < |g| && u != v ==> r[u] == g[u]
  {
    var r := g[v := g[v].(op := op)];
    assert forall u :: 0 <= u < |r| ==> NodeOk(r[u], u) by {
      forall u | 0 <= u < |r| ensures NodeOk(r[u], u) {
        assert NodeOk(g[u], u);
      }
    }
    r
  }

  lemma SoftmaxOpOk(i: nat, values: seq<nat>, exps: seq<nat>, sum: nat, bound: nat)
    requires |exps| == |values| && sum < bound
    requires forall j :: 0 <= j < |exps| ==> exps[j] < bound && values[j] < bound
    ensures OpOk(SoftmaxOf(i, values, exps, sum), bound)
  {
    forall c | c in values + exps + [sum] ensures c < bound {
      assert c in values || c in exps || c == sum;
    }
  }

  /**
   * Output `i` of a softmax whose sum node is `sum` sits at `sum + 2 * i + 2`, right after its
   * own `pow(sum, -1)` node, and carries the joint softmax rule.
   */
  predicate SoftmaxPair(h: Graph, m: Numerics, values: seq<nat>, exps: seq<nat>, sum: nat, i: nat) {
    && i < |exps| && exps[i] < |h| && sum + 2 * i + 2 < |h|
    && h[sum + 2 * i + 1] == Node(m.round(m.pow(h[sum].data, -1.0)), 0.0, PowOf(sum, -1.0), [sum])
    && h[sum + 2 * i + 2] == Node(m.round(m.times(h[exps[i]].data, h[sum + 2 * i + 1].data)), 0.0,
                                  SoftmaxOf(i, values, exps, sum), [exps[i], sum + 2 * i + 1])
  }

  lemma SoftmaxPairExtends(h: Graph, h': Graph, m: Numerics, values: seq<nat>, exps: seq<nat>, sum: nat, i: nat)
    requires Extends(h, h') && SoftmaxPair(h, m, values, exps, sum, i)
    ensures SoftmaxPair(h', m, values, exps, sum, i)
  {
    assert h'[sum] == h[sum] && h'[exps[i]] == h[exps[i]];
    assert h'[sum + 2 * i + 1] == h[sum + 2 * i + 1] && h'[sum + 2 * i + 2] == h[sum + 2 * i + 2];
  }

  /** The callback of `expValues.map`: `expVal.div(sumExpValues)`, then the joint softmax rule replaces its own. */
  function SoftmaxOutput(g: Graph, m: Numerics, values: seq<nat>, exps: seq<nat>, sum: nat, i: nat): (r: Built)
    requires Valid(g) && sum + 2 * i + 1 == |g| && i < |exps| == |values|
    requires forall j :: 0 <= j < |exps| ==> exps[j] < |g| && values[j] < |g|
    ensures Valid(r.graph) && Extends(g, r.graph) && |r.graph| == |g| + 2 && r.id == |g| + 1
    ensures SoftmaxPair(r.graph, m, values, exps, sum, i)
  {
    var d := Div(g, m, exps[i], Ref(sum));
    var y := m.round(m.pow(g[sum].data, -1.0));
    assert d.graph[|g|] == Node(y, 0.0, PowOf(sum, -1.0), [sum]);
    assert d.graph[d.id].data == m.round(m.times(g[exps[i]].data, y));
    SoftmaxOpOk(i, values, exps, sum, d.id);
    var g' := SetOp(d.graph, d.id, SoftmaxOf(i, values, exps, sum));
    assert g'[|g|] == d.graph[|g|] && g'[sum] == g[sum] && g'[exps[i]] == g[exps[i]];
    Built(g', d.id)
  }

  /** Pairs already made survive the next output, which adds its own. */
  lemma SoftmaxPairsSnoc(h: Graph, h': Graph, m: Numerics, values: seq<nat>, exps: seq<nat>, sum: nat, n: nat)
    requires 0 < n && Extends(h, h') && SoftmaxPair(h', m, values, exps, sum, n - 1)
    requires forall i :: 0 <= i < n - 1 ==> SoftmaxPair(h, m, values, exps, sum, i)
    ensures forall i :: 0 <= i < n ==> SoftmaxPair(h', m, values, exps, sum, i)
  {
    forall i | 0 <= i < n - 1 ensures SoftmaxPair(h', m, values, exps, sum, i) {
      SoftmaxPairExtends(h, h', m, values, exps, sum, i);
    }
  }

  /** The outputs for `i` in `[0, n)`, a pow node and an output node each. */
  function SoftmaxOutputs(g: Graph, m: Numerics, values: seq<nat>, exps: seq<nat>, sum: nat, n: nat): (r: Graph)
    requires Valid(g) && sum == |g| - 1 && n <= |exps| == |values|
    requires forall j :: 0 <= j < |exps| ==> exps[j] < |g| && values[j] < |g|
    ensures Valid(r) && Extends(g, r) && |r| == |g| + 2 * n
    ensures forall i :: 0 <= i < n ==> SoftmaxPair(r, m, values, exps, sum, i)
  {
    if n == 0 then g
    else
      var p := SoftmaxOutputs(g, m, values, exps, sum, n - 1);
      var o := SoftmaxOutput(p, m, values, exps, sum, n - 1);
      SoftmaxPairsSnoc(p, o.graph, m, values, exps, sum, n);
      o.graph
  }

  /** Where `Softmax` puts its outputs. */
  function SoftmaxIds(g: Graph, values: seq<nat>): (r: seq<nat>)
    ensures |r| == |values| && forall i :: 0 <= i < |values| ==> r[i] == SumId(g, values) + 2 * i + 2
  {
    seq(|values|, i => SumId(g, values) + 2 * i + 2)
  }

  /** The nodes `Softmax` appends to `g`: exp nodes, the zero leaf and sum chain, pow and output pairs. */
  ghost predicate SoftmaxLaidOut(g: Graph, h: Graph, m: Numerics, values: seq<nat>)
    requires forall j :: 0 <= j < |values| ==> values[j] < |g|
  {
    && Extends(g, h) && |h| == |g| + 4 * |values| + 1
    && (forall j :: 0 <= j < |values| ==> ExpNode(h, m, values, |g|, j))
    && h[SumId(g, values)].data == ChainSum(h, m, m.round(0.0), ExpIds(g, values))
    && (forall i :: 0 <= i < |values| ==> SoftmaxPair(h, m, values, ExpIds(g, values), SumId(g, values), i))
  }

  /**
   * `Value.softmax(values)`: exp nodes, a sum chain starting from a fresh leaf 0, then one
   * division per input whose rule is replaced by the joint softmax rule.
   */
  function Softmax(g: Graph, m: Numerics, values: seq<nat>): (r: BuiltMany)
    requires Valid(g) && forall j :: 0 <= j < |values| ==> values[j] < |g|
    ensures Valid(r.graph) && Extends(g, r.graph) && |r.graph| == |g| + 4 * |values| + 1
    ensures r.ids == SoftmaxIds(g, values)
    ensures forall j :: 0 <= j < |values| ==> ExpNode(r.graph, m, values, |g|, j)
    ensures r.graph[|g| + |values|] == Node(m.round(0.0), 0.0, Leaf, [])
    ensures r.graph[SumId(g, values)].data == ChainSum(r.graph, m, m.round(0.0), ExpIds(g, values))
    ensures forall i :: 0 <= i < |values| ==>
              SoftmaxPair(r.graph, m, values, ExpIds(g, values), SumId(g, values), i)
    ensures SoftmaxLaidOut(g, r.graph, m, values)
  {
    var e := ExpAll(g, m, values);
    var exps := ExpIds(g, values);
    assert e.ids == exps;
    var z := Constant(e.graph, m, 0.0);
    var s := AddAll(z.graph, m, z.id, exps);
    var sum := SumId(g, values);
    assert s.id == sum && sum == |s.graph| - 1;
    var o := SoftmaxOutputs(s.graph, m, values, exps, sum, |values|);
    ChainSumExtends(z.graph, o, m, m.round(0.0), exps);
    assert o[sum] == s.graph[sum];
    assert Extends(e.graph, o);
    ExpNodesExtend(e.graph, o, m, values, |g|);
    assert o[|g| + |values|] == z.graph[z.id];
    BuiltMany(o, SoftmaxIds(g, values))
  }

  /** Where `Softmax` puts the exp nodes. */
  function ExpIds(g: Graph, values: seq<nat>): (r: seq<nat>)
    ensures |r| == |values| && forall j :: 0 <= j < |values| ==> r[j] == |g| + j
  {
    seq(|values|, j => |g| + j)
  }

  /** Where `Softmax` puts the sum node (the leaf 0 itself when there are no inputs). */
  function SumId(g: Graph, values: seq<nat>): nat {
    |g| + 2 * |values|
  }

  /** The exact sum of some reals, left to right. */
  ghost function Total(xs: seq<real>): real {
    if |xs| == 0 then 0.0 else Total(xs[..|xs| - 1]) + xs[|xs| - 1]
  }

  /** The data of the nodes `xs`, in order. */
  function Datas(h: Graph, xs: seq<nat>): (r: seq<real>)
    requires forall j :: 0 <= j < |xs| ==> xs[j] < |h|
    ensures |r| == |xs| && forall j :: 0 <= j < |xs| ==> r[j] == h[xs[j]].data
  {
    seq(|xs|, j requires 0 <= j < |xs| => h[xs[j]].data)
  }

  lemma DatasPrefix(h: Graph, xs: seq<nat>, n: nat)
    requires n <= |xs| && forall j :: 0 <= j < |xs| ==> xs[j] < |h|
    ensures Datas(h, xs[..n]) == Datas(h, xs)[..n]
  {
  }

  /** The exact softmax denominator: the sum of `exp(x.data)` over the inputs. */
  ghost function ExpTotal(g: Graph, m: Numerics, values: seq<nat>): real
    requires forall j :: 0 <= j < |values| ==> values[j] < |g|
  {
    if |values| == 0 then 0.0 else ExpTotal(g, m, values[..|values| - 1]) + m.exp(g[values[|values| - 1]].data)
  }

  /** Without rounding, the `add` chain computes the exact sum. */
  lemma {:induction false} ChainSumExact(h: Graph, m: Numerics, acc: real, xs: seq<nat>)
    requires ExactRounding(m) && forall j :: 0 <= j < |xs| ==> xs[j] < |h|
    ensures ChainSum(h, m, acc, xs) == acc + Total(Datas(h, xs))
  {
    if |xs| > 0 {
      var n := |xs| - 1;
      ChainSumExact(h, m, acc, xs[..n]);
      DatasPrefix(h, xs, n);
    }
  }

  /** The exp nodes of a softmax hold, in total, the exact denominator. */
  lemma {:induction false} ExpNodesTotal(h: Graph, g: Graph, m: Numerics, values: seq<nat>)
    requires ExactRounding(m) && Extends(g, h) && forall j :: 0 <= j < |values| ==> values[j] < |g|
    requires |g| + |values| <= |h| && forall j :: 0 <= j < |values| ==> ExpNode(h, m, values, |g|, j)
    ensures Total(Datas(h, ExpIds(g, values))) == ExpTotal(g, m, values)
  {
    if |values| > 0 {
      var n := |values| - 1;
      forall j | 0 <= j < n ensures ExpNode(h, m, values[..n], |g|, j) {
        assert ExpNode(h, m, values, |g|, j);
      }
      ExpNodesTotal(h, g, m, values[..n]);
      assert ExpIds(g, values)[..n] == ExpIds(g, values[..n]);
      DatasPrefix(h, ExpIds(g, values), n);
      assert ExpNode(h, m, values, |g|, n);
      assert h[values[n]] == g[values[n]];
    }
  }

  /** A sum of `exp` values over a non-empty input is positive. */
  lemma {:induction false} ExpTotalPositive(g: Graph, m: Numerics, values: seq<nat>)
    requires ExpPositive(m) && |values| > 0 && forall j :: 0 <= j < |values| ==> values[j] < |g|
    ensures ExpTotal(g, m, values) > 0.0
  {
    var n := |values| - 1;
    assert m.exp(g[values[n]].data) > 0.0;
    if n > 0 {
      ExpTotalPositive(g, m, values[..n]);
    }
  }

  /** Reals that, times `t`, give others, sum (times `t`) to their sum. */
  lemma {:induction false} TotalTimes(xs: seq<real>, ys: seq<real>, t: real)
    requires |xs| == |ys| && forall j :: 0 <= j < |xs| ==> ys[j] * t == xs[j]
    ensures Total(ys) * t == Total(xs)
  {
    if |xs| > 0 {
      var n := |xs| - 1;
      TotalTimes(xs[..n], ys[..n], t);
    }
  }

  /** Shares of a positive whole sum to 1. */
  lemma SharesSumToOne(xs: seq<real>, ys: seq<real>, t: real)
    requires |xs| == |ys| && forall j :: 0 <= j < |xs| ==> ys[j] * t == xs[j]
    requires Total(xs) == t && t > 0.0
    ensures Total(ys) == 1.0
  {
    TotalTimes(xs, ys, t);
    UnitFactor(Total(ys), Total(xs), t);
  }

  lemma UnitFactor(x: real, s: real, t: real)
    requires x * t == s && s == t && t > 0.0
    ensures x == 1.0
  {
  }

  /** Output `i` of a softmax, without rounding: its exp node times the reciprocal of the sum node. */
  lemma SoftmaxOutputExact(h: Graph, g: Graph, m: Numerics, values: seq<nat>, sum: nat, i: nat)
    requires ExactRounding(m) && ExactProducts(m) && Extends(g, h)
    requires forall j :: 0 <= j < |values| ==> values[j] < |g|
    requires ExpNode(h, m, values, |g|, i) && SoftmaxPair(h, m, values, ExpIds(g, values), sum, i)
    ensures h[sum + 2 * i + 2].data == m.exp(g[values[i]].data) * m.pow(h[sum].data, -1.0)
  {
    assert h[values[i]] == g[values[i]];
  }

  /** `x ** -1` times a positive `x` is 1. */
  lemma PowInverse(m: Numerics, x: real)
    requires PowReciprocal(m) && x > 0.0
    ensures m.pow(x, -1.0) * x == 1.0
  {
  }

  /** Multiplying by the reciprocal of `t` divides by `t`. */
  lemma Reciprocal(e: real, p: real, t: real)
    requires p * t == 1.0
    ensures t != 0.0 && e * p == e / t && e * p * t == e
  {
  }

  /** Without rounding, the sum node of a softmax holds the exact denominator. */
  lemma {:induction false} SoftmaxSumExact(g: Graph, h: Graph, m: Numerics, values: seq<nat>)
    requires forall j :: 0 <= j < |values| ==> values[j] < |g|
    requires SoftmaxLaidOut(g, h, m, values) && ExactRounding(m)
    ensures h[SumId(g, values)].data == ExpTotal(g, m, values)
    ensures Total(Datas(h, ExpIds(g, values))) == ExpTotal(g, m, values)
  {
    ChainSumExact(h, m, m.round(0.0), ExpIds(g, values));
    ExpNodesTotal(h, g, m, values);
  }

  /** Without rounding, each softmax output times the sum `total` is its exp node. */
  lemma {:induction false} SoftmaxOutputsScaled(g: Graph, h: Graph, m: Numerics, values: seq<nat>, total: real)
    requires forall j :: 0 <= j < |values| ==> values[j] < |g|
    requires SoftmaxLaidOut(g, h, m, values) && ExactRounding(m) && ExactProducts(m)
    requires h[SumId(g, values)].data == total && m.pow(total, -1.0) * total == 1.0
    ensures forall i :: 0 <= i < |values| ==> h[SoftmaxIds(g, values)[i]].data * total == h[ExpIds(g, values)[i]].data
    ensures forall i :: 0 <= i < |values| ==>
              total != 0.0 && h[SoftmaxIds(g, values)[i]].data == m.exp(g[values[i]].data) / total
  {
    forall i | 0 <= i < |values|
      ensures h[SoftmaxIds(g, values)[i]].data * total == h[ExpIds(g, values)[i]].data
      ensures total != 0.0 && h[SoftmaxIds(g, values)[i]].data == m.exp(g[values[i]].data) / total
    {
      SoftmaxOutputExact(h, g, m, values, SumId(g, values), i);
      assert h[values[i]] == g[values[i]];
      Reciprocal(m.exp(g[values[i]].data), m.pow(total, -1.0), total);
    }
  }

  lemma ReciprocalOfEqual(m: Numerics, a: real, b: real)
    requires a == b && m.pow(b, -1.0) * b == 1.0
    ensures m.pow(a, -1.0) * a == 1.0
  {
  }

  /** Each output of a softmax is its input's `exp` divided by the sum node. */
  lemma {:induction false} SoftmaxOutputsShare(g: Graph, h: Graph, m: Numerics, values: seq<nat>)
    requires forall j :: 0 <= j < |values| ==> values[j] < |g|
    requires SoftmaxLaidOut(g, h, m, values)
    requires ExactRounding(m) && ExactProducts(m) && ExpPositive(m)
    requires |values| > 0 ==> m.pow(ExpTotal(g, m, values), -1.0) * ExpTotal(g, m, values) == 1.0
    ensures forall i :: 0 <= i < |values| ==>
              h[SumId(g, values)].data > 0.0 &&
              h[SoftmaxIds(g, values)[i]].data == m.exp(g[values[i]].data) / h[SumId(g, values)].data
  {
    if |values| > 0 {
      SoftmaxSumExact(g, h, m, values);
      ExpTotalPositive(g, m, values);
      ReciprocalOfEqual(m, h[SumId(g, values)].data, ExpTotal(g, m, values));
      SoftmaxOutputsScaled(g, h, m, values, h[SumId(g, values)].data);
    }
  }

  /** The outputs of a softmax sum to 1. */
  lemma {:induction false} SoftmaxOutputsTotal(g: Graph, h: Graph, m: Numerics, values: seq<nat>)
    requires forall j :: 0 <= j < |values| ==> values[j] < |g|
    requires SoftmaxLaidOut(g, h, m, values)
    requires ExactRounding(m) && ExactProducts(m) && ExpPositive(m)
    requires |values| > 0 ==> m.pow(ExpTotal(g, m, values), -1.0) * ExpTotal(g, m, values) == 1.0
    ensures Total(Datas(h, SoftmaxIds(g, values))) == if |values| == 0 then 0.0 else 1.0
  {
    if |values| > 0 {
      var total := h[SumId(g, values)].data;
      SoftmaxSumExact(g, h, m, values);
      ExpTotalPositive(g, m, values);
      ReciprocalOfEqual(m, total, ExpTotal(g, m, values));
      SoftmaxOutputsScaled(g, h, m, values, total);
      NodeSharesTotal(h, ExpIds(g, values), SoftmaxIds(g, values), total);
    }
  }

  /** Nodes holding shares of a positive `t` that nodes summing to `t` make up sum to 1. */
  lemma NodeSharesTotal(h: Graph, xs: seq<nat>, ys: seq<nat>, t: real)
    requires |xs| == |ys| && forall j :: 0 <= j < |xs| ==> xs[j] < |h| && ys[j] < |h|
    requires forall j :: 0 <= j < |xs| ==> h[ys[j]].data * t == h[xs[j]].data
    requires Total(Datas(h, xs)) == t && t > 0.0
    ensures Total(Datas(h, ys)) == 1.0
  {
    SharesSumToOne(Datas(h, xs), Datas(h, ys), t);
  }

  /**
   * Without rounding and with exact products, with positive `exp` values and with `x ** -1` the
   * reciprocal of their sum, the sum node of a softmax holds `sum_j exp(x_j)`, output `i` is
   * `exp(x_i)` divided by it, and the outputs sum to 1 (to 0 when there are no inputs).
   */
  lemma {:induction false} SoftmaxNormalisedAt(g: Graph, h: Graph, m: Numerics, values: seq<nat>)
    requires forall j :: 0 <= j < |values| ==> values[j] < |g|
    requires SoftmaxLaidOut(g, h, m, values)
    requires ExactRounding(m) && ExactProducts(m) && ExpPositive(m)
    requires |values| > 0 ==> m.pow(ExpTotal(g, m, values), -1.0) * ExpTotal(g, m, values) == 1.0
    ensures h[SumId(g, values)].data == ExpTotal(g, m, values)
    ensures forall i :: 0 <= i < |values| ==>
              h[SumId(g, values)].data > 0.0 &&
              h[SoftmaxIds(g, values)[i]].data == m.exp(g[values[i]].data) / h[SumId(g, values)].data
    ensures Total(Datas(h, SoftmaxIds(g, values))) == if |values| == 0 then 0.0 else 1.0
  {
    SoftmaxSumExact(g, h, m, values);
    SoftmaxOutputsShare(g, h, m, values);
    SoftmaxOutputsTotal(g, h, m, values);
  }

  /**
   * `SoftmaxNormalisedAt` under the whole-domain assumptions on `exp` and `x ** -1`; `Softmax`
   * lays its graph out as `SoftmaxLaidOut` describes.
   */
  lemma {:induction false} SoftmaxNormalised(g: Graph, h: Graph, m: Numerics, values: seq<nat>)
    requires forall j :: 0 <= j < |values| ==> values[j] < |g|
    requires SoftmaxLaidOut(g, h, m, values)
    requires ExactRounding(m) && ExactProducts(m) && ExpPositive(m) && PowReciprocal(m)
    ensures h[SumId(g, values)].data == ExpTotal(g, m, values)
    ensures forall i :: 0 <= i < |values| ==>
              h[SumId(g, values)].data > 0.0 &&
              h[SoftmaxIds(g, values)[i]].data == m.exp(g[values[i]].data) / h[SumId(g, values)].data
    ensures Total(Datas(h, SoftmaxIds(g, values))) == if |values| == 0 then 0.0 else 1.0
  {
    if |values| > 0 {
      ExpTotalPositive(g, m, values);
      PowInverse(m, ExpTotal(g, m, values));
    }
    SoftmaxNormalisedAt(g, h, m, values);
  }
}
