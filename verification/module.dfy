/**
 * The `Module` base class: a parameter list (node ids in the arena) and `zeroGrad`,
 * which clears the gradient of every parameter.
 */
module Modules {
  import opened Engine
  import opened Rules

  /** The base `parameters()`: a module with no parameters of its own. */
  function DefaultParameters(): (r: seq<nat>)
    ensures |r| == 0
  {
    []
  }

  predicate ParamsIn(g: Graph, params: seq<nat>) {
    forall k :: 0 <= k < |params| ==> params[k] < |g|
  }

  /** `zeroGrad`: `param.grad = 0` for each parameter, in list order. */
  function ZeroGrad(g: Graph, params: seq<nat>): (r: Graph)
    requires ParamsIn(g, params)
    ensures GradsOnly(g, r)
    ensures forall v :: 0 <= v < |g| ==> r[v].grad == if v in params then 0.0 else g[v].grad
  {
    if |params| == 0 then g
    else
      var h := ZeroGrad(g, params[..|params| - 1]);
      var r := Assign(h, params[|params| - 1], 0.0);
      GradsOnlyTrans(g, h, r);
      assert forall v :: v in params <==> v in params[..|params| - 1] || v == params[|params| - 1] by {
        assert params == params[..|params| - 1] + [params[|params| - 1]];
      }
      r
  }

  /** The whole effect of `zeroGrad`, written as a single update of the arena. */
  function Cleared(g: Graph, params: seq<nat>): Graph {
    seq(|g|, v requires 0 <= v < |g| => if v in params then g[v].(grad := 0.0) else g[v])
  }

  /**
   * `zeroGrad` zeroes exactly the parameters' gradients: the data, ops and operands of every
   * node and the gradient of every other node are as before.
   */
  lemma ZeroGradClears(g: Graph, params: seq<nat>)
    requires ParamsIn(g, params)
    ensures ZeroGrad(g, params) == Cleared(g, params)
  {
    var r := ZeroGrad(g, params);
    forall v | 0 <= v < |g| ensures r[v] == Cleared(g, params)[v] {
      assert r[v] == g[v].(grad := r[v].grad);
    }
  }

  /** A second `zeroGrad` changes nothing. */
  lemma ZeroGradIdempotent(g: Graph, params: seq<nat>)
    requires ParamsIn(g, params)
    ensures ParamsIn(ZeroGrad(g, params), params)
    ensures ZeroGrad(ZeroGrad(g, params), params) == ZeroGrad(g, params)
  {
    var h := ZeroGrad(g, params);
    ZeroGradClears(g, params);
    ZeroGradClears(h, params);
  }

  /** Clearing gradients keeps the arena well formed. */
  lemma ZeroGradValid(g: Graph, params: seq<nat>)
    requires Valid(g) && ParamsIn(g, params)
    ensures Valid(ZeroGrad(g, params))
  {
    GradsOnlyValid(g, ZeroGrad(g, params));
  }
}
