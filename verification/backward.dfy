/**
 * `Value.backward()`: an iterative depth-first search from the output builds a topological
 * order of every node the output depends on, then the output's gradient is set to 1 and
 * the rules run in reverse topological order.
 */
module Backprop {
  import opened Precision
  import opened Engine
  import opened Rules

  // ---------------------------------------------------------------------------------------
  // What the output depends on
  // ---------------------------------------------------------------------------------------

  /** The nodes reachable from `v` through `_prev` links, `v` included. */
  function Reachable(g: Graph, v: nat): (r: set<nat>)
    requires Valid(g) && v < |g|
    ensures v in r && forall u :: u in r ==> u <= v
    decreases v, 1, 0
  {
    assert NodeOk(g[v], v);
    {v} + ReachableFrom(g, g[v].prev, v)
  }

  /** The nodes reachable from any of `xs`. */
  function ReachableFrom(g: Graph, xs: seq<nat>, bound: nat): (r: set<nat>)
    requires Valid(g) && bound <= |g| && forall j :: 0 <= j < |xs| ==> xs[j] < bound
    ensures forall u :: u in r ==> u < bound
    decreases bound, 0, |xs|
  {
    if |xs| == 0 then {} else Reachable(g, xs[0]) + ReachableFrom(g, xs[1..], bound)
  }

  /** `s` contains the operands of each of its nodes. */
  predicate Closed(g: Graph, s: set<nat>) {
    forall u :: u in s ==> u < |g| && forall j :: 0 <= j < |g[u].prev| ==> g[u].prev[j] in s
  }

  lemma {:induction false} ReachableFromCovers(g: Graph, xs: seq<nat>, bound: nat, j: nat)
    requires Valid(g) && bound <= |g| && forall j :: 0 <= j < |xs| ==> xs[j] < bound
    requires j < |xs|
    ensures Reachable(g, xs[j]) <= ReachableFrom(g, xs, bound)
    decreases |xs|
  {
    if j > 0 {
      ReachableFromCovers(g, xs[1..], bound, j - 1);
    }
  }

  lemma {:induction false} ReachableFromWitness(g: Graph, xs: seq<nat>, bound: nat, u: nat)
    requires Valid(g) && bound <= |g| && forall j :: 0 <= j < |xs| ==> xs[j] < bound
    requires u in ReachableFrom(g, xs, bound)
    ensures exists j :: 0 <= j < |xs| && u in Reachable(g, xs[j])
    decreases |xs|
  {
    if u !in Reachable(g, xs[0]) {
      ReachableFromWitness(g, xs[1..], bound, u);
      var j :| 0 <= j < |xs[1..]| && u in Reachable(g, xs[1..][j]);
      assert u in Reachable(g, xs[j + 1]);
    }
  }

  /** Reachability is transitive. */
  lemma {:induction false} ReachableTransitive(g: Graph, v: nat, u: nat)
    requires Valid(g) && v < |g| && u in Reachable(g, v)
    ensures u < |g| && Reachable(g, u) <= Reachable(g, v)
    decreases v
  {
    if u != v {
      assert NodeOk(g[v], v);
      ReachableFromWitness(g, g[v].prev, v, u);
      var j :| 0 <= j < |g[v].prev| && u in Reachable(g, g[v].prev[j]);
      ReachableTransitive(g, g[v].prev[j], u);
      ReachableFromCovers(g, g[v].prev, v, j);
    }
  }

  /** The nodes reachable from `v` form a closed set. */
  lemma ReachableClosed(g: Graph, v: nat)
    requires Valid(g) && v < |g|
    ensures Closed(g, Reachable(g, v))
  {
    forall u, j | u in Reachable(g, v) && 0 <= j < |g[u].prev|
      ensures g[u].prev[j] in Reachable(g, v)
    {
      ReachableTransitive(g, v, u);
      assert NodeOk(g[u], u);
      ReachableFromCovers(g, g[u].prev, u, j);
    }
  }

  /** ... and the least one containing `v`. */
  lemma {:induction false} ReachableLeast(g: Graph, v: nat, s: set<nat>)
    requires Valid(g) && v < |g| && Closed(g, s) && v in s
    ensures Reachable(g, v) <= s
    decreases v
  {
    assert NodeOk(g[v], v);
    forall u | u in ReachableFrom(g, g[v].prev, v) ensures u in s {
      ReachableFromWitness(g, g[v].prev, v, u);
      var j :| 0 <= j < |g[v].prev| && u in Reachable(g, g[v].prev[j]);
      ReachableLeast(g, g[v].prev[j], s);
    }
  }

  /** The nodes `deps` are leaves of `g`: values made by `new Value`, with no operands. */
  predicate Leaves(g: Graph, deps: seq<nat>) {
    forall i :: 0 <= i < |deps| ==> deps[i] < |g| && g[deps[i]].prev == []
  }

  /**
   * When the nodes from `mark` on draw only on one another and on the leaves `deps`, the
   * search from such a node finds nothing before `mark` but those leaves.
   */
  lemma ConfinedReach(g: Graph, mark: nat, deps: seq<nat>, v: nat)
    requires Valid(g) && v < |g| && Within(v, mark, deps) && Confined(g, mark, deps) && Leaves(g, deps)
    ensures forall u :: u in Reachable(g, v) ==> Within(u, mark, deps)
  {
    var s := set u | 0 <= u < |g| && Within(u, mark, deps);
    forall u | u in s ensures forall j :: 0 <= j < |g[u].prev| ==> g[u].prev[j] in s {
      if u >= mark {
        ConfinedAt(g, mark, deps, mark, u);
        assert NodeOk(g[u], u);
      }
    }
    ReachableLeast(g, v, s);
  }

  // ---------------------------------------------------------------------------------------
  // The search, one iteration of the `while` loop at a time
  // ---------------------------------------------------------------------------------------

  /** `Array.from(xs).reverse()`. */
  function Reverse(xs: seq<nat>): (r: seq<nat>)
    ensures |r| == |xs| && forall i :: 0 <= i < |xs| ==> r[i] == xs[|xs| - 1 - i]
  {
    if |xs| == 0 then [] else [xs[|xs| - 1]] + Reverse(xs[..|xs| - 1])
  }

  /** The children the `forEach` pushes, in push order: those not visited yet. */
  function Unvisited(cs: seq<nat>, visited: set<nat>): (r: seq<nat>)
    ensures forall x :: x in r <==> x in cs && x !in visited
  {
    if |cs| == 0 then []
    else Unvisited(cs[..|cs| - 1], visited) + (if cs[|cs| - 1] in visited then [] else [cs[|cs| - 1]])
  }

  /** Every child the `forEach` pushes is an operand of `node`, so precedes it. */
  lemma PushedBelow(g: Graph, node: nat, visited: set<nat>)
    requires Valid(g) && node < |g|
    ensures forall k :: 0 <= k < |Unvisited(Reverse(g[node].prev), visited)| ==>
              Unvisited(Reverse(g[node].prev), visited)[k] < node
  {
    assert NodeOk(g[node], node);
    var cs := Reverse(g[node].prev);
    var pushed := Unvisited(cs, visited);
    forall k | 0 <= k < |pushed| ensures pushed[k] < node {
      assert pushed[k] in cs;
      var i :| 0 <= i < |cs| && cs[i] == pushed[k];
      assert cs[i] == g[node].prev[|cs| - 1 - i];
    }
  }

  /** The state of the loop: `stack`, `visited`, `addedToTopo` and `topo`. */
  datatype Search = Search(stack: seq<nat>, visited: set<nat>, added: set<nat>, topo: seq<nat>)

  predicate Bounded(g: Graph, s: Search) {
    && (forall k :: 0 <= k < |s.stack| ==> s.stack[k] < |g|)
    && (forall x :: x in s.visited ==> x < |g|)
  }

  /** A set of naturals below `n` has at most `n` elements. */
  lemma {:induction false} BoundedCard(s: set<nat>, n: nat)
    requires forall x :: x in s ==> x < n
    ensures |s| <= n
  {
    if n > 0 {
      var s' := s - {n - 1};
      BoundedCard(s', n - 1);
      assert s <= s' + {n - 1};
    } else {
      assert s == {};
    }
  }

  /** Pops `node` and appends it to `topo` unless it is there already. */
  function Record(s: Search, node: nat, stack: seq<nat>, visited: set<nat>): Search {
    if node in s.added then Search(stack, visited, s.added, s.topo)
    else Search(stack, visited, s.added + {node}, s.topo + [node])
  }

  /** One iteration of the loop. */
  function Step(g: Graph, s: Search): (r: Search)
    requires Valid(g) && Bounded(g, s) && |s.stack| > 0
    ensures Bounded(g, r)
    ensures |s.visited| < |r.visited| || (r.visited == s.visited && |r.stack| < |s.stack|)
  {
    var node := s.stack[|s.stack| - 1];
    var pop := s.stack[..|s.stack| - 1];
    if node !in s.visited then
      var visited := s.visited + {node};
      assert NodeOk(g[node], node);
      var pushed := Unvisited(Reverse(g[node].prev), visited);
      if |pushed| == 0 then Record(s, node, pop, visited)
      else
        PushedBelow(g, node, visited);
        Search(s.stack + pushed, visited, s.added, s.topo)
    else Record(s, node, pop, s.visited)
  }

  /** The loop run to completion. */
  function Run(g: Graph, s: Search): (r: Search)
    requires Valid(g) && Bounded(g, s)
    ensures |r.stack| == 0
    decreases |g| - |s.visited|, |s.stack|
  {
    BoundedCard(s.visited, |g|);
    if |s.stack| == 0 then s
    else
      var s' := Step(g, s);
      BoundedCard(s'.visited, |g|);
      Run(g, s')
  }

  function Start(root: nat): Search {
    Search([root], {}, {}, [])
  }

  /**
   * The `topo` array `backward` builds from `root`: every node `root` depends on, once, each
   * after its operands, `root` last.
   */
  function TopoOrder(g: Graph, root: nat): (t: seq<nat>)
    requires Valid(g) && root < |g|
    ensures Distinct(t) && Topological(g, t)
    ensures forall x :: x in t <==> x in Reachable(g, root)
    ensures |t| > 0 && t[|t| - 1] == root
  {
    InvStart(g, root);
    RunInv(g, root, Start(root), [false]);
    Run(g, Start(root)).topo
  }

  // ---------------------------------------------------------------------------------------
  // Why the search yields a topological order of everything reachable
  // ---------------------------------------------------------------------------------------

  /** No element occurs twice. */
  predicate Distinct(xs: seq<nat>) {
    forall i, j :: 0 <= i < j < |xs| ==> xs[i] != xs[j]
  }

  /** All operands of node `v` belong to `s`. */
  predicate OperandsIn(g: Graph, v: nat, s: set<nat>)
    requires v < |g|
  {
    forall j :: 0 <= j < |g[v].prev| ==> g[v].prev[j] in s
  }

  /** Every node of `order` comes after all of its operands. */
  predicate Topological(g: Graph, order: seq<nat>) {
    forall i :: 0 <= i < |order| ==>
      order[i] < |g| && forall j :: 0 <= j < |g[order[i]].prev| ==> g[order[i]].prev[j] in order[..i]
  }

  /** The root stays at the bottom of the stack, below earlier nodes only, and is recorded last. */
  predicate Rooted(root: nat, s: Search) {
    && (|s.stack| > 0 ==>
          s.stack[0] == root && root !in s.added && forall l :: 0 < l < |s.stack| ==> s.stack[l] < root)
    && (|s.stack| == 0 ==> |s.topo| > 0 && s.topo[|s.topo| - 1] == root)
  }

  /** Everything the search touches is reachable from the root; `topo` lists `addedToTopo` once each. */
  ghost predicate Sound(g: Graph, root: nat, s: Search)
    requires Valid(g) && root < |g|
  {
    && (forall k :: 0 <= k < |s.stack| ==> s.stack[k] in Reachable(g, root))
    && s.visited <= Reachable(g, root)
    && s.added <= s.visited
    && (forall x :: x in s.topo <==> x in s.added)
    && Distinct(s.topo)
  }

  // `mark[k]` flags the stack entry at which its node was expanded (a ghost companion of the
  // stack); the next four predicates say what the flags guarantee.

  /** A flagged node is visited but not recorded. */
  predicate Flagged(s: Search, mark: seq<bool>)
    requires |mark| == |s.stack|
  {
    forall k :: 0 <= k < |s.stack| && mark[k] ==> s.stack[k] in s.visited && s.stack[k] !in s.added
  }

  /** Each visited, unrecorded node has a flagged entry. */
  ghost predicate Covered(s: Search, mark: seq<bool>)
    requires |mark| == |s.stack|
  {
    forall x :: x in s.visited && x !in s.added ==> exists k :: 0 <= k < |s.stack| && mark[k] && s.stack[k] == x
  }

  /** Every entry above a flagged one is an earlier node. */
  predicate Descending(s: Search, mark: seq<bool>)
    requires |mark| == |s.stack|
  {
    forall k, l :: 0 <= k < l < |s.stack| && mark[k] ==> s.stack[l] < s.stack[k]
  }

  /** Each operand of a flagged node is recorded or still waiting above it on the stack. */
  ghost predicate Pending(g: Graph, s: Search, mark: seq<bool>)
    requires Bounded(g, s) && |mark| == |s.stack|
  {
    forall k, j :: 0 <= k < |s.stack| && mark[k] && 0 <= j < |g[s.stack[k]].prev| ==>
      || g[s.stack[k]].prev[j] in s.added
      || exists l :: k < l < |s.stack| && s.stack[l] == g[s.stack[k]].prev[j]
  }

  /** The loop invariant of the search from `root`. */
  ghost predicate Inv(g: Graph, root: nat, s: Search, mark: seq<bool>)
    requires Valid(g)
  {
    && root < |g| && Bounded(g, s) && |mark| == |s.stack|
    && Rooted(root, s) && Sound(g, root, s) && Topological(g, s.topo)
    && Flagged(s, mark) && Covered(s, mark) && Descending(s, mark) && Pending(g, s, mark)
  }

  /** The flags after one iteration: an expanded node's entry is flagged, a popped one is dropped. */
  ghost function StepMark(g: Graph, s: Search, mark: seq<bool>): seq<bool>
    requires Valid(g) && Bounded(g, s) && |s.stack| > 0 && |mark| == |s.stack|
  {
    var top := |s.stack| - 1;
    var node := s.stack[top];
    var pushed := Unvisited(Reverse(g[node].prev), s.visited + {node});
    if node !in s.visited && |pushed| > 0 then Flag(mark, |pushed|) else mark[..top]
  }

  /** The top entry flagged and `n` unflagged entries above it. */
  ghost function Flag(mark: seq<bool>, n: nat): seq<bool>
    requires |mark| > 0
  {
    mark[|mark| - 1 := true] + seq(n, _ => false)
  }

  lemma InvStart(g: Graph, root: nat)
    requires Valid(g) && root < |g|
    ensures Inv(g, root, Start(root), [false])
  {
  }

  /** The operands `node` pushes are earlier nodes reachable from it; the rest were visited. */
  lemma PushedChildren(g: Graph, node: nat, visited: set<nat>)
    requires Valid(g) && node < |g|
    ensures forall k :: 0 <= k < |Unvisited(Reverse(g[node].prev), visited)| ==>
              && Unvisited(Reverse(g[node].prev), visited)[k] < node
              && Unvisited(Reverse(g[node].prev), visited)[k] in Reachable(g, node)
    ensures forall j :: 0 <= j < |g[node].prev| ==>
              g[node].prev[j] in visited || g[node].prev[j] in Unvisited(Reverse(g[node].prev), visited)
  {
    assert NodeOk(g[node], node);
    var prev := g[node].prev;
    var cs := Reverse(prev);
    var pushed := Unvisited(cs, visited);
    forall k | 0 <= k < |pushed| ensures pushed[k] < node && pushed[k] in Reachable(g, node) {
      assert pushed[k] in cs;
      var i :| 0 <= i < |cs| && cs[i] == pushed[k];
      var j := |cs| - 1 - i;
      assert cs[i] == prev[j];
      ReachableFromCovers(g, prev, node, j);
    }
    forall j | 0 <= j < |prev| ensures prev[j] in visited || prev[j] in pushed {
      assert cs[|cs| - 1 - j] == prev[j];
    }
  }

  /** A visited node earlier than the top one has been recorded already. */
  lemma VisitedBelowTopRecorded(s: Search, mark: seq<bool>, c: nat)
    requires |mark| == |s.stack| > 0 && Covered(s, mark) && Descending(s, mark)
    requires c in s.visited && c < s.stack[|s.stack| - 1]
    ensures c in s.added
  {
    var top := |s.stack| - 1;
    forall k | 0 <= k < |s.stack| && mark[k] ensures s.stack[k] != c {
      if k < top {
        assert s.stack[top] < s.stack[k];
      }
    }
  }

  /**
   * When the top node is expanded, each of its operands is recorded already or is pushed now:
   * a visited, unrecorded operand would have a flagged entry below the top that is smaller
   * than the top node.
   */
  lemma OperandsAwaited(g: Graph, s: Search, mark: seq<bool>, node: nat)
    requires Valid(g) && |mark| == |s.stack| > 0 && Covered(s, mark) && Descending(s, mark)
    requires node == s.stack[|s.stack| - 1] && node < |g|
    ensures forall j :: 0 <= j < |g[node].prev| ==>
              g[node].prev[j] in s.added || g[node].prev[j] in Unvisited(Reverse(g[node].prev), s.visited + {node})
  {
    var visited := s.visited + {node};
    PushedChildren(g, node, visited);
    assert NodeOk(g[node], node);
    forall j | 0 <= j < |g[node].prev| && g[node].prev[j] in visited ensures g[node].prev[j] in s.added {
      VisitedBelowTopRecorded(s, mark, g[node].prev[j]);
    }
  }

  // --- the iteration that expands the top node and pushes some of its operands ---

  lemma ExpandRooted(root: nat, s: Search, pushed: seq<nat>)
    requires Rooted(root, s) && |s.stack| > 0
    requires forall k :: 0 <= k < |pushed| ==> pushed[k] < s.stack[|s.stack| - 1]
    ensures Rooted(root, Search(s.stack + pushed, s.visited + {s.stack[|s.stack| - 1]}, s.added, s.topo))
  {
    var node := s.stack[|s.stack| - 1];
    assert node <= root;
  }

  lemma ExpandSound(g: Graph, root: nat, s: Search, pushed: seq<nat>)
    requires Valid(g) && root < |g| && Sound(g, root, s) && |s.stack| > 0
    requires forall k :: 0 <= k < |pushed| ==> pushed[k] in Reachable(g, root)
    ensures Sound(g, root, Search(s.stack + pushed, s.visited + {s.stack[|s.stack| - 1]}, s.added, s.topo))
  {
  }

  lemma ExpandFlagged(s: Search, mark: seq<bool>, pushed: seq<nat>)
    requires |mark| == |s.stack| > 0 && Flagged(s, mark) && s.stack[|s.stack| - 1] !in s.added
    ensures Flagged(Search(s.stack + pushed, s.visited + {s.stack[|s.stack| - 1]}, s.added, s.topo),
                    Flag(mark, |pushed|))
  {
  }

  lemma ExpandCovered(s: Search, mark: seq<bool>, pushed: seq<nat>)
    requires |mark| == |s.stack| > 0 && Covered(s, mark)
    ensures Covered(Search(s.stack + pushed, s.visited + {s.stack[|s.stack| - 1]}, s.added, s.topo),
                    Flag(mark, |pushed|))
  {
    var top := |s.stack| - 1;
    var s' := Search(s.stack + pushed, s.visited + {s.stack[top]}, s.added, s.topo);
    var mark' := Flag(mark, |pushed|);
    forall x | x in s'.visited && x !in s'.added
      ensures exists k :: 0 <= k < |s'.stack| && mark'[k] && s'.stack[k] == x
    {
      if x == s.stack[top] {
        assert mark'[top] && s'.stack[top] == x;
      } else {
        var k :| 0 <= k < |s.stack| && mark[k] && s.stack[k] == x;
        assert mark'[k] && s'.stack[k] == x;
      }
    }
  }

  lemma ExpandDescending(s: Search, mark: seq<bool>, pushed: seq<nat>)
    requires |mark| == |s.stack| > 0 && Descending(s, mark)
    requires forall k :: 0 <= k < |pushed| ==> pushed[k] < s.stack[|s.stack| - 1]
    ensures Descending(Search(s.stack + pushed, s.visited + {s.stack[|s.stack| - 1]}, s.added, s.topo),
                       Flag(mark, |pushed|))
  {
    var top := |s.stack| - 1;
    var s' := Search(s.stack + pushed, s.visited + {s.stack[top]}, s.added, s.topo);
    var mark' := Flag(mark, |pushed|);
    forall k, l | 0 <= k < l < |s'.stack| && mark'[k] ensures s'.stack[l] < s'.stack[k] {
      if top < l {
        assert s'.stack[l] == pushed[l - |s.stack|];
      }
      if k < top {
        assert mark[k] && s.stack[top] < s.stack[k];
      }
    }
  }

  lemma ExpandPending(g: Graph, s: Search, mark: seq<bool>, node: nat, pushed: seq<nat>)
    requires Bounded(g, s) && |mark| == |s.stack| > 0 && Pending(g, s, mark)
    requires node == s.stack[|s.stack| - 1]
    requires forall k :: 0 <= k < |pushed| ==> pushed[k] < |g|
    requires forall j :: 0 <= j < |g[node].prev| ==> g[node].prev[j] in s.added || g[node].prev[j] in pushed
    ensures Bounded(g, Search(s.stack + pushed, s.visited, s.added, s.topo))
    ensures Pending(g, Search(s.stack + pushed, s.visited + {node}, s.added, s.topo), Flag(mark, |pushed|))
  {
    var top := |s.stack| - 1;
    var s' := Search(s.stack + pushed, s.visited + {s.stack[top]}, s.added, s.topo);
    var mark' := Flag(mark, |pushed|);
    forall k, j | 0 <= k < |s'.stack| && mark'[k] && 0 <= j < |g[s'.stack[k]].prev|
      ensures || g[s'.stack[k]].prev[j] in s'.added
              || exists l :: k < l < |s'.stack| && s'.stack[l] == g[s'.stack[k]].prev[j]
    {
      var c := g[s'.stack[k]].prev[j];
      if k == top {
        if c !in s.added {
          var p :| 0 <= p < |pushed| && pushed[p] == c;
          assert s'.stack[|s.stack| + p] == c;
        }
      } else {
        assert mark[k] && s.stack[k] == s'.stack[k];
        if c !in s.added {
          var l :| k < l < |s.stack| && s.stack[l] == c;
          assert s'.stack[l] == c;
        }
      }
    }
  }

  lemma ExpandInv(g: Graph, root: nat, s: Search, mark: seq<bool>)
    requires Valid(g) && Inv(g, root, s, mark) && |s.stack| > 0
    requires s.stack[|s.stack| - 1] !in s.visited
    requires |Unvisited(Reverse(g[s.stack[|s.stack| - 1]].prev), s.visited + {s.stack[|s.stack| - 1]})| > 0
    ensures Inv(g, root, Step(g, s), StepMark(g, s, mark))
  {
    var top := |s.stack| - 1;
    var node := s.stack[top];
    var visited := s.visited + {node};
    var pushed := Unvisited(Reverse(g[node].prev), visited);
    assert Step(g, s) == Search(s.stack + pushed, visited, s.added, s.topo);
    assert StepMark(g, s, mark) == Flag(mark, |pushed|);
    PushedChildren(g, node, visited);
    ReachableTransitive(g, root, node);
    OperandsAwaited(g, s, mark, node);
    ExpandRooted(root, s, pushed);
    ExpandSound(g, root, s, pushed);
    ExpandFlagged(s, mark, pushed);
    ExpandCovered(s, mark, pushed);
    ExpandDescending(s, mark, pushed);
    ExpandPending(g, s, mark, node, pushed);
  }

  // --- the iterations that pop the top node and record it ---

  lemma PopRooted(root: nat, s: Search, visited: set<nat>)
    requires Rooted(root, s) && |s.stack| > 0
    ensures Rooted(root, Record(s, s.stack[|s.stack| - 1], s.stack[..|s.stack| - 1], visited))
  {
  }

  lemma PopSound(g: Graph, root: nat, s: Search, visited: set<nat>)
    requires Valid(g) && root < |g| && Sound(g, root, s) && |s.stack| > 0
    requires visited == s.visited + {s.stack[|s.stack| - 1]}
    ensures Sound(g, root, Record(s, s.stack[|s.stack| - 1], s.stack[..|s.stack| - 1], visited))
  {
    var top := |s.stack| - 1;
    var node := s.stack[top];
    assert forall k :: 0 <= k < top ==> s.stack[..top][k] == s.stack[k];
    if node !in s.added {
      var t := s.topo + [node];
      assert node !in s.topo;
      assert forall i :: 0 <= i < |s.topo| ==> t[i] == s.topo[i] != node;
      assert Distinct(t);
    }
  }

  lemma PopFlagged(s: Search, mark: seq<bool>, visited: set<nat>)
    requires |mark| == |s.stack| > 0 && Flagged(s, mark) && s.visited <= visited
    requires forall k :: 0 <= k < |s.stack| - 1 && mark[k] ==> s.stack[k] != s.stack[|s.stack| - 1]
    ensures Flagged(Record(s, s.stack[|s.stack| - 1], s.stack[..|s.stack| - 1], visited), mark[..|s.stack| - 1])
  {
  }

  lemma PopCovered(s: Search, mark: seq<bool>, visited: set<nat>)
    requires |mark| == |s.stack| > 0 && Covered(s, mark)
    requires visited == s.visited + {s.stack[|s.stack| - 1]}
    ensures Covered(Record(s, s.stack[|s.stack| - 1], s.stack[..|s.stack| - 1], visited), mark[..|s.stack| - 1])
  {
    var top := |s.stack| - 1;
    var s' := Record(s, s.stack[top], s.stack[..top], visited);
    var mark' := mark[..top];
    assert s'.added == s.added + {s.stack[top]};
    forall x | x in s'.visited && x !in s'.added
      ensures exists k :: 0 <= k < |s'.stack| && mark'[k] && s'.stack[k] == x
    {
      var k :| 0 <= k < |s.stack| && mark[k] && s.stack[k] == x;
      assert mark'[k] && s'.stack[k] == x;
    }
  }

  lemma PopDescending(s: Search, mark: seq<bool>, visited: set<nat>)
    requires |mark| == |s.stack| > 0 && Descending(s, mark)
    ensures Descending(Record(s, s.stack[|s.stack| - 1], s.stack[..|s.stack| - 1], visited), mark[..|s.stack| - 1])
  {
  }

  lemma PopPending(g: Graph, s: Search, mark: seq<bool>, visited: set<nat>)
    requires Bounded(g, s) && |mark| == |s.stack| > 0 && Pending(g, s, mark)
    requires visited == s.visited + {s.stack[|s.stack| - 1]}
    ensures Bounded(g, Search(s.stack[..|s.stack| - 1], s.visited, s.added, s.topo))
    ensures Pending(g, Record(s, s.stack[|s.stack| - 1], s.stack[..|s.stack| - 1], visited), mark[..|s.stack| - 1])
  {
    var top := |s.stack| - 1;
    var s' := Record(s, s.stack[top], s.stack[..top], visited);
    var mark' := mark[..top];
    assert s'.added == s.added + {s.stack[top]};
    forall k, j | 0 <= k < |s'.stack| && mark'[k] && 0 <= j < |g[s'.stack[k]].prev|
      ensures || g[s'.stack[k]].prev[j] in s'.added
              || exists l :: k < l < |s'.stack| && s'.stack[l] == g[s'.stack[k]].prev[j]
    {
      var c := g[s'.stack[k]].prev[j];
      assert mark[k] && s.stack[k] == s'.stack[k];
      if c !in s.added {
        var l :| k < l < |s.stack| && s.stack[l] == c;
        if l < top {
          assert s'.stack[l] == c;
        }
      }
    }
  }

  lemma PopTopological(g: Graph, s: Search, visited: set<nat>)
    requires Topological(g, s.topo) && |s.stack| > 0 && s.stack[|s.stack| - 1] < |g|
    requires forall x :: x in s.topo <==> x in s.added
    requires s.stack[|s.stack| - 1] in s.added || OperandsIn(g, s.stack[|s.stack| - 1], s.added)
    ensures Topological(g, Record(s, s.stack[|s.stack| - 1], s.stack[..|s.stack| - 1], visited).topo)
  {
    var node := s.stack[|s.stack| - 1];
    if node !in s.added {
      var t := s.topo + [node];
      forall i | 0 <= i < |t|
        ensures t[i] < |g| && forall j :: 0 <= j < |g[t[i]].prev| ==> g[t[i]].prev[j] in t[..i]
      {
        if i < |s.topo| {
          assert t[..i] == s.topo[..i];
        } else {
          assert t[..i] == s.topo;
        }
      }
    }
  }

  lemma PopInv(g: Graph, root: nat, s: Search, mark: seq<bool>, visited: set<nat>)
    requires Valid(g) && Inv(g, root, s, mark) && |s.stack| > 0
    requires visited == s.visited + {s.stack[|s.stack| - 1]}
    requires s.stack[|s.stack| - 1] in s.added || OperandsIn(g, s.stack[|s.stack| - 1], s.added)
    requires forall k :: 0 <= k < |s.stack| - 1 && mark[k] ==> s.stack[k] != s.stack[|s.stack| - 1]
    ensures Inv(g, root, Record(s, s.stack[|s.stack| - 1], s.stack[..|s.stack| - 1], visited), mark[..|s.stack| - 1])
  {
    PopRooted(root, s, visited);
    PopSound(g, root, s, visited);
    PopFlagged(s, mark, visited);
    PopCovered(s, mark, visited);
    PopDescending(s, mark, visited);
    PopPending(g, s, mark, visited);
    PopTopological(g, s, visited);
  }

  /** The iteration that expands a node none of whose operands is left to push. */
  lemma RecordNewInv(g: Graph, root: nat, s: Search, mark: seq<bool>)
    requires Valid(g) && Inv(g, root, s, mark) && |s.stack| > 0
    requires s.stack[|s.stack| - 1] !in s.visited
    requires |Unvisited(Reverse(g[s.stack[|s.stack| - 1]].prev), s.visited + {s.stack[|s.stack| - 1]})| == 0
    ensures Inv(g, root, Step(g, s), StepMark(g, s, mark))
  {
    var top := |s.stack| - 1;
    var node := s.stack[top];
    var visited := s.visited + {node};
    var pushed := Unvisited(Reverse(g[node].prev), visited);
    assert pushed == [];
    assert Step(g, s) == Record(s, node, s.stack[..top], visited);
    assert StepMark(g, s, mark) == mark[..top];
    assert OperandsIn(g, node, s.added) by {
      OperandsAwaited(g, s, mark, node);
    }
    forall k | 0 <= k < top && mark[k] ensures s.stack[k] != node {
      assert s.stack[k] in s.visited;
    }
    PopInv(g, root, s, mark, visited);
  }

  /** The iteration that pops a node visited before. */
  lemma RecordVisitedInv(g: Graph, root: nat, s: Search, mark: seq<bool>)
    requires Valid(g) && Inv(g, root, s, mark) && |s.stack| > 0
    requires s.stack[|s.stack| - 1] in s.visited
    ensures Inv(g, root, Step(g, s), StepMark(g, s, mark))
  {
    var top := |s.stack| - 1;
    var node := s.stack[top];
    assert Step(g, s) == Record(s, node, s.stack[..top], s.visited);
    assert s.visited == s.visited + {node};
    forall k | 0 <= k < top && mark[k] ensures s.stack[k] != node {
      assert node < s.stack[k];
    }
    if node !in s.added {
      assert mark[top];
      assert OperandsIn(g, node, s.added);
    }
    PopInv(g, root, s, mark, s.visited);
  }

  /** One iteration keeps the invariant. */
  lemma StepInv(g: Graph, root: nat, s: Search, mark: seq<bool>)
    requires Valid(g) && Inv(g, root, s, mark) && |s.stack| > 0
    ensures Inv(g, root, Step(g, s), StepMark(g, s, mark))
  {
    var node := s.stack[|s.stack| - 1];
    if node in s.visited {
      RecordVisitedInv(g, root, s, mark);
    } else if |Unvisited(Reverse(g[node].prev), s.visited + {node})| == 0 {
      RecordNewInv(g, root, s, mark);
    } else {
      ExpandInv(g, root, s, mark);
    }
  }

  /** When the stack runs empty, `topo` is a topological order of the nodes reachable from `root`. */
  lemma {:induction false} RunInv(g: Graph, root: nat, s: Search, mark: seq<bool>)
    requires Valid(g) && Inv(g, root, s, mark)
    ensures var t := Run(g, s).topo;
      && Distinct(t) && Topological(g, t) && (forall x :: x in t <==> x in Reachable(g, root))
      && |t| > 0 && t[|t| - 1] == root
    decreases |g| - |s.visited|, |s.stack|
  {
    BoundedCard(s.visited, |g|);
    if |s.stack| == 0 {
      var t := s.topo;
      assert Closed(g, s.added) by {
        forall u | u in s.added ensures u < |g| && OperandsIn(g, u, s.added) {
          var i :| 0 <= i < |t| && t[i] == u;
          forall j | 0 <= j < |g[u].prev| ensures g[u].prev[j] in s.added {
            assert g[u].prev[j] in t[..i];
          }
        }
      }
      ReachableLeast(g, root, s.added);
    } else {
      StepInv(g, root, s, mark);
      BoundedCard(Step(g, s).visited, |g|);
      RunInv(g, root, Step(g, s), StepMark(g, s, mark));
    }
  }

  // ---------------------------------------------------------------------------------------
  // The rule phase and the whole of `backward`
  // ---------------------------------------------------------------------------------------

  /** Each node's rule in turn, in the order given. */
  function RunRules(g: Graph, m: Numerics, order: seq<nat>): (r: Graph)
    requires Valid(g) && forall i :: 0 <= i < |order| ==> order[i] < |g|
    ensures Valid(r) && GradsOnly(g, r)
  {
    if |order| == 0 then g
    else
      var h := RunRules(g, m, order[..|order| - 1]);
      var r := ApplyRule(h, m, order[|order| - 1]);
      GradsOnlyTrans(g, h, r);
      r
  }

  /** Rules of nodes no later than `u` leave `u` alone: each writes to earlier nodes only. */
  lemma {:induction false} RunRulesFrame(g: Graph, m: Numerics, order: seq<nat>, u: nat)
    requires Valid(g) && forall i :: 0 <= i < |order| ==> order[i] < |g|
    requires u < |g| && forall i :: 0 <= i < |order| ==> order[i] <= u
    ensures RunRules(g, m, order)[u] == g[u]
  {
    if |order| > 0 {
      var v := order[|order| - 1];
      var h := RunRules(g, m, order[..|order| - 1]);
      RunRulesFrame(g, m, order[..|order| - 1], u);
      TargetsBelow(h, v);
      RuleFrame(h, m, v, u);
    }
  }

  /** The reversed search order lists nodes no later than the root. */
  lemma ReverseTopoBelow(g: Graph, root: nat)
    requires Valid(g) && root < |g|
    ensures forall i :: 0 <= i < |Reverse(TopoOrder(g, root))| ==> Reverse(TopoOrder(g, root))[i] <= root
  {
    var t := TopoOrder(g, root);
    forall i | 0 <= i < |t| ensures t[i] <= root {
      assert t[i] in Reachable(g, root);
    }
  }

  /** What `backward` computes, stated with the search and the rule phase as functions. */
  function BackwardSpec(g: Graph, m: Numerics, root: nat): (r: Graph)
    requires Valid(g) && root < |g|
    ensures GradsOnly(g, r) && r[root].grad == 1.0
    ensures forall u :: root < u < |g| ==> r[u] == g[u]
  {
    var order := Reverse(TopoOrder(g, root));
    ReverseTopoBelow(g, root);
    var g1 := Assign(g, root, 1.0);
    GradsOnlyValid(g, g1);
    var r := RunRules(g1, m, order);
    GradsOnlyTrans(g, g1, r);
    RunRulesFrame(g1, m, order, root);
    forall u | root < u < |g| ensures r[u] == g[u] {
      RunRulesFrame(g1, m, order, u);
    }
    r
  }

  /** One pass of the `forEach`: push the children not yet visited, noting whether there were any. */
  method PushUnvisited(stack: seq<nat>, children: seq<nat>, visited: set<nat>)
    returns (stack': seq<nat>, allChildrenVisited: bool)
    ensures stack' == stack + Unvisited(children, visited)
    ensures allChildrenVisited <==> |Unvisited(children, visited)| == 0
  {
    stack' := stack;
    allChildrenVisited := true;
    var i := 0;
    while i < |children|
      invariant i <= |children|
      invariant stack' == stack + Unvisited(children[..i], visited)
      invariant allChildrenVisited <==> |Unvisited(children[..i], visited)| == 0
    {
      assert children[..i + 1][..i] == children[..i];
      if children[i] !in visited {
        stack' := stack' + [children[i]];
        allChildrenVisited := false;
      }
      i := i + 1;
    }
    assert children[..i] == children;
  }

  /** The body of the `while` loop of `backward`. */
  method Iterate(g: Graph, stack: seq<nat>, visited: set<nat>, added: set<nat>, topo: seq<nat>)
    returns (stack': seq<nat>, visited': set<nat>, added': set<nat>, topo': seq<nat>)
    requires Valid(g) && Bounded(g, Search(stack, visited, added, topo)) && |stack| > 0
    ensures Search(stack', visited', added', topo') == Step(g, Search(stack, visited, added, topo))
  {
    var node := stack[|stack| - 1];
    stack', visited', added', topo' := stack, visited, added, topo;
    if node !in visited {
      visited' := visited + {node};
      var allChildrenVisited;
      stack', allChildrenVisited := PushUnvisited(stack, Reverse(g[node].prev), visited');
      if allChildrenVisited {
        stack' := stack[..|stack| - 1];
        if node !in added {
          topo' := topo + [node];
          added' := added + {node};
        }
      }
    } else {
      stack' := stack[..|stack| - 1];
      if node !in added {
        topo' := topo + [node];
        added' := added + {node};
      }
    }
  }

  /** The iteration that expands the top node and pushes `pushed`. */
  lemma StepExpands(g: Graph, s: Search, pushed: seq<nat>)
    requires Valid(g) && Bounded(g, s) && |s.stack| > 0 && s.stack[|s.stack| - 1] !in s.visited
    requires pushed == Unvisited(Reverse(g[s.stack[|s.stack| - 1]].prev), s.visited + {s.stack[|s.stack| - 1]})
    requires |pushed| > 0
    ensures Step(g, s) == Search(s.stack + pushed, s.visited + {s.stack[|s.stack| - 1]}, s.added, s.topo)
  {
  }

  /** The iterations that pop the top node and record it unless it is recorded already. */
  lemma StepPops(g: Graph, s: Search)
    requires Valid(g) && Bounded(g, s) && |s.stack| > 0
    requires || s.stack[|s.stack| - 1] in s.visited
             || |Unvisited(Reverse(g[s.stack[|s.stack| - 1]].prev), s.visited + {s.stack[|s.stack| - 1]})| == 0
    ensures Step(g, s) == Record(s, s.stack[|s.stack| - 1], s.stack[..|s.stack| - 1], s.visited + {s.stack[|s.stack| - 1]})
  {
    if s.stack[|s.stack| - 1] in s.visited {
      assert s.visited + {s.stack[|s.stack| - 1]} == s.visited;
    }
  }

  /** An iteration leaves the outcome of the loop unchanged. */
  lemma RunStep(g: Graph, s: Search)
    requires Valid(g) && Bounded(g, s) && |s.stack| > 0
    ensures Run(g, Step(g, s)) == Run(g, s)
  {
  }

  /** The `while` loop of `backward`, which builds `topo`. */
  method TopoSort(g: Graph, root: nat) returns (topo: seq<nat>)
    requires Valid(g) && root < |g|
    ensures topo == TopoOrder(g, root)
  {
    var stack: seq<nat> := [root];
    var visited: set<nat> := {};
    var added: set<nat> := {};
    topo := [];
    while |stack| > 0
      invariant Bounded(g, Search(stack, visited, added, topo))
      invariant Run(g, Search(stack, visited, added, topo)) == Run(g, Start(root))
      decreases |g| - |visited|, |stack|
    {
      ghost var s := Search(stack, visited, added, topo);
      BoundedCard(visited, |g|);
      RunStep(g, s);
      stack, visited, added, topo := Iterate(g, stack, visited, added, topo);
      BoundedCard(visited, |g|);
    }
  }

  /** `topo.reverse().forEach((v) => v._backward())`. */
  method ApplyRules(g: Graph, m: Numerics, order: seq<nat>) returns (r: Graph)
    requires Valid(g) && forall i :: 0 <= i < |order| ==> order[i] < |g|
    ensures r == RunRules(g, m, order)
  {
    r := g;
    var i := 0;
    while i < |order|
      invariant i <= |order|
      invariant r == RunRules(g, m, order[..i])
    {
      assert order[..i + 1][..i] == order[..i];
      r := ApplyRule(r, m, order[i]);
      i := i + 1;
    }
    assert order[..i] == order;
  }

  /**
   * `Value.backward()` on node `root`: the stack-driven search, then the output's gradient set
   * to 1 and each node's rule applied in reverse topological order.
   */
  method Backward(g: Graph, m: Numerics, root: nat) returns (r: Graph, topo: seq<nat>)
    requires Valid(g) && root < |g|
    ensures Distinct(topo) && Topological(g, topo)
    ensures forall x :: x in topo <==> x in Reachable(g, root)
    ensures |topo| > 0 && topo[|topo| - 1] == root
    ensures r == BackwardSpec(g, m, root)
    ensures GradsOnly(g, r) && r[root].grad == 1.0
    ensures forall u :: root < u < |g| ==> r[u] == g[u]
  {
    topo := TopoSort(g, root);
    var g1 := Assign(g, root, 1.0);
    GradsOnlyValid(g, g1);
    r := ApplyRules(g1, m, Reverse(topo));
  }

  // ---------------------------------------------------------------------------------------
  // `backward` with the corrected `relu`/`tanh` rules
  // ---------------------------------------------------------------------------------------

  /** `RunRules` with the rules that always accumulate. */
  function RunRulesFixed(g: Graph, m: Numerics, order: seq<nat>): (r: Graph)
    requires Valid(g) && forall i :: 0 <= i < |order| ==> order[i] < |g|
    ensures Valid(r) && GradsOnly(g, r)
  {
    if |order| == 0 then g
    else
      var h := RunRulesFixed(g, m, order[..|order| - 1]);
      var r := ApplyRuleFixed(h, m, order[|order| - 1]);
      GradsOnlyTrans(g, h, r);
      r
  }

  /** `backward` as evidently intended: the same order, every rule accumulating. */
  function BackwardFixed(g: Graph, m: Numerics, root: nat): (r: Graph)
    requires Valid(g) && root < |g|
    ensures GradsOnly(g, r)
  {
    var g1 := Assign(g, root, 1.0);
    GradsOnlyValid(g, g1);
    var r := RunRulesFixed(g1, m, Reverse(TopoOrder(g, root)));
    GradsOnlyTrans(g, g1, r);
    r
  }
}
