# neuroflow-js core in Dafny

A model of the core of neuroflow-js, a small JavaScript library for neural networks with
automatic differentiation, and proofs about that model. It covers:

- **The scalar engine.** A `Value` holds a number rounded to eight decimal places, a gradient and
  the operation that produced it. The operations are `add`, `sub`, `mul`, `div`, `neg`, `pow`,
  `exp`, `log`, `relu`, `tanh` and `softmax`.
- **Reverse-mode differentiation.** `backward` orders the graph by an iterative depth-first search
  and runs every node's gradient rule in reverse order.
- **The network modules.** `Module.zeroGrad`, `Neuron`, `Layer`, `Sequential` and the
  `Autoencoder`.
- **The utilities.** `bootstrapModel` (rebuild a network from saved weights), the cross-entropy
  loss, one-hot encoding, and the splitmix32 pseudo-random generator.
- **The structure parser** of the network visualisation: `parseStructure` and `addInputLayer`.

How the model represents the library:

- **The graph.** The library links `Value` objects by reference. The model keeps them in an
  arena, a `seq<Node>` whose index is the node's identity. `Valid` states that every operand
  index is below the node's own. Every operation takes the arena and returns a longer one, with
  the new node's index (`Built`). `Extends` states that the nodes already there are unchanged.
- **Numerics.** The numeric primitives are a parameter, `Numerics(round, exp, ln, pow, times)`,
  which stands for `toFixed(8)`, `Math.exp`, `Math.log`, `**` and `*`. The square `t ** 2` in
  the tanh closure (src/engine.js:106) is modelled as `times(t, t)`, that is `t * t`. The lemmas that need
  concrete arithmetic assume one of these:
  - `RoundsToFixed8`: rounding to eight places, with JavaScript's switch to exponent notation
    at 10^21;
  - `ExactRounding`: no rounding at all;
  - `ExactProducts`: `times` is exact multiplication;
  - `ExpPositive`: `exp` is positive;
  - `PowReciprocal`: `pow(x, -1)` is the reciprocal.
- **Errors.** A thrown error, or a read of `undefined` that would throw, is an `Err` of
  `Results.Result`. Examples are a non-number exponent, an unsupported activation, a missing
  input, `.map` on a non-array, a failed regular-expression `match`, and `Array(n)` with an
  invalid length.
- **Randomness.** `Math.random` is a parameter `rand: nat -> real`; draw `k` reads `rand(k)`.

The gradient rules are modelled as the source writes them. In particular, `relu` and `tanh`
assign their operand's gradient where every other rule adds to it. A corrected variant
(`Rules.ApplyRuleFixed`, `Backprop.BackwardFixed`) sits beside them, and the chain-rule
theorems are stated for it (see Findings).

The PRNG scales its seed by 2^32 before truncating it to 32 bits. So every integer seed,
including the seed 42 of the library's own test, starts from state 0 (`Prng.IntegerSeedsAgree`).
The test's expected values are those of state 0, and `Prng.SeedFortyTwoCloseTo` proves that the
model reproduces them.

## Model

| member | source | states |
|---|---|---|
| Engine.Append | src/engine.js:3-10 | a new node has rounded data, zero gradient, the recorded operation and operands; every earlier node is unchanged |
| Engine.Constant | src/engine.js:3-10 | `new Value(x)` is one fresh leaf holding x rounded to the library's precision |
| Engine.EnsureValue | src/engine.js:16-18 | a node operand is used as is and the graph is untouched; a number becomes one fresh rounded leaf; either way the result's data is the operand's value |
| Engine.Add | src/engine.js:24-34 | a number operand first becomes a fresh leaf; the sum node's data is the rounded sum of the operands; `x.add(x)` records its operand once |
| Engine.Mul | src/engine.js:41-51 | as Add, with the rounded product; `x.mul(x)` records its operand once |
| Engine.Neg | src/engine.js:20-22 | negation is a product with a fresh leaf holding -1 |
| Engine.Sub | src/engine.js:36-39 | `a - b` is built as `a + (b * -1)`, three or four new nodes, and its data is the rounded `a - b` through those steps |
| Engine.Div | src/engine.js:53-56 | `a / b` is built as `a * b ** -1`; the reciprocal node and the product node are laid out as the source creates them |
| Engine.Pow | src/engine.js:68-79 | a node exponent is an error exactly when given; a number exponent adds one node holding the rounded power |
| Engine.Exp | src/engine.js:58-66 | one new node holding the rounded exponential of its operand |
| Engine.Log | src/engine.js:81-90 | a zero operand is first overwritten with epsilon, and no other node changes; the new node holds the rounded logarithm of the (possibly replaced) operand |
| Engine.Relu | src/engine.js:92-100 | one new node holding the operand clamped at zero |
| Engine.Tanh | src/engine.js:102-110 | one new node holding the rounded tanh; the unrounded value is kept for the gradient rule, as the source's closure captures it |
| Engine.Softmax | src/engine.js:112-131 | the exponential nodes, the left-to-right sum chain starting from a zero leaf, and one reciprocal-product pair per output, laid out in creation order |
| Engine.SoftmaxNormalised | src/engine.js:112-131 | without rounding, with exact products, positive `exp` and an exact reciprocal: the sum node holds the sum of the exponentials, each output is exp(x_i) divided by it, and the outputs add up to 1 (0 when there are none) |
| Engine.SoftmaxOutputsShare | src/engine.js:115-116 | each output is its exponential's share of the positive sum node |
| Engine.SoftmaxOutputsTotal | src/engine.js:113-116 | the outputs of a non-empty softmax sum to exactly 1 |
| Engine.SoftmaxSumExact | src/engine.js:113-114 | without rounding, the reduce chain's final node holds the total of the exponentials |
| Precision.RoundFixesDecimal | src/engine.js:12-14 | a number that already has at most eight decimals is unchanged by limitPrecision |
| Precision.RoundFixesInteger | src/engine.js:12-14 | integers are unchanged by limitPrecision |
| Precision.RoundIdempotent | src/engine.js:12-14 | limiting the precision twice is the same as once |
| Precision.RoundOdd | src/engine.js:12-14 | rounding is symmetric about zero (toFixed rounds magnitudes) |
| Precision.RoundError | src/engine.js:12-14 | the rounded value is within half a unit of the eighth decimal of the input |
| Precision.Rounded | src/utils/autoencoder.js:13 | rounding a list keeps its length and rounds each entry in place |
| Precision.Quot | src/engine.js:124 | for a nonzero divisor, the quotient times the divisor gives back the dividend |
| Rules.Bump | src/engine.js:29 | `+=` on a gradient: that node's gradient grows by exactly the amount and nothing else in the graph changes |
| Rules.Assign | src/engine.js:175 | `=` on a gradient: that node's gradient becomes the value and nothing else changes |
| Rules.ApplyRule | src/engine.js:28-127 | running a node's gradient closure keeps the graph valid and changes gradients only; what each closure adds or assigns is stated by the rows below and by ChainRule.FixedRuleDelta |
| Rules.RuleFrame | src/engine.js:28-127 | a closure changes no node other than its own operands |
| Rules.AddRule | src/engine.js:28-31 | each operand's gradient grows by the output's gradient; a node added to itself grows by twice that |
| Rules.MulRule | src/engine.js:45-48 | each operand's gradient grows by the other operand's data times the output's gradient; for `x * x` by 2x times it |
| Rules.OverwritingRuleValues | src/engine.js:92-110 | relu sets its operand's gradient to the output gradient when the output is positive and to 0 otherwise; tanh sets it to (1 - t^2) times the output gradient |
| Rules.OverwritingRules | src/engine.js:92-110 | the relu and tanh closures' result does not depend on the operand's gradient beforehand |
| Rules.OverwritingRuleForgets | src/engine.js:92-110 | a contribution already made to a relu or tanh operand is lost when the closure runs |
| Rules.ApplyRuleSoftmax | src/engine.js:115-127 | a softmax output runs the softmax closure, which replaced the closure of the division that made it |
| Rules.SoftmaxRule | src/engine.js:117-127 | over distinct inputs, input j gains s(1 - s) times the output gradient when j is the output's own index, and otherwise -s times exp_j / sum times it |
| Rules.SoftmaxDeltaExact | src/engine.js:120-125 | with exact products, the per-input change is the source's expression |
| Rules.ZeroGradientRule | src/engine.js:28-127 | an accumulating closure whose output gradient is 0 changes nothing |
| Rules.ApplyRuleFixed | src/engine.js:92-110 | the corrected relu and tanh closures (accumulating) keep the graph valid and change gradients only |
| Rules.FixedRuleAccumulates | src/engine.js:28-127 | with the corrected closures, adding c to another node's gradient before a rule is the same as adding it after |
| Backprop.ReachableClosed | src/engine.js:142-172 | the nodes reachable from a root through operand links are closed under those links |
| Backprop.ReachableLeast | src/engine.js:142-172 | and they form the least closed set that holds the root |
| Backprop.TopoOrder | src/engine.js:135-172 | the search's order has no repeats, lists every node after its operands, holds exactly the nodes reachable from the root, and ends with the root |
| Backprop.TopoSort | src/engine.js:135-172 | the stack-driven loop with its visited and added sets terminates and yields TopoOrder |
| Backprop.RunRules | src/engine.js:176 | running closures in a given order changes gradients only |
| Backprop.BackwardSpec | src/engine.js:174-176 | the root's gradient becomes 1, only gradients change, and nodes created after the root are untouched |
| Backprop.Backward | src/engine.js:135-177 | the method's order has the TopoOrder properties; the root's gradient is 1; only gradients change; nodes created after the root are untouched |
| Backprop.BackwardFixed | src/engine.js:174-176 | the same pass with the corrected relu and tanh closures changes gradients only |
| ChainRule.FixedRuleDelta | src/engine.js:28-127 | each corrected closure adds to a node's gradient exactly that node's local-derivative share of the output gradient |
| ChainRule.ReverseTopoSettles | src/engine.js:174-176 | in the reversed search order, every consumer of a node runs before that node's own closure |
| ChainRule.BackwardChainRule | src/engine.js:174-176 | the chain rule: each node's final gradient is its initial one (1 at the root) plus the local shares of every node in the order, taken at their final gradients |
| ChainRule.BackwardConsumers | src/engine.js:174-176 | those shares need only be summed over the node's reachable consumers |
| ChainRule.BackwardAccumulating | src/engine.js:174-176 | on a graph without relu or tanh, the pass as written computes the corrected gradients |
| ChainRule.RunRulesOverwritesFirst | src/engine.js:92-110 | when every relu or tanh closure in the order writes an operand whose gradient is still 0 and that no earlier closure wrote, running the closures as written equals running the corrected ones |
| ChainRule.BackwardOverwritesFirst | src/engine.js:174-176 | the same for the whole backward pass from a root |
| EngineTests.SimpleChainBuilds | src/engine.test.js:102-111 | `(c + a * b) * f` with a = 2, b = -3, c = 10, f = -2 builds e = -6, d = 4, l = -8 |
| EngineTests.SimpleChainGradients | src/engine.test.js:102-122 | after backward: a 6, b -4, e -2, c -2, d -2, f 4, l 1 |
| EngineTests.DiamondBuilds | src/engine.test.js:124-133 | the test's diamond expression from x = -4 builds y = -20 |
| EngineTests.DiamondOrder | src/engine.js:135-172 | for the graph of the test below (nodes numbered in creation order, x first, y last) the search order is 0, 1, 2, 3, 4, 5, 9, 10, 6, 7, 8, 11, 12, 13 |
| EngineTests.DiamondAsWritten | src/engine.js:92-100 | in that order each relu runs its overwriting closure while its operand's gradient is still 0, so the pass as written equals the corrected pass on this graph |
| EngineTests.DiamondGradient | src/engine.test.js:124-136 | x = -4, y = -20; after `y.backward()` as written y's gradient is 1 and x's gradient is 46, the same value as with the accumulating closures |
| Scenarios.ReluSkipOrder | src/engine.js:135-172 | for `relu(x) + x` the search order is x, relu, sum |
| Scenarios.ReluSkipAsWritten | src/engine.js:92-100 | for `relu(x) + x` at x = 1, the relu closure overwrites the skip path's contribution and x's gradient ends at 1 |
| Scenarios.ReluSkipCorrected | src/engine.js:92-100 | with the accumulating relu closure x's gradient is 2, the derivative of relu(x) + x at 1 |
| Scenarios.ReluSkipGradients | src/engine.js:92-177 | the whole backward pass as written gives 1 and the corrected pass gives 2 |
| Modules.DefaultParameters | src/module.js:10-13 | a bare module has no parameters |
| Modules.ZeroGrad | src/module.js:3-7 | exactly the parameters' gradients become 0 and everything else is unchanged |
| Modules.ZeroGradIdempotent | src/module.js:3-7 | clearing twice is the same as clearing once |
| Modules.ZeroGradValid | src/module.js:3-7 | clearing keeps the graph well formed |
| Neurons.DrawWeights | src/neuron.js:16 | n fresh leaves in order, the i-th holding round(rand(i) * 2 - 1) |
| Neurons.NewNeuron | src/neuron.js:6-20 | given weights are used as they are, otherwise numOfInputs are drawn; the bias is a fresh zero leaf; the activation defaults to relu |
| Neurons.DrawnWeightsInRange | src/neuron.js:15-16 | with draws in [0, 1) and exact arithmetic every drawn weight lies in [-1, 1) |
| Neurons.GraphDotIsDot | src/neuron.js:25-28 | the chain of add/mul nodes computes the reference dot product (bias first, then each weight times its input, rounded per node) |
| Neurons.WeightedSum | src/neuron.js:25-28 | the reduce succeeds exactly when every weight has an input; its node holds the reference dot product of the neuron's data and the inputs' data |
| Neurons.Forward | src/neuron.js:23-34 | succeeds exactly when the inputs are long enough and the activation is supported, with the missing-input error first; the output agrees with the reference `Evaluate` on the neuron's data, result and error alike |
| Neurons.Parameters | src/neuron.js:37-39 | the weights in order, then the bias |
| Neurons.ForwardConfined | src/neuron.js:23-34 | every node the pass creates depends only on new nodes, the neuron's parameters and the inputs |
| Layers.DrawNeurons | src/layer.js:12-15 | count neurons, each drawing its weights from consecutive draws |
| Layers.NewLayer | src/layer.js:6-16 | supplied neurons are used as they are and the graph is unchanged; otherwise numOfNeurons neurons with numOfInputs drawn weights and the given activation |
| Layers.EvaluateAll | src/layer.js:21 | the reference evaluation succeeds exactly when every neuron does, and otherwise fails with the first failing neuron's error |
| Layers.Forward | src/layer.js:19-24 | agrees with the reference evaluation of every neuron, result and error alike, and returns a bare node exactly when there is one neuron |
| Layers.ParameterCount | src/layer.js:27-29 | a layer of neurons with n inputs each has neurons * (n + 1) parameters |
| Layers.NeuronStrings | src/layer.js:32-34 | one string per neuron, each the neuron's own toString |
| Sequentials.Empty | src/sequential.js:4-7 | a new model has no layers |
| Sequentials.AddLayer | src/sequential.js:9-11 | the layer is appended after the existing ones, which keep their order |
| Sequentials.Through | src/sequential.js:14-17 | folding the first k layers agrees with the reference evaluation of those layers; zero layers return the input unchanged |
| Sequentials.Forward | src/sequential.js:13-19 | agrees with the reference evaluation of the whole network, result and error alike; with no layers the input comes back unchanged |
| Sequentials.ForwardConfined | src/sequential.js:13-19 | every node the pass creates depends only on new nodes, the model's parameters and the inputs |
| Sequentials.ParameterCount | src/sequential.js:21-23 | the parameter count is the sum over layers of inputs * neurons + neurons |
| Sequentials.Weights | src/sequential.js:25-32 | one row per layer and one entry per neuron, holding the weights' data and the bias's data |
| Sequentials.LayerStrings | src/sequential.js:34-36 | one string per layer, each the layer's own toString |
| Autoencoders.Detach | src/utils/autoencoder.js:13 | each encoded node becomes a fresh leaf holding its data, rounded, in order; an entry that is a plain number has no `data` and makes the copy fail |
| Autoencoders.Forward | src/utils/autoencoder.js:11-16 | an encoder error is passed on; an encoder that returns a single node fails as `.map` does; otherwise the result is the decoder's reference evaluation on the rounded encodings |
| Autoencoders.DetachCuts | src/utils/autoencoder.js:11-16 | from the decoder's output, backward reaches no encoder node other than the decoder's own parameters |
| Autoencoders.Parameters | src/utils/autoencoder.js:18-20 | the encoder's parameters followed by the decoder's |
| Autoencoders.ToString | src/utils/autoencoder.js:22-26 | the text of one Sequential made of the encoder's layers followed by the decoder's |
| Bootstrap.BootstrapModel | src/utils/bootstrap-model.js:6-24 | one layer per saved row; each weight is a fresh rounded leaf; every bias is a zero leaf; relu everywhere but the last layer, which gets the given activation |
| Bootstrap.BootstrapEmpty | src/utils/bootstrap-model.js:6-24 | an empty structure gives an empty model and an unchanged graph |
| Bootstrap.BootstrapWeights | src/utils/bootstrap-model.js:6-24 | reading the weights back gives the saved weights rounded, and biases of 0 |
| Bootstrap.BootstrapDropsBias | src/utils/bootstrap-model.js:15 | one neuron saved with bias 1 reads back with bias 0 |
| Bootstrap.BootstrapFixed | src/utils/bootstrap-model.js:6-24 | the corrected rebuild: as BootstrapModel, but each bias leaf holds the saved bias |
| Bootstrap.BootstrapFixedKeepsBias | src/utils/bootstrap-model.js:15 | with the correction the saved bias 1 reads back as 1 |
| Bootstrap.FixedRoundTrip | src/utils/bootstrap-model.js:6-24 | saved weights that rounding leaves alone read back exactly |
| Bootstrap.FixedRebuildStable | src/utils/bootstrap-model.js:6-24 | saving a rebuilt model and rebuilding it again changes nothing |
| Bootstrap.FixedForwardAgrees | src/utils/bootstrap-model.js:6-24 | a model rebuilt from its own saved weights has the same neuron data, so the same reference forward pass |
| CrossEntropy.TotalLoss | src/utils/cross-entropy-loss.js:3-6 | the loss is NaN exactly when there are fewer labels than predictions; otherwise its node holds the reference loss of the predictions' data, the rounded left-to-right sum of round(-label * round(ln p)) with a zero p read as epsilon |
| CrossEntropy.LossLogs | src/utils/cross-entropy-loss.js:5 | the only change to existing nodes is a zero prediction replaced by epsilon |
| CrossEntropy.OneHotLoss | src/utils/cross-entropy-loss.js:3-6 | for a one-hot label at k, the loss is minus the rounded log of prediction k |
| CrossEntropy.OneHotLossExact | src/utils/cross-entropy-loss.js:3-6 | without rounding it is exactly -ln p_k |
| CrossEntropy.LibraryExampleCertain | src/utils/cross-entropy-loss.test.js:5-10 | predictions 0.1, 0.9 with labels 0, 1 give -ln 0.9, rounded |
| CrossEntropy.LibraryExampleZero | src/utils/cross-entropy-loss.test.js:12-17 | predictions 1, 0 with labels 0, 1 give -ln 1e-8, rounded, and the zero prediction now holds 1e-8 |
| OneHot.Encode | src/utils/one-hot.js:3-7 | n zeros with a 1 at the label; a label at or past n extends the array with holes; a label that is not an array index leaves n zeros; n past 2^32 - 1 is a RangeError |
| OneHot.Decode | src/utils/one-hot.js:1 | the first index of the maximum, and -1 for an empty list or a list with a non-number |
| OneHot.ArgMax | src/utils/one-hot.js:1 | the loop returns the first maximum, or -1 for an empty list |
| OneHot.ArgMaxIsDecode | src/utils/one-hot.js:1 | the loop and Decode agree on every list of numbers |
| OneHot.DecodeEncode | src/utils/one-hot.js:1-7 | decoding an encoding gives back the label when it is an index up to n, -1 when it left holes or n is 0, and 0 otherwise |
| OneHot.DecodeEncodeInRange | src/utils/one-hot.js:1-7 | for a label below n, decoding its encoding gives back the label |
| Prng.Advance | src/utils/prng.js:15-16 | the state steps by 0x9e3779b9 modulo 2^32 |
| Prng.Unit | src/utils/prng.js:22 | the output is the mixed 32-bit word divided by 2^32, so it lies in [0, 1) |
| Prng.Call | src/utils/prng.js:14-23 | one call advances the state and returns a number in [0, 1) |
| Prng.Stream | src/utils/prng.js:14-25 | n calls give n numbers in [0, 1) |
| Prng.AfterClosedForm | src/utils/prng.js:16 | after n calls the state is the start plus n increments, modulo 2^32 |
| Prng.StreamClosedForm | src/utils/prng.js:14-23 | the i-th number is the output of the state after i + 1 steps |
| Prng.IntegerSeedStartsAtZero | src/utils/prng.js:25 | an integer seed scaled by 2^32 truncates to state 0 |
| Prng.IntegerSeedsAgree | src/utils/prng.js:25 | any two integer seeds give the same stream |
| Prng.FractionalSeedMatters | src/utils/prng.js:25 | seed 0.5 starts from state 2^31 |
| Prng.SeedFortyTwoStream | src/utils/prng.test.js:3-6 | the first five numbers for seed 42 are the five mixed words of states 1 to 5 over 2^32 |
| Prng.SeedFortyTwoCloseTo | src/utils/prng.test.js:3-12 | each of them is within 0.005 of the test's expected value |
| StructureParser.LayerMatch | demos/src/js/network-visualization.js:10 | a match of `Layer of [` up to the first `]`, with at least one character inside, or proof that none exists |
| StructureParser.NeuronMatch | demos/src/js/network-visualization.js:11-19 | a neuron kind, `(`, digits, `)` at the start, with the count the digits spell |
| StructureParser.ParseLayers | demos/src/js/network-visualization.js:14-20 | every layer text yields its neuron entries, and the parse fails when one layer has none |
| StructureParser.ParseStructure | demos/src/js/network-visualization.js:9-23 | succeeds exactly when some layer matches and each matched layer has a neuron match; the result lists each layer's entries in order |
| StructureParser.ParseToString | demos/src/js/network-visualization.js:9-23 | parsing a model's toString gives back each layer's recognised neurons, and fails exactly when a layer has none |
| StructureParser.ParseRecognised | demos/src/js/network-visualization.js:9-23 | a model whose neurons are all of a recognised kind parses to its layers' activations and input counts |
| StructureParser.ParseEmptyModel | demos/src/js/network-visualization.js:10 | the text of a model with no layers has no match, so the parse fails |
| StructureParser.AddInputLayer | demos/src/js/network-visualization.js:25-32 | prepends a layer of `count` input entries, count being the first neuron's; fails on a missing first entry or an invalid array length |
| StructureParser.InputLayerOfModel | demos/src/js/network-visualization.js:25-32 | for a parsed model the input layer has as many entries as the first neuron has weights |
| Strings.Upper | src/neuron.js:43 | upper-casing keeps the length and maps exactly the letters a to z |
| Strings.NatToString | src/neuron.js:43 | a count prints as a non-empty run of digits |
| Strings.DigitsValueOfNat | demos/src/js/network-visualization.js:18 | reading a printed count back gives the count |
| ForwardExamples.NeuronExample | src/neuron.test.js:7-11 | the test's relu neuron on inputs 1, 2, 3 evaluates to 2.24107, within the test's tolerance of 2.24111 |
| ForwardExamples.NeuronForwardExample | src/neuron.test.js:7-11 | the graph forward pass of that neuron produces a node holding 2.24107 |
| ForwardExamples.LayerExample | src/layer.test.js:14-19 | the test's two-neuron layer evaluates to 2.24107 and 0 |
| ForwardExamples.LayerForwardExample | src/layer.test.js:14-19 | the graph forward pass of that layer produces those two values |
| ForwardExamples.FirstLayer | src/sequential.test.js:7-22 | the first layer maps 2, 3, -1 to 0.0945, 0, 3.15096 |
| ForwardExamples.ModelExample | src/sequential.test.js:37-40 | the test's three-layer model evaluates to -2.7029675, within the test's tolerance of -2.70302 |
| ForwardExamples.ModelForwardExample | src/sequential.test.js:37-40 | the graph forward pass of that model produces a single node holding -2.7029675 |

## Left out

- Engine.Add: addition is exact real addition followed by rounding; the double-precision sum
  before `toFixed(8)` is not modelled, while `*` goes through the `times` parameter.
- Rules.Bump: gradients accumulate with exact `+`; double-precision rounding of gradients is
  not modelled.
- Engine.TanhF: the `2 * x` inside tanh is exact; only `Math.exp` is a parameter.
- Precision.Quot: a zero divisor gives 0 instead of Infinity or NaN. This touches `1 / data` in
  the log closure, `exp_j / sum` in the softmax closure and the quotient inside tanh. In the
  source, tanh of data above about 355 is NaN (Infinity / Infinity); the model's value there is
  whatever the `exp` parameter makes of it.
- CrossEntropy.TotalLoss: with fewer labels than predictions the outcome is just NaN; the graph
  the source still builds, with NaN data, is not returned.
- Strings.Upper: upper-cases ASCII letters only; `toUpperCase` maps all of Unicode ("ß" to
  "SS").
- Sequentials.AddLayer: returns a new model. The source pushes into the array the caller passed
  in (src/sequential.js:10), so that array grows too.
- StructureParser.AddInputLayer: returns a new list. The source unshifts into the caller's list
  in place and fills the input layer with one shared object (network-visualization.js:27-31).
- StructureParser.ParseStructure: neuron counts are exact naturals; the source's `+digits`
  loses precision above 2^53 (network-visualization.js:18).
- ChainRule.BackwardChainRule: takes `TargetsReach` (every operand a rule writes to is reachable
  through `_prev`) as a precondition. It is established for graphs whose rule targets are
  operands (`ChainRule.TargetsInPrevReach`) and for the test graphs, not for every graph the
  engine can build.
- Rules.ApplyRule: the tanh closure squares `t` with `times(t, t)`. If a JavaScript engine
  rounded `t ** 2` differently from `t * t`, the model would not show that difference.
- Softmax test values (src/engine.test.js:93-100 and 138-158): these depend on the values of
  `Math.exp`, which is a parameter here. `Engine.SoftmaxNormalised` and `Rules.SoftmaxRule`
  state what holds for any `exp`.
- The class predictions of bootstrap-model.test.js:21-27 also rest on `Math.exp` through the
  softmax output layer and are not stated.
- Floating point in general: all numbers are reals. `toFixed(8)` is modelled exactly
  (`Precision.ToFixed8`). `Math.exp`, `Math.log` and `**` are parameters.
- `Value.toString` (src/engine.js:179-183) is debugging text and is not modelled.
- One-hot encoding takes a natural class count. A negative or fractional `numClasses` (a
  RangeError in the source) is not modelled.
- PRNG seeds are reals; NaN and infinite seeds are not modelled.
- The drawing code of the network visualisation (p5 calls) and every demo or training script
  other than `parseStructure` and `addInputLayer` are outside the core. So are the
  tensorflow comparison test and the optimiser loops.

## Findings

| source | as written | input that shows it | evidently intended | confidence | as-written member | corrected member |
|---|---|---|---|---|---|---|
| src/engine.js:96 and :106 | the relu and tanh closures assign `this.grad = ...` where every other closure adds | `x = 1; y = x.relu().add(x); y.backward()` leaves x.grad at 1 | `+=`, so that x.grad is 2, the derivative of relu(x) + x | not executed | Scenarios.ReluSkipAsWritten | Scenarios.ReluSkipCorrected |
| src/utils/bootstrap-model.js:15 | the saved `bias` is handed to `Neuron`, whose constructor ignores it and starts every bias at 0 (src/neuron.js:18) | a structure `[[{weights: [], bias: 1}]]` rebuilds with bias 0 | the saved bias is restored, so that saving and rebuilding round-trips | not executed | Bootstrap.BootstrapDropsBias | Bootstrap.BootstrapFixedKeepsBias |
