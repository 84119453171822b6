/**
 * The network demo's structure parser. `parseStructure` reads a model's `toString()` back into
 * one list per `Layer of [...]` of `{type, count}` entries, using two global regular-expression
 * scans; `addInputLayer` puts a layer of input entries in front.
 */
module StructureParser {
  import opened Results
  import opened Strings
  import opened Neurons
  import opened Layers
  import opened Sequentials

  datatype Option<T> = Some(value: T) | None

  /** One `{ type, count }` entry. */
  datatype Entry = Entry(kind: string, count: nat)

  const LayerOpen: string := "Layer of ["

  /** The neuron names the token pattern accepts, in the order of its alternatives. */
  const Kinds: seq<string> := ["RELUNeuron", "LINEARNeuron", "SOFTMAXNeuron", "SIGMOIDNeuron"]

  /** The largest length `Array(n)` accepts, 2^32 - 1. */
  const MaxArrayLength: int := 0xFFFF_FFFF

  predicate StartsWith(s: string, w: string) {
    |w| <= |s| && s[..|w|] == w
  }

  predicate Avoids(s: string, c: char) {
    forall k :: 0 <= k < |s| ==> s[k] != c
  }

  // ---------------------------------------------------------------------------------------
  // The layer pattern /Layer of \[([^\]]+)\]/
  // ---------------------------------------------------------------------------------------

  /** The number of characters before the first `c` of `s`, or `|s|` when there is none. */
  function RunBefore(s: string, c: char): (r: nat)
    ensures r <= |s| && Avoids(s[..r], c) && (r < |s| ==> s[r] == c)
  {
    if |s| == 0 || s[0] == c then 0
    else
      var n := RunBefore(s[1..], c);
      assert s[..n + 1] == [s[0]] + s[1..][..n];
      n + 1
  }

  /** The layer pattern matches the first `n` characters of `s`: the opening, a body without `]`, `]`. */
  predicate LayerMatchesWith(s: string, n: nat) {
    && 12 <= n <= |s| && StartsWith(s, LayerOpen)
    && s[n - 1] == ']' && Avoids(s[10..n - 1], ']')
  }

  /** The pattern tried at the start of `s`: the length of its match, if any. */
  function LayerMatch(s: string): (r: Option<nat>)
    ensures r.Some? ==> LayerMatchesWith(s, r.value)
    ensures r.None? ==> forall n: nat :: !LayerMatchesWith(s, n)
  {
    if !StartsWith(s, LayerOpen) then None
    else
      var b := RunBefore(s[10..], ']');
      if 0 < b && 10 + b < |s| then
        assert s[10..11 + b - 1] == s[10..][..b];
        Some(11 + b)
      else
        None
  }

  /** `structure.match(/Layer of \[([^\]]+)\]/g)`: every match, left to right, without overlaps. */
  function ScanLayers(s: string): (r: seq<string>)
    decreases |s|
  {
    if |s| == 0 then []
    else
      match LayerMatch(s)
      case Some(n) => [s[..n]] + ScanLayers(s[n..])
      case None => ScanLayers(s[1..])
  }

  // ---------------------------------------------------------------------------------------
  // The neuron pattern /(RELUNeuron|LINEARNeuron|SOFTMAXNeuron|SIGMOIDNeuron)\(\d+\)/
  // ---------------------------------------------------------------------------------------

  /** The number of decimal digits at the start of `s`. */
  function DigitRun(s: string): (r: nat)
    ensures r <= |s| && AllDigits(s[..r]) && (r < |s| ==> !IsDigit(s[r]))
  {
    if |s| == 0 || !IsDigit(s[0]) then 0
    else
      var n := DigitRun(s[1..]);
      assert s[..n + 1] == [s[0]] + s[1..][..n];
      n + 1
  }

  /** The first alternative `s` starts with. */
  function NameAt(s: string): (r: Option<string>)
    ensures r.Some? ==> r.value in Kinds && StartsWith(s, r.value)
    ensures r.None? ==> forall i :: 0 <= i < |Kinds| ==> !StartsWith(s, Kinds[i])
  {
    if StartsWith(s, Kinds[0]) then Some(Kinds[0])
    else if StartsWith(s, Kinds[1]) then Some(Kinds[1])
    else if StartsWith(s, Kinds[2]) then Some(Kinds[2])
    else if StartsWith(s, Kinds[3]) then Some(Kinds[3])
    else None
  }

  /** No string starts with two different alternatives: each is told apart by its first two letters. */
  lemma KindsExclusive(s: string, k: string, k': string)
    requires k in Kinds && k' in Kinds && StartsWith(s, k) && StartsWith(s, k')
    ensures k == k'
  {
    assert s[0] == k[0] && s[1] == k[1];
    assert s[0] == k'[0] && s[1] == k'[1];
  }

  /**
   * The neuron pattern matches the first `n` characters of `s` and the token reads as `e`: an
   * alternative, `(`, a digit run, `)`; `type` is the alternative and `count` the digits' value.
   */
  predicate NeuronMatchesWith(s: string, n: nat, e: Entry) {
    && e.kind in Kinds && StartsWith(s, e.kind)
    && |e.kind| + 3 <= n <= |s| && s[|e.kind|] == '(' && s[n - 1] == ')'
    && AllDigits(s[|e.kind| + 1..n - 1]) && e.count == DigitsValue(s[|e.kind| + 1..n - 1])
  }

  datatype Token = Token(size: nat, entry: Entry)

  /** The neuron pattern tried at the start of `s`: the length of the match and the entry it reads as. */
  function NeuronMatch(s: string): (r: Option<Token>)
    ensures r.Some? ==> NeuronMatchesWith(s, r.value.size, r.value.entry)
  {
    match NameAt(s)
    case None => None
    case Some(k) =>
      var p := |k|;
      if p < |s| && s[p] == '(' then
        var d := DigitRun(s[p + 1..]);
        assert s[p + 1..p + 1 + d] == s[p + 1..][..d];
        if 0 < d && p + 1 + d < |s| && s[p + 1 + d] == ')' then
          Some(Token(p + d + 2, Entry(k, DigitsValue(s[p + 1..p + 1 + d]))))
        else None
      else None
  }

  /** When the pattern fails at the start of `s`, it has no match there at all. */
  lemma NeuronMatchComplete(s: string)
    ensures NeuronMatch(s).None? ==> forall n: nat, e: Entry :: !NeuronMatchesWith(s, n, e)
  {
    if NeuronMatch(s).None? && NameAt(s).Some? {
      var k := NameAt(s).value;
      var p := |k|;
      if p < |s| && s[p] == '(' {
        NoNeuronMatch(s, k, DigitRun(s[p + 1..]));
      } else {
        forall n: nat, e: Entry | NeuronMatchesWith(s, n, e) ensures false {
          KindsExclusive(s, k, e.kind);
        }
      }
    }
  }

  /** Once the alternative `k` is followed by `(`, only a digit run ended by `)` completes a match. */
  lemma NoNeuronMatch(s: string, k: string, d: nat)
    requires k in Kinds && StartsWith(s, k) && |k| < |s| && s[|k|] == '('
    requires d == DigitRun(s[|k| + 1..])
    requires !(0 < d && |k| + 1 + d < |s| && s[|k| + 1 + d] == ')')
    ensures forall n: nat, e: Entry :: !NeuronMatchesWith(s, n, e)
  {
    forall n: nat, e: Entry | NeuronMatchesWith(s, n, e) ensures false {
      KindsExclusive(s, k, e.kind);
      var t := s[|k| + 1..];
      var m := n - 1 - (|k| + 1);
      assert forall j :: 0 <= j < m ==> t[j] == s[|k| + 1..n - 1][j];
    }
  }

  /** `layer.match(/(RELUNeuron|...)\(\d+\)/g)` with each token read as `{ type, count }`. */
  function ScanNeurons(s: string): (r: seq<Entry>)
    decreases |s|
  {
    if |s| == 0 then []
    else
      match NeuronMatch(s)
      case Some(t) => [t.entry] + ScanNeurons(s[t.size..])
      case None => ScanNeurons(s[1..])
  }

  // ---------------------------------------------------------------------------------------
  // parseStructure and addInputLayer
  // ---------------------------------------------------------------------------------------

  /** The neuron lists of the layer matches, in order; a layer without a token fails (`null.map`). */
  function ParseLayers(ls: seq<string>): (r: Result<seq<seq<Entry>>>)
    ensures r.Ok? <==> forall i :: 0 <= i < |ls| ==> |ScanNeurons(ls[i])| > 0
    ensures r.Err? ==> r.error == NoMatch
    ensures r.Ok? ==> |r.value| == |ls| && forall i :: 0 <= i < |ls| ==> r.value[i] == ScanNeurons(ls[i])
  {
    if |ls| == 0 then Ok([])
    else
      var es := ScanNeurons(ls[0]);
      if |es| == 0 then Err(NoMatch)
      else
        var rest :- ParseLayers(ls[1..]);
        assert forall i :: 1 <= i < |ls| ==> ls[i] == ls[1..][i - 1];
        Ok([es] + rest)
  }

  /** `parseStructure(structure)`; a string without a layer match fails (`null.map`). */
  function ParseStructure(s: string): (r: Result<seq<seq<Entry>>>)
    ensures r.Ok? <==> |ScanLayers(s)| > 0 && forall i :: 0 <= i < |ScanLayers(s)| ==> |ScanNeurons(ScanLayers(s)[i])| > 0
    ensures r.Err? ==> r.error == NoMatch
    ensures r.Ok? ==> |r.value| == |ScanLayers(s)|
                      && forall i :: 0 <= i < |r.value| ==> r.value[i] == ScanNeurons(ScanLayers(s)[i])
  {
    var ls := ScanLayers(s);
    if |ls| == 0 then Err(NoMatch) else ParseLayers(ls)
  }

  /**
   * `addInputLayer(layers)`: `layers[0][0].count` copies of `{ INPUTNeuron, 1 }` put in front.
   * Reading an entry that is not there fails, and so does a count `Array` refuses.
   */
  function AddInputLayer(layers: seq<seq<Entry>>): (r: Result<seq<seq<Entry>>>)
    ensures r.Ok? <==> |layers| > 0 && |layers[0]| > 0 && layers[0][0].count <= MaxArrayLength
    ensures r.Err? ==> r.error == (if |layers| > 0 && |layers[0]| > 0 then InvalidArrayLength else MissingEntry)
    ensures r.Ok? ==> && |r.value| == |layers| + 1 && r.value[1..] == layers
                      && |r.value[0]| == layers[0][0].count
                      && forall j :: 0 <= j < |r.value[0]| ==> r.value[0][j] == Entry("INPUTNeuron", 1)
  {
    if |layers| == 0 || |layers[0]| == 0 then Err(MissingEntry)
    else if layers[0][0].count > MaxArrayLength then Err(InvalidArrayLength)
    else Ok([seq(layers[0][0].count, _ => Entry("INPUTNeuron", 1))] + layers)
  }

  // ---------------------------------------------------------------------------------------
  // Scanning text built from pieces
  // ---------------------------------------------------------------------------------------

  /** A layer match has one length: the body stops at the first `]`. */
  lemma LayerMatchUnique(s: string, n: nat, n': nat)
    requires LayerMatchesWith(s, n) && LayerMatchesWith(s, n')
    ensures n == n'
  {
  }

  lemma LayerMatchesExtend(x: string, rest: string)
    requires LayerMatchesWith(x, |x|)
    ensures LayerMatchesWith(x + rest, |x|)
  {
    assert (x + rest)[..10] == x[..10];
    assert (x + rest)[10..|x| - 1] == x[10..|x| - 1];
  }

  /** A layer text at the front is taken whole, and scanning goes on after it. */
  lemma ScanLayersTake(x: string, rest: string)
    requires LayerMatchesWith(x, |x|)
    ensures ScanLayers(x + rest) == [x] + ScanLayers(rest)
  {
    var s := x + rest;
    LayerMatchesExtend(x, rest);
    LayerMatchUnique(s, LayerMatch(s).value, |x|);
    assert s[..|x|] == x && s[|x|..] == rest;
  }

  /** Text without an `L` holds no layer match, so the scan passes over it. */
  lemma {:induction false} ScanLayersSkip(p: string, rest: string)
    requires Avoids(p, 'L')
    ensures ScanLayers(p + rest) == ScanLayers(rest)
  {
    if |p| > 0 {
      var s := p + rest;
      assert s[0] == p[0] != LayerOpen[0];
      assert LayerMatch(s).None?;
      assert ScanLayers(s) == ScanLayers(s[1..]);
      assert s[1..] == p[1..] + rest;
      ScanLayersSkip(p[1..], rest);
    } else {
      assert p + rest == rest;
    }
  }

  /** Layer texts joined by `, ` and followed by text without an `L` scan back to the layer texts. */
  lemma {:induction false} ScanLayersJoin(xs: seq<string>, tail: string)
    requires forall i :: 0 <= i < |xs| ==> LayerMatchesWith(xs[i], |xs[i]|)
    requires Avoids(tail, 'L')
    ensures ScanLayers(Join(xs, ", ") + tail) == xs
  {
    if |xs| == 0 {
      ScanLayersSkip(tail, "");
      assert tail + "" == tail;
      assert Join(xs, ", ") + tail == tail;
    } else if |xs| == 1 {
      ScanLayersSkip(tail, "");
      assert tail + "" == tail;
      ScanLayersTake(xs[0], tail);
    } else {
      var more := Join(xs[1..], ", ") + tail;
      assert Join(xs, ", ") == xs[0] + ", " + Join(xs[1..], ", ");
      assert Join(xs, ", ") + tail == xs[0] + (", " + more);
      ScanLayersTake(xs[0], ", " + more);
      ScanLayersSkip(", ", more);
      assert forall i :: 0 <= i < |xs[1..]| ==> xs[1..][i] == xs[i + 1];
      ScanLayersJoin(xs[1..], tail);
      assert [xs[0]] + xs[1..] == xs;
    }
  }

  /** No character of `s` can begin one of the alternatives. */
  predicate NoKindStart(s: string) {
    forall k :: 0 <= k < |s| ==> s[k] != 'R' && s[k] != 'L' && s[k] != 'S'
  }

  /** A neuron match has one length and one reading: the digit run stops at the first `)`. */
  lemma NeuronMatchUnique(s: string, n: nat, e: Entry, n': nat, e': Entry)
    requires NeuronMatchesWith(s, n, e) && NeuronMatchesWith(s, n', e')
    ensures n == n' && e == e'
  {
    KindsExclusive(s, e.kind, e'.kind);
  }

  lemma NeuronMatchesExtend(t: string, e: Entry, rest: string)
    requires NeuronMatchesWith(t, |t|, e)
    ensures NeuronMatchesWith(t + rest, |t|, e)
  {
    assert (t + rest)[..|e.kind|] == t[..|e.kind|];
    assert (t + rest)[|e.kind| + 1..|t| - 1] == t[|e.kind| + 1..|t| - 1];
  }

  /** A neuron token at the front is read as its entry, and scanning goes on after it. */
  lemma ScanNeuronsTake(t: string, e: Entry, rest: string)
    requires NeuronMatchesWith(t, |t|, e)
    ensures ScanNeurons(t + rest) == [e] + ScanNeurons(rest)
  {
    var s := t + rest;
    NeuronMatchesExtend(t, e, rest);
    NeuronMatchComplete(s);
    NeuronMatchUnique(s, NeuronMatch(s).value.size, NeuronMatch(s).value.entry, |t|, e);
    assert s[|t|..] == rest;
  }

  /** Text in which no alternative can begin is passed over. */
  lemma {:induction false} ScanNeuronsSkip(p: string, rest: string)
    requires NoKindStart(p)
    ensures ScanNeurons(p + rest) == ScanNeurons(rest)
  {
    if |p| > 0 {
      var s := p + rest;
      assert s[0] == p[0];
      assert NameAt(s).None? by {
        assert Kinds[0][0] == 'R' && Kinds[1][0] == 'L' && Kinds[2][0] == 'S' && Kinds[3][0] == 'S';
      }
      assert ScanNeurons(s) == ScanNeurons(s[1..]);
      assert s[1..] == p[1..] + rest;
      ScanNeuronsSkip(p[1..], rest);
    } else {
      assert p + rest == rest;
    }
  }

  /** The opening `Layer of [` holds no token: its `L` is followed by `a`, not by `INEAR`. */
  lemma ScanNeuronsOpening(rest: string)
    ensures ScanNeurons(LayerOpen + rest) == ScanNeurons(rest)
  {
    var s := LayerOpen + rest;
    assert s[0] == 'L' && s[1] == 'a';
    assert NameAt(s).None? by {
      assert Kinds[0][0] == 'R' && Kinds[1][1] == 'I' && Kinds[2][0] == 'S' && Kinds[3][0] == 'S';
    }
    assert s[1..] == "ayer of [" + rest;
    ScanNeuronsSkip("ayer of [", rest);
  }

  /** The entries the recognised pieces read as, in order. */
  function Somes(os: seq<Option<Entry>>): (r: seq<Entry>)
    ensures |r| <= |os|
  {
    if |os| == 0 then []
    else (if os[0].Some? then [os[0].value] else []) + Somes(os[1..])
  }

  /** A piece of text that reads as the entry `o`, or, when `o` is `None`, holds no token at all. */
  predicate ReadsAs(t: string, o: Option<Entry>) {
    if o.Some? then NeuronMatchesWith(t, |t|, o.value) else NoKindStart(t)
  }

  /** One piece at the front contributes its entry, if it has one. */
  lemma ScanNeuronsPiece(t: string, o: Option<Entry>, more: string)
    requires ReadsAs(t, o)
    ensures ScanNeurons(t + more) == (if o.Some? then [o.value] else []) + ScanNeurons(more)
  {
    if o.Some? {
      ScanNeuronsTake(t, o.value, more);
    } else {
      ScanNeuronsSkip(t, more);
      assert [] + ScanNeurons(more) == ScanNeurons(more);
    }
  }

  /** Pieces joined by `, ` and followed by text where no token begins read as their entries. */
  lemma {:induction false} ScanNeuronsJoin(ts: seq<string>, os: seq<Option<Entry>>, tail: string)
    requires |ts| == |os| && forall i :: 0 <= i < |ts| ==> ReadsAs(ts[i], os[i])
    requires NoKindStart(tail)
    ensures ScanNeurons(Join(ts, ", ") + tail) == Somes(os)
  {
    if |ts| == 0 {
      assert Join(ts, ", ") + tail == tail + "";
      ScanNeuronsSkip(tail, "");
    } else if |ts| == 1 {
      assert Join(ts, ", ") + tail == ts[0] + tail;
      assert tail + "" == tail;
      ScanNeuronsSkip(tail, "");
      ScanNeuronsPiece(ts[0], os[0], tail);
      assert Somes(os) == (if os[0].Some? then [os[0].value] else []) + Somes(os[1..]);
    } else {
      forall i | 0 <= i < |ts| - 1 ensures ReadsAs(ts[1..][i], os[1..][i]) {
        assert ts[1..][i] == ts[i + 1] && os[1..][i] == os[i + 1];
      }
      ScanNeuronsJoin(ts[1..], os[1..], tail);
      ScanNeuronsJoinStep(ts, os, tail);
    }
  }

  /** The step of the join: the first piece, the separator, then the rest as already scanned. */
  lemma ScanNeuronsJoinStep(ts: seq<string>, os: seq<Option<Entry>>, tail: string)
    requires |ts| == |os| > 1 && ReadsAs(ts[0], os[0])
    requires ScanNeurons(Join(ts[1..], ", ") + tail) == Somes(os[1..])
    ensures ScanNeurons(Join(ts, ", ") + tail) == Somes(os)
  {
    var rest := Join(ts[1..], ", ") + tail;
    assert Join(ts, ", ") + tail == ts[0] + (", " + rest);
    ScanNeuronsSkip(", ", rest);
    ScanNeuronsPiece(ts[0], os[0], ", " + rest);
  }

  // ---------------------------------------------------------------------------------------
  // Round trip with `toString`
  // ---------------------------------------------------------------------------------------

  /** The entry a neuron's `toString()` reads as, when its name is one of the alternatives. */
  function EntryOf(n: Neuron): Option<Entry> {
    var kind := Upper(n.activation) + "Neuron";
    if kind in Kinds then Some(Entry(kind, |n.weights|)) else None
  }

  /** A neuron whose upper-cased activation has no `R`, `L`, `S` or `]`, such as `tanh`: its text holds no token. */
  predicate Silent(n: Neuron) {
    NoKindStart(Upper(n.activation)) && Avoids(Upper(n.activation), ']')
  }

  /** A neuron the parser either reads or passes over without disturbing the layer. */
  predicate Legible(n: Neuron) {
    EntryOf(n).Some? || Silent(n)
  }

  /** Every layer has a neuron, and every neuron is legible. */
  predicate Drawable(q: Sequential) {
    forall i :: 0 <= i < |q.layers| ==>
      |q.layers[i].neurons| > 0 && forall j :: 0 <= j < |q.layers[i].neurons| ==> Legible(q.layers[i].neurons[j])
  }

  function EntryOfs(ns: seq<Neuron>): (r: seq<Option<Entry>>)
    ensures |r| == |ns| && forall j :: 0 <= j < |ns| ==> r[j] == EntryOf(ns[j])
  {
    seq(|ns|, j requires 0 <= j < |ns| => EntryOf(ns[j]))
  }

  /** The structure a model describes: per layer, the entries of its recognised neurons in order. */
  function Described(q: Sequential): (r: seq<seq<Entry>>)
    ensures |r| == |q.layers| && forall i :: 0 <= i < |q.layers| ==> r[i] == Somes(EntryOfs(q.layers[i].neurons))
  {
    seq(|q.layers|, i requires 0 <= i < |q.layers| => Somes(EntryOfs(q.layers[i].neurons)))
  }

  lemma {:induction false} JoinAvoids(xs: seq<string>, sep: string, c: char)
    requires Avoids(sep, c) && forall i :: 0 <= i < |xs| ==> Avoids(xs[i], c)
    ensures Avoids(Join(xs, sep), c)
  {
    if |xs| > 1 {
      JoinAvoids(xs[1..], sep, c);
      var j := Join(xs[1..], sep);
      assert forall k :: 0 <= k < |xs[0] + sep + j| ==>
        (xs[0] + sep + j)[k] == if k < |xs[0]| then xs[0][k] else if k < |xs[0]| + |sep| then sep[k - |xs[0]|] else j[k - |xs[0]| - |sep|];
    }
  }

  lemma JoinNonEmpty(xs: seq<string>, sep: string)
    requires |xs| > 0
    ensures |Join(xs, sep)| >= |xs[0]|
  {
  }

  /** `k(d)` as characters: `k`, then `(`, then the digits, then `)`. */
  lemma TokenLayout(k: string, d: string)
    ensures |k + "(" + d + ")"| == |k| + |d| + 2
    ensures forall i :: 0 <= i < |k| + |d| + 2 ==>
              (k + "(" + d + ")")[i] == if i < |k| then k[i] else if i == |k| then '(' else if i < |k| + |d| + 1 then d[i - |k| - 1] else ')'
    ensures (k + "(" + d + ")")[..|k|] == k && (k + "(" + d + ")")[|k| + 1..|k| + |d| + 1] == d
  {
  }

  /** No alternative holds a `]`. */
  lemma KindsAvoidBracket(k: string)
    requires k in Kinds
    ensures Avoids(k, ']')
  {
    var i :| 0 <= i < |Kinds| && Kinds[i] == k;
    if i == 0 {
      assert Avoids("RELUNeuron", ']');
    } else if i == 1 {
      assert Avoids("LINEARNeuron", ']');
    } else if i == 2 {
      assert Avoids("SOFTMAXNeuron", ']');
    } else {
      assert Avoids("SIGMOIDNeuron", ']');
    }
  }

  /** The text of a recognised neuron reads as its entry, and holds no `]`. */
  lemma RecognisedText(n: Neuron)
    requires EntryOf(n).Some?
    ensures ReadsAs(Neurons.ToString(n), EntryOf(n)) && Avoids(Neurons.ToString(n), ']')
  {
    var d := NatToString(|n.weights|);
    var k := Upper(n.activation) + "Neuron";
    var t := Neurons.ToString(n);
    assert t == k + "(" + d + ")";
    TokenLayout(k, d);
    KindsAvoidBracket(k);
    DigitsValueOfNat(|n.weights|);
  }

  /** The text of a silent neuron holds no token and no `]`. */
  lemma SilentText(n: Neuron)
    requires Silent(n)
    ensures NoKindStart(Neurons.ToString(n)) && Avoids(Neurons.ToString(n), ']')
  {
    var u := Upper(n.activation);
    var d := NatToString(|n.weights|);
    var k := u + "Neuron";
    assert Neurons.ToString(n) == k + "(" + d + ")";
    TokenLayout(k, d);
    assert forall i :: 0 <= i < |k| ==> k[i] == if i < |u| then u[i] else "Neuron"[i - |u|];
  }

  /** The text of a legible neuron reads as its entry, and holds no `]`. */
  lemma NeuronTextReads(n: Neuron)
    requires Legible(n)
    ensures ReadsAs(Neurons.ToString(n), EntryOf(n)) && Avoids(Neurons.ToString(n), ']')
  {
    if EntryOf(n).Some? {
      RecognisedText(n);
    } else {
      SilentText(n);
    }
  }

  /** A layer of legible neurons prints as a layer match that reads back as its recognised entries. */
  lemma LayerTextReads(l: Layer)
    requires |l.neurons| > 0 && forall j :: 0 <= j < |l.neurons| ==> Legible(l.neurons[j])
    ensures LayerMatchesWith(Layers.ToString(l), |Layers.ToString(l)|)
    ensures ScanNeurons(Layers.ToString(l)) == Somes(EntryOfs(l.neurons))
  {
    var ts := NeuronStrings(l.neurons);
    var os := EntryOfs(l.neurons);
    forall j | 0 <= j < |ts| ensures ReadsAs(ts[j], os[j]) && Avoids(ts[j], ']') {
      NeuronTextReads(l.neurons[j]);
    }
    var body := Join(ts, ", ");
    JoinAvoids(ts, ", ", ']');
    JoinNonEmpty(ts, ", ");
    NeuronTextReads(l.neurons[0]);
    var x := Layers.ToString(l);
    assert x == LayerOpen + (body + "]");
    assert x[10..|x| - 1] == body;
    assert x[..10] == LayerOpen;
    ScanNeuronsOpening(body + "]");
    ScanNeuronsJoin(ts, os, "]");
  }

  /** The layer scan of a drawable model's text finds exactly its layers' texts. */
  lemma ScanModelText(q: Sequential)
    requires Drawable(q)
    ensures ScanLayers(Sequentials.ToString(q)) == LayerStrings(q.layers)
  {
    var xs := LayerStrings(q.layers);
    forall i | 0 <= i < |xs| ensures LayerMatchesWith(xs[i], |xs[i]|) {
      LayerTextReads(q.layers[i]);
    }
    var j := Join(xs, ", ");
    assert Sequentials.ToString(q) == "Sequential of [" + (j + "]");
    ScanLayersSkip("Sequential of [", j + "]");
    ScanLayersJoin(xs, "]");
  }

  /**
   * `parseStructure(model.toString())` for a drawable model with at least one layer: it
   * succeeds exactly when every layer has a recognised neuron, and then gives, per layer, the
   * entries of the recognised neurons in order; a `tanh` neuron, say, leaves no entry.
   */
  lemma ParseToString(q: Sequential)
    requires |q.layers| > 0 && Drawable(q)
    ensures ParseStructure(Sequentials.ToString(q)).Ok? <==>
              forall i :: 0 <= i < |q.layers| ==> |Described(q)[i]| > 0
    ensures ParseStructure(Sequentials.ToString(q)).Ok? ==> ParseStructure(Sequentials.ToString(q)).value == Described(q)
  {
    ScanModelText(q);
    forall i | 0 <= i < |q.layers|
      ensures ScanNeurons(LayerStrings(q.layers)[i]) == Described(q)[i]
    {
      LayerTextReads(q.layers[i]);
    }
  }

  /** With only relu, linear, softmax and sigmoid neurons, every neuron comes back as one entry. */
  lemma {:induction false} SomesAll(os: seq<Option<Entry>>)
    requires forall j :: 0 <= j < |os| ==> os[j].Some?
    ensures |Somes(os)| == |os| && forall j :: 0 <= j < |os| ==> Somes(os)[j] == os[j].value
  {
    if |os| > 0 {
      SomesAll(os[1..]);
      assert forall j :: 1 <= j < |os| ==> os[1..][j - 1] == os[j];
    }
  }

  /**
   * The documented round trip: a model whose every layer has neurons and whose every neuron is
   * relu, linear, softmax or sigmoid parses back to one `{ ACTNeuron, weight count }` per neuron.
   */
  lemma ParseRecognised(q: Sequential)
    requires |q.layers| > 0
    requires forall i :: 0 <= i < |q.layers| ==>
               |q.layers[i].neurons| > 0 && forall j :: 0 <= j < |q.layers[i].neurons| ==> EntryOf(q.layers[i].neurons[j]).Some?
    ensures ParseStructure(Sequentials.ToString(q)).Ok?
    ensures |ParseStructure(Sequentials.ToString(q)).value| == |q.layers|
    ensures forall i :: 0 <= i < |q.layers| ==>
              && |ParseStructure(Sequentials.ToString(q)).value[i]| == |q.layers[i].neurons|
              && forall j :: 0 <= j < |q.layers[i].neurons| ==>
                   ParseStructure(Sequentials.ToString(q)).value[i][j]
                   == Entry(Upper(q.layers[i].neurons[j].activation) + "Neuron", |q.layers[i].neurons[j].weights|)
  {
    forall i | 0 <= i < |q.layers|
      ensures |Described(q)[i]| == |q.layers[i].neurons|
      ensures forall j :: 0 <= j < |q.layers[i].neurons| ==> Described(q)[i][j] == EntryOf(q.layers[i].neurons[j]).value
    {
      SomesAll(EntryOfs(q.layers[i].neurons));
    }
    ParseToString(q);
  }

  /** A model without layers prints as `Sequential of []`, which holds no layer match. */
  lemma ParseEmptyModel()
    ensures ParseStructure(Sequentials.ToString(Sequential([]))) == Err(NoMatch)
  {
    assert Sequentials.ToString(Sequential([])) == "Sequential of []" + "";
    ScanLayersSkip("Sequential of []", "");
  }

  /** Put in front of a parsed model, the input layer has one entry per weight of the first neuron. */
  lemma InputLayerOfModel(q: Sequential)
    requires |q.layers| > 0
    requires forall i :: 0 <= i < |q.layers| ==>
               |q.layers[i].neurons| > 0 && forall j :: 0 <= j < |q.layers[i].neurons| ==> EntryOf(q.layers[i].neurons[j]).Some?
    requires |q.layers[0].neurons[0].weights| <= MaxArrayLength
    ensures ParseStructure(Sequentials.ToString(q)).Ok?
    ensures AddInputLayer(ParseStructure(Sequentials.ToString(q)).value).Ok?
    ensures |AddInputLayer(ParseStructure(Sequentials.ToString(q)).value).value[0]| == |q.layers[0].neurons[0].weights|
  {
    ParseRecognised(q);
  }
}
