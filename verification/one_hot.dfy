/**
 * The one-hot helpers: `encode` writes a class label as a vector with a single 1, and
 * `decode` reads back the index of the largest entry.
 */
module OneHot {
  import opened Results

  /** An element of a JavaScript array: a number, or a hole no write ever reached. */
  datatype Slot = Number(x: real) | Hole

  /** The largest array index, 2^32 - 2; a larger or negative key names an ordinary property. */
  const MaxIndex: int := 0xFFFF_FFFE

  predicate IsIndex(cls: int) {
    0 <= cls <= MaxIndex
  }

  /**
   * `encode(label, numClasses)`: `Array(numClasses).fill(0)`, then `encoding[label] = 1`.
   * A label that is not an array index sets a property and leaves the zeros alone; an index
   * at or past the end grows the array to `label + 1`, with holes before the new 1.
   */
  function Encode(cls: int, n: nat): (r: Result<seq<Slot>>)
    ensures r.Err? <==> n > MaxIndex + 1
    ensures r.Err? ==> r.error == InvalidArrayLength
    ensures r.Ok? && IsIndex(cls) ==>
              && |r.value| == (if cls < n then n else cls + 1)
              && r.value[cls] == Number(1.0)
              && forall i :: 0 <= i < |r.value| && i != cls ==>
                   r.value[i] == if i < n then Number(0.0) else Hole
    ensures r.Ok? && !IsIndex(cls) ==>
              |r.value| == n && forall i :: 0 <= i < n ==> r.value[i] == Number(0.0)
  {
    if n > MaxIndex + 1 then Err(InvalidArrayLength)
    else
      var zeros := seq(n, _ => Number(0.0));
      if !IsIndex(cls) then Ok(zeros)
      else if cls < n then Ok(zeros[cls := Number(1.0)])
      else Ok(zeros + seq(cls - n, _ => Hole) + [Number(1.0)])
  }

  predicate Numeric(s: seq<Slot>) {
    forall i :: 0 <= i < |s| ==> s[i].Number?
  }

  function Numbers(s: seq<Slot>): (r: seq<real>)
    requires Numeric(s)
    ensures |r| == |s| && forall i :: 0 <= i < |s| ==> r[i] == s[i].x
  {
    seq(|s|, i requires 0 <= i < |s| => s[i].x)
  }

  // ---------------------------------------------------------------------------------------
  // decode
  // ---------------------------------------------------------------------------------------

  /** `Math.max` of a non-empty list of numbers. */
  function Max(xs: seq<real>): (r: real)
    requires |xs| > 0
    ensures (exists i :: 0 <= i < |xs| && xs[i] == r) && forall i :: 0 <= i < |xs| ==> xs[i] <= r
  {
    if |xs| == 1 then xs[0]
    else
      var m := Max(xs[..|xs| - 1]);
      assert forall i :: 0 <= i < |xs| - 1 ==> xs[..|xs| - 1][i] == xs[i];
      if m < xs[|xs| - 1] then xs[|xs| - 1] else m
  }

  /** `xs.indexOf(x, from)`: the first position at or after `from` holding `x`, or -1. */
  function IndexOf(xs: seq<real>, x: real, from: nat): (r: int)
    requires from <= |xs|
    ensures r == -1 <==> forall i :: from <= i < |xs| ==> xs[i] != x
    ensures r != -1 ==> from <= r < |xs| && xs[r] == x && forall i :: from <= i < r ==> xs[i] != x
    decreases |xs| - from
  {
    if from == |xs| then -1
    else if xs[from] == x then from
    else IndexOf(xs, x, from + 1)
  }

  /** `r` is the first position of a largest entry. */
  predicate FirstMax(xs: seq<real>, r: int) {
    && 0 <= r < |xs|
    && (forall i :: 0 <= i < |xs| ==> xs[i] <= xs[r])
    && (forall i :: 0 <= i < r ==> xs[i] < xs[r])
  }

  /**
   * `decode(probs)`: `probs.indexOf(Math.max(...probs))`. With no entries `Math.max` is
   * `-Infinity`, which no entry equals. A hole spreads as `undefined`, so `Math.max` is `NaN`,
   * which `indexOf` never finds.
   */
  function Decode(probs: seq<Slot>): (r: int)
    ensures r == -1 <==> |probs| == 0 || !Numeric(probs)
    ensures r != -1 ==> FirstMax(Numbers(probs), r)
  {
    if |probs| == 0 || !Numeric(probs) then -1
    else
      var xs := Numbers(probs);
      IndexOf(xs, Max(xs), 0)
  }

  /** At most one position is the first of a largest entry. */
  lemma FirstMaxUnique(xs: seq<real>, r: int, r': int)
    requires FirstMax(xs, r) && FirstMax(xs, r')
    ensures r == r'
  {
    assert xs[r] == xs[r'];
  }

  /** A single pass that keeps the first largest entry seen so far. */
  method ArgMax(xs: seq<real>) returns (r: int)
    ensures |xs| == 0 ==> r == -1
    ensures |xs| > 0 ==> FirstMax(xs, r)
  {
    if |xs| == 0 {
      return -1;
    }
    r := 0;
    var i := 1;
    while i < |xs|
      invariant 1 <= i <= |xs|
      invariant FirstMax(xs[..i], r)
    {
      if xs[r] < xs[i] {
        r := i;
      }
      i := i + 1;
    }
    assert xs[..i] == xs;
  }

  /** The pass computes `decode` on a list of numbers. */
  lemma ArgMaxIsDecode(probs: seq<Slot>, r: int)
    requires Numeric(probs) && (|probs| == 0 ==> r == -1) && (|probs| > 0 ==> FirstMax(Numbers(probs), r))
    ensures Decode(probs) == r
  {
    if |probs| > 0 {
      FirstMaxUnique(Numbers(probs), Decode(probs), r);
    }
  }

  /**
   * `decode(encode(label, n))`: the label back for every label up to `n` (at `n` itself the
   * array grew by one entry, without a hole); -1 past that, where holes appear; and for a
   * label that is not an index, position 0 of the zeros, or -1 when there are none.
   */
  lemma {:induction false} DecodeEncode(cls: int, n: nat)
    requires n <= MaxIndex + 1
    ensures Decode(Encode(cls, n).value) ==
              if IsIndex(cls) then (if cls <= n then cls else -1)
              else (if n > 0 then 0 else -1)
  {
    var e := Encode(cls, n).value;
    if IsIndex(cls) && cls <= n {
      assert Numeric(e);
      assert FirstMax(Numbers(e), cls);
      FirstMaxUnique(Numbers(e), Decode(e), cls);
    } else if IsIndex(cls) {
      assert e[n].Hole?;
    } else if n > 0 {
      assert Numeric(e);
      assert FirstMax(Numbers(e), 0);
      FirstMaxUnique(Numbers(e), Decode(e), 0);
    }
  }

  /** The documented use: every class label in range comes back. */
  lemma DecodeEncodeInRange(cls: nat, n: nat)
    requires cls < n <= MaxIndex + 1
    ensures Encode(cls, n).Ok? && Decode(Encode(cls, n).value) == cls
  {
    DecodeEncode(cls, n);
  }
}
