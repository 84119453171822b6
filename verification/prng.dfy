/**
 * The seeded pseudo-random generator: splitmix32 over a 32-bit state. Every step is 32-bit
 * integer code, so the state is held as its unsigned residue and the mixing is done in `bv32`.
 */
module Prng {
  import opened Expectations

  const TwoTo32: int := 0x1_0000_0000

  /** The golden-ratio increment added to the state before each output. */
  const Increment: int := 0x9e3779b9

  type Uint32 = x: int | 0 <= x < TwoTo32

  /** The integer part of a number, rounded toward zero, as `ToUint32` takes it. */
  function Trunc(x: real): (r: int)
    ensures x >= 0.0 ==> r as real <= x < r as real + 1.0
    ensures x < 0.0 ==> r as real - 1.0 < x <= r as real
  {
    if x >= 0.0 then x.Floor else -((-x).Floor)
  }

  /** `x >>> 0` on a finite number: its integer part, taken modulo 2^32. */
  function ToUint32(x: real): Uint32 {
    Trunc(x) % TwoTo32
  }

  /** A generator is the closure's captured state `a`. */
  datatype Generator = Generator(a: Uint32)

  /**
   * `prng(seed)`: `splitmix32((seed * 2 ** 32) >>> 0)`. Scaling by 2^32 before the
   * conversion shifts every integer part of the seed out of the low 32 bits.
   */
  function New(seed: real): Generator {
    Generator(ToUint32(seed * TwoTo32 as real))
  }

  /** `(a + 0x9e3779b9) | 0`, as an unsigned residue. */
  function Advance(a: Uint32): (r: Uint32)
    ensures r == (a + Increment) % TwoTo32
  {
    (a + Increment) % TwoTo32
  }

  /** The output mix: xor-shift 16, `Math.imul` by 0x21f0aaad, xor-shift 15, `Math.imul` by 0x735a2d97, xor-shift 15. */
  function Mix(a: bv32): bv32 {
    var t := a ^ (a >> 16);
    var t := t * 0x21f0aaad;
    var t := t ^ (t >> 15);
    var t := t * 0x735a2d97;
    t ^ (t >> 15)
  }

  /** `k / 4294967296` for the unsigned word `k`. */
  function Unit(k: bv32): (r: real)
    ensures 0.0 <= r < 1.0
    ensures r * TwoTo32 as real == k as int as real
  {
    (k as int) as real / TwoTo32 as real
  }

  /** The number a call returns once the state has become `a`. */
  function Output(a: Uint32): (r: real)
    ensures 0.0 <= r < 1.0
  {
    Unit(Mix(a as bv32))
  }

  datatype Draw = Draw(next: Generator, value: real)

  /** One call of the generator: advance the state, then mix it into a number in [0, 1). */
  function Call(gen: Generator): (r: Draw)
    ensures r.next.a == (gen.a + Increment) % TwoTo32
    ensures 0.0 <= r.value < 1.0
  {
    var a := Advance(gen.a);
    Draw(Generator(a), Output(a))
  }

  /** The generator after `n` calls. */
  function After(gen: Generator, n: nat): Generator {
    if n == 0 then gen else Generator(Advance(After(gen, n - 1).a))
  }

  /** `n` calls of a generator whose call turns the state it reaches into `out` of that state. */
  function Draws(gen: Generator, n: nat, out: Uint32 -> real): (r: seq<real>)
    ensures |r| == n
    decreases n
  {
    if n == 0 then [] else [out(Advance(gen.a))] + Draws(Generator(Advance(gen.a)), n - 1, out)
  }

  /** `Array.from({ length: n }, generator)`: `n` calls in order. */
  function Stream(gen: Generator, n: nat): (r: seq<real>)
    ensures |r| == n && forall i :: 0 <= i < n ==> 0.0 <= r[i] < 1.0
  {
    var r := Draws(gen, n, Output);
    forall i | 0 <= i < n ensures 0.0 <= r[i] < 1.0 {
      DrawsClosedForm(gen, n, Output, i);
    }
    r
  }

  /** The stream is one call followed by the stream of the generator that call leaves. */
  lemma StreamUnfold(gen: Generator, n: nat)
    requires 0 < n
    ensures Stream(gen, n) == [Call(gen).value] + Stream(Call(gen).next, n - 1)
  {
  }

  lemma AddMod(x: int, c: int)
    ensures (x % TwoTo32 + c) % TwoTo32 == (x + c) % TwoTo32
  {
  }

  /** After `n` calls the state is the start state plus `n` increments, modulo 2^32. */
  lemma {:induction false} AfterClosedForm(gen: Generator, n: nat)
    ensures After(gen, n).a == (gen.a + n * Increment) % TwoTo32
  {
    if n > 0 {
      var j := n - 1;
      AfterClosedForm(gen, j);
      AddMod(gen.a + j * Increment, Increment);
      assert gen.a + j * Increment + Increment == gen.a + n * Increment;
    }
  }

  /** The `i`-th of `n` calls outputs the state reached after `i + 1` calls. */
  lemma {:induction false} DrawsClosedForm(gen: Generator, n: nat, out: Uint32 -> real, i: nat)
    requires i < n
    ensures Draws(gen, n, out)[i] == out(After(gen, i + 1).a)
    decreases n
  {
    if i > 0 {
      DrawsClosedForm(Generator(Advance(gen.a)), n - 1, out, i - 1);
      AfterShift(gen, i);
    }
  }

  /** The `i`-th number drawn mixes the state reached after `i + 1` calls. */
  lemma StreamClosedForm(gen: Generator, n: nat, i: nat)
    requires i < n
    ensures Stream(gen, n)[i] == Output(After(gen, i + 1).a)
  {
    DrawsClosedForm(gen, n, Output, i);
  }

  /** Calling once and then `k` times is calling `k + 1` times. */
  lemma {:induction false} AfterShift(gen: Generator, k: nat)
    ensures After(Call(gen).next, k) == After(gen, k + 1)
  {
    if k > 0 {
      AfterShift(gen, k - 1);
    }
  }

  /** Every integer seed gives the start state 0. */
  lemma IntegerSeedStartsAtZero(seed: int)
    ensures New(seed as real).a == 0
  {
    var x := seed as real * TwoTo32 as real;
    assert x == (seed * TwoTo32) as real;
    assert Trunc(x) == seed * TwoTo32;
  }

  /** So any two integer seeds give the same numbers: `prng(42)` and `prng(1337)` agree. */
  lemma IntegerSeedsAgree(s: int, t: int, n: nat)
    ensures Stream(New(s as real), n) == Stream(New(t as real), n)
  {
    IntegerSeedStartsAtZero(s);
    IntegerSeedStartsAtZero(t);
  }

  /** A seed with a fractional part does reach the state: `prng(0.5)` starts at 2^31. */
  lemma FractionalSeedMatters()
    ensures New(0.5).a == 0x8000_0000
  {
  }

  /** The states seed 42 passes through on its first five calls. */
  lemma SeedFortyTwoStates()
    ensures After(New(42.0), 1).a == 0x9e3779b9 && After(New(42.0), 2).a == 0x3c6ef372
    ensures After(New(42.0), 3).a == 0xdaa66d2b && After(New(42.0), 4).a == 0x78dde6e4
    ensures After(New(42.0), 5).a == 0x1715609d
  {
    IntegerSeedStartsAtZero(42);
    AfterClosedForm(New(42.0), 1);
    AfterClosedForm(New(42.0), 2);
    AfterClosedForm(New(42.0), 3);
    AfterClosedForm(New(42.0), 4);
    AfterClosedForm(New(42.0), 5);
  }

  /**
   * The words those states mix into. Read as fractions of 2^32 they are the first five numbers
   * for seed 42; to two decimals, the tolerance the library's own expectations use, 0.39, 0.85,
   * 0.68, 0.50 and 0.77.
   */
  lemma SeedFortyTwoWords()
    ensures Mix(0x9e3779b9) == 0x64625032 && Mix(0x3c6ef372) == 0xd9c0799c
    ensures Mix(0xdaa66d2b) == 0xaf362e10 && Mix(0x78dde6e4) == 0x7fa88912
    ensures Mix(0x1715609d) == 0xc4671b39
  {
  }

  lemma AsWord(x: Uint32, w: bv32)
    requires x == w as int
    ensures x as bv32 == w
  {
  }

  /** The five words as fractions of 2^32. */
  const SeedFortyTwoFractions: seq<real> :=
    [Unit(0x64625032), Unit(0xd9c0799c), Unit(0xaf362e10), Unit(0x7fa88912), Unit(0xc4671b39)]

  /** The first five numbers for seed 42 are those fractions. */
  lemma SeedFortyTwoStream()
    ensures Stream(New(42.0), 5) == SeedFortyTwoFractions
  {
    var gen := New(42.0);
    SeedFortyTwoStates();
    SeedFortyTwoWords();
    StreamClosedForm(gen, 5, 0);
    AsWord(After(gen, 1).a, 0x9e3779b9);
    StreamClosedForm(gen, 5, 1);
    AsWord(After(gen, 2).a, 0x3c6ef372);
    StreamClosedForm(gen, 5, 2);
    AsWord(After(gen, 3).a, 0xdaa66d2b);
    StreamClosedForm(gen, 5, 3);
    AsWord(After(gen, 4).a, 0x78dde6e4);
    StreamClosedForm(gen, 5, 4);
    AsWord(After(gen, 5).a, 0x1715609d);
  }

  /** The numbers the library expects seed 42 to give first. */
  const SeedFortyTwoExpected: seq<real> := [0.3921251, 0.85059318, 0.68442047, 0.4986653, 0.7671982]

  /** Each of the first five numbers for seed 42 is close to the library's expectation. */
  lemma SeedFortyTwoCloseTo()
    ensures forall i :: 0 <= i < 5 ==> CloseTo(Stream(New(42.0), 5)[i], SeedFortyTwoExpected[i])
  {
    SeedFortyTwoStream();
    SeedFortyTwoFractionsClose();
  }

  /** The five fractions against the expected numbers. */
  lemma SeedFortyTwoFractionsClose()
    ensures forall i :: 0 <= i < 5 ==> CloseTo(SeedFortyTwoFractions[i], SeedFortyTwoExpected[i])
  {
    UnitCloseTo(0x64625032, 1684164658, SeedFortyTwoExpected[0]);
    UnitCloseTo(0xd9c0799c, 3653269916, SeedFortyTwoExpected[1]);
    UnitCloseTo(0xaf362e10, 2939563536, SeedFortyTwoExpected[2]);
    UnitCloseTo(0x7fa88912, 2141751570, SeedFortyTwoExpected[3]);
    UnitCloseTo(0xc4671b39, 3295091513, SeedFortyTwoExpected[4]);
  }

  lemma UnitCloseTo(k: bv32, n: int, e: real)
    requires k as int == n && CloseTo(n as real / TwoTo32 as real, e)
    ensures CloseTo(Unit(k), e)
  {
  }
}
