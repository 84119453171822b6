/**
 * Number handling shared by every node: the `toFixed(8)` rounding applied to
 * each new node's data, and the floating-point library functions the engine calls.
 */
module Precision {

  const Scale: real := 100000000.0     // 10^8: eight decimal places
  const Epsilon: real := 0.00000001    // the default `log` epsilon, 1e-8
  const ExponentialThreshold: real := 1000000000000000000000.0  // 10^21

  /** `toFixed(8)` for a non-negative argument below 10^21: nearest multiple of 10^-8, ties upward. */
  function RoundMagnitude(x: real): real
    requires 0.0 <= x
  {
    ((x * Scale + 0.5).Floor as real) / Scale
  }

  /**
   * `+value.toFixed(8)` on exact reals: the sign is split off first, so ties round away
   * from zero; magnitudes of at least 10^21 are printed exponentially and come back unchanged.
   */
  function ToFixed8(x: real): real {
    if x < 0.0 then
      (if -x >= ExponentialThreshold then x else -RoundMagnitude(-x))
    else
      (if x >= ExponentialThreshold then x else RoundMagnitude(x))
  }

  /** A multiple of 10^-8: the values `toFixed(8)` produces. */
  ghost predicate Decimal8(x: real) {
    exists k: int {:trigger k as real / Scale} :: x == k as real / Scale
  }

  lemma RoundMagnitudeOfMultiple(k: nat)
    ensures RoundMagnitude(k as real / Scale) == k as real / Scale
  {
    assert (k as real / Scale) * Scale + 0.5 == k as real + 0.5;
    assert (k as real + 0.5).Floor == k;
  }

  /** Rounding leaves a multiple of 10^-8 unchanged. */
  lemma RoundFixesDecimal(k: int)
    ensures ToFixed8(k as real / Scale) == k as real / Scale
  {
    if k < 0 {
      var m: nat := -k;
      assert -(k as real / Scale) == m as real / Scale;
      RoundMagnitudeOfMultiple(m);
    } else {
      RoundMagnitudeOfMultiple(k);
    }
  }

  /** `toFixed(8)` fixes every integer, so integer-valued tests are exact. */
  lemma RoundFixesInteger(n: int)
    ensures ToFixed8(n as real) == n as real
  {
    assert n as real == (n * 100000000) as real / Scale;
    RoundFixesDecimal(n * 100000000);
  }

  /** Every rounded value is a multiple of 10^-8 or a magnitude of at least 10^21. */
  lemma RoundIsDecimal(x: real)
    ensures Decimal8(ToFixed8(x)) || (x == ToFixed8(x) && (x >= ExponentialThreshold || -x >= ExponentialThreshold))
  {
    if x < 0.0 {
      if -x < ExponentialThreshold {
        var k := (-x * Scale + 0.5).Floor;
        assert ToFixed8(x) == (-k) as real / Scale;
      }
    } else if x < ExponentialThreshold {
      var k := (x * Scale + 0.5).Floor;
      assert ToFixed8(x) == k as real / Scale;
    }
  }

  /** Rounding twice is rounding once. */
  lemma RoundIdempotent(x: real)
    ensures ToFixed8(ToFixed8(x)) == ToFixed8(x)
  {
    RoundIsDecimal(x);
    if Decimal8(ToFixed8(x)) {
      var k: int :| ToFixed8(x) == k as real / Scale;
      RoundFixesDecimal(k);
    }
  }

  /** Rounding is odd: the sign is handled before the digits are chosen. */
  lemma RoundOdd(x: real)
    ensures ToFixed8(-x) == -ToFixed8(x)
  {
    if x == 0.0 {
      assert -x == 0.0;
    }
  }

  /** Rounding moves a value below 10^21 by at most half a unit in the eighth place. */
  lemma RoundError(x: real)
    ensures -0.000000005 <= ToFixed8(x) - x <= 0.000000005
  {
    if x < 0.0 {
      if -x < ExponentialThreshold {
        var y := -x * Scale + 0.5;
        assert y - 1.0 < y.Floor as real <= y;
      }
    } else if x < ExponentialThreshold {
      var y := x * Scale + 0.5;
      assert y - 1.0 < y.Floor as real <= y;
    }
  }

  /**
   * What the engine takes from its runtime: `limitPrecision` (modelled by `round`; `toFixed(8)` is
   * `ToFixed8`), and `Math.exp`, `Math.log` and the `**` and `*` operators, whose IEEE behaviour
   * is not modelled. Lemmas that rely on products being real products ask for `ExactProducts`.
   */
  datatype Numerics = Numerics(round: real -> real, exp: real -> real, ln: real -> real, pow: (real, real) -> real,
                              times: (real, real) -> real)

  /** The runtime's `limitPrecision` is exactly `toFixed(8)` on reals. */
  ghost predicate RoundsToFixed8(m: Numerics) {
    forall x: real :: m.round(x) == ToFixed8(x)
  }

  /** The runtime's `*` is the product of reals. */
  ghost predicate ExactProducts(m: Numerics) {
    forall x: real, y: real :: m.times(x, y) == x * y
  }

  /** Rounding ignored: `limitPrecision` returns its argument. */
  ghost predicate ExactRounding(m: Numerics) {
    forall x: real :: m.round(x) == x
  }

  /** What every correct `Math.exp` satisfies. */
  ghost predicate ExpPositive(m: Numerics) {
    forall x: real :: m.exp(x) > 0.0
  }

  /** `x ** -1` is the reciprocal of a non-zero `x` (exact reals). */
  ghost predicate PowReciprocal(m: Numerics) {
    forall x: real :: x != 0.0 ==> m.pow(x, -1.0) * x == 1.0
  }

  /** Each number, rounded as `new Value` rounds it. */
  function Rounded(m: Numerics, ys: seq<real>): (r: seq<real>)
    ensures |r| == |ys| && forall i :: 0 <= i < |ys| ==> r[i] == m.round(ys[i])
  {
    seq(|ys|, i requires 0 <= i < |ys| => m.round(ys[i]))
  }

  /** JavaScript division on reals; a zero divisor (an IEEE infinity or NaN) is taken as 0. */
  function Quot(x: real, y: real): (r: real)
    ensures y != 0.0 ==> r * y == x
  {
    if y == 0.0 then 0.0 else x / y
  }
}
