/**
  The C# and .NET numeric conventions the operator core relies on: 32-bit
  integers with unchecked wrap-around, the `(int)` cast of a double, the
  integer `/` and `%` operators, and the System.Math members whose results
  are exactly determined over the reals. Doubles are modelled as `real`.
*/
module CSharp {

  const Int32Min: int := -0x8000_0000
  const Int32Max: int := 0x7FFF_FFFF
  const TwoTo32: int := 0x1_0000_0000

  predicate IsInt32(n: int) {
    Int32Min <= n <= Int32Max
  }

  /** Unchecked 32-bit arithmetic: `n` reduced modulo 2^32 into the int range. */
  function Wrap32(n: int): (r: int)
    ensures IsInt32(r)
    ensures IsInt32(n) ==> r == n
  {
    (n - Int32Min) % TwoTo32 + Int32Min
  }

  /** Wrapping changes a value by a multiple of 2^32 only. */
  lemma Wrap32Congruent(n: int)
    ensures (Wrap32(n) - n) % TwoTo32 == 0
  {
  }

  /** Wrapping an intermediate sum does not change the wrapped total. */
  lemma Wrap32AddAbsorbs(x: int, y: int)
    ensures Wrap32(Wrap32(x) + y) == Wrap32(x + y)
  {
    var q := (x - Int32Min) / TwoTo32;
    assert Wrap32(x) + y - Int32Min == (x + y - Int32Min) - q * TwoTo32;
    ModSubtractMultiple(x + y - Int32Min, q);
  }

  lemma ModSubtractMultiple(a: int, q: int)
    ensures (a - q * TwoTo32) % TwoTo32 == a % TwoTo32
  {
    var m := a % TwoTo32;
    assert a == (a / TwoTo32) * TwoTo32 + m;
    assert a - q * TwoTo32 == (a / TwoTo32 - q) * TwoTo32 + m;
  }

  /** `(int)x` for a double `x`: the fractional part is discarded, rounding toward zero. */
  function Trunc(x: real): (r: int)
    ensures 0.0 <= x ==> 0 <= r && r as real <= x < r as real + 1.0
    ensures x < 0.0 ==> r <= 0 && r as real - 1.0 < x <= r as real
  {
    if x >= 0.0 then x.Floor else -((-x).Floor)
  }

  /** The doubles whose `(int)` cast is specified: those whose truncation fits in an int. */
  predicate CastDefined(x: real) {
    Int32Min as real - 1.0 < x < Int32Max as real + 1.0
  }

  lemma CastDefinedIffFits(x: real)
    ensures CastDefined(x) <==> IsInt32(Trunc(x))
  {
  }

  function Abs(n: int): (r: nat)
    ensures r == n || r == -n
  {
    if n < 0 then -n else n
  }

  /** Integer `a / b` in C#: the quotient of the magnitudes, with the sign of the operands' product. */
  function Quot(a: int, b: int): (q: int)
    requires b != 0
    ensures q == 0 || ((q < 0) <==> ((a < 0) != (b < 0)))
    ensures Abs(q) == Abs(a) / Abs(b)
  {
    var m := Abs(a) / Abs(b);
    assert 0 <= m by { DivNonNegative(Abs(a), Abs(b)); }
    if (a < 0) == (b < 0) then m else -m
  }

  lemma DivNonNegative(x: nat, y: nat)
    requires 0 < y
    ensures 0 <= x / y
  {
  }

  /** Integer `a % b` in C#: the remainder that goes with the quotient rounded toward zero. */
  function Rem(a: int, b: int): (r: int)
    requires b != 0
    ensures a == b * Quot(a, b) + r
    ensures r == 0 || ((r < 0) <==> (a < 0))
    ensures Abs(r) < Abs(b)
  {
    if a >= 0 then a % Abs(b) else -((-a) % Abs(b))
  }

  /** Math.Abs(double). */
  function RealAbs(x: real): (r: real)
    ensures 0.0 <= r && (r == x || r == -x)
  {
    if x < 0.0 then -x else x
  }

  /** Math.Min(double, double). */
  function Min(a: real, b: real): (r: real)
    ensures r <= a && r <= b
    ensures r == a || r == b
  {
    if a <= b then a else b
  }

  /** Math.Max(double, double). */
  function Max(a: real, b: real): (r: real)
    ensures a <= r && b <= r
    ensures r == a || r == b
  {
    if a >= b then a else b
  }

  /** Math.Round(double): the nearest integer, and the even one of two at equal distance. */
  function RoundToEven(x: real): (r: int)
    ensures -0.5 <= r as real - x <= 0.5
    ensures RealAbs(r as real - x) == 0.5 ==> r % 2 == 0
  {
    var f := x.Floor;
    var d := x - f as real;
    if d < 0.5 then f
    else if d > 0.5 then f + 1
    else if f % 2 == 0 then f else f + 1
  }

  /** double.Epsilon: the smallest positive double, 2^-1074. */
  const DoubleEpsilon: real := 1.0 / 202402253307310618352495346718917307049556649764142118356901358027430339567995346891960383701437124495187077864316811911389808737385793476867013399940738509921517424276566361364466907742093216341239767678472745068562007483424692698618103355649159556340810056512358769552333414615230502532186327508646006263307707741093494784.0

  /** Every finite double is an integer multiple of double.Epsilon. */
  predicate OnDoubleGrid(x: real) {
    (x / DoubleEpsilon).Floor as real == x / DoubleEpsilon
  }

  /**
    On doubles, the test |l - r| < double.Epsilon is exact equality: the
    difference of two multiples of double.Epsilon is smaller than it only
    when it is zero.
  */
  lemma EpsilonEqualityIsExact(l: real, r: real)
    requires OnDoubleGrid(l) && OnDoubleGrid(r)
    ensures RealAbs(l - r) < DoubleEpsilon <==> l == r
  {
    GridDifference(l, r, DoubleEpsilon);
  }

  lemma GridDifference(l: real, r: real, e: real)
    requires e > 0.0
    requires (l / e).Floor as real == l / e && (r / e).Floor as real == r / e
    ensures RealAbs(l - r) < e <==> l == r
  {
    var m := (l / e).Floor - (r / e).Floor;
    assert l - r == (m as real) * e by {
      assert l == (l / e) * e && r == (r / e) * e;
      assert l - r == (l / e - r / e) * e;
    }
    if m != 0 {
      var a := if m > 0 then m as real else -m as real;
      assert RealAbs(l - r) == a * e;
      AtLeastOneTimes(a, e);
    }
  }

  lemma AtLeastOneTimes(a: real, e: real)
    requires 1.0 <= a && 0.0 < e
    ensures e <= a * e
  {
    assert a * e - e == (a - 1.0) * e;
  }

  /** Math.PI: the double nearest to pi, exactly 884279719003555 / 2^48. */
  const MathPI: real := 884279719003555.0 / 281474976710656.0
}
