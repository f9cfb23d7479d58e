/**
  The evaluation of an operator once its operands are known: the pure
  specification `Compute`, the imperative dice loop that consumes the shared
  generator, the dispatch `ComputeOperation`, and what they guarantee.
*/
module Evaluation {
  import opened Exceptions
  import opened Registry
  import opened RandomSource
  import CSharp

  /**
    The System.Math members whose double results are not determined exactly
    over the reals; the model takes them as given functions.
  */
  datatype MathLibrary = MathLibrary(
    pow: (real, real) -> real,
    sqrt: real -> real,
    cos: real -> real,
    sin: real -> real)

  /**
    The operands for which the real-number model describes the double
    computation: a non-zero divisor, `(int)` casts within the int range, and
    a dice count that the int loop counter can reach without wrapping. A
    count beyond that is admitted when the die bound is below 1, since the
    first draw then throws before the counter can wrap.
  */
  predicate Defined(op: Operator, left: real, right: real) {
    match op
    case Div => right != 0.0
    case Mod => CSharp.CastDefined(left) && CSharp.CastDefined(right)
    case Dice =>
      || (left <= CSharp.Int32Max as real && (0.0 < left ==> CSharp.CastDefined(right)))
      || (CSharp.CastDefined(right) && DieBound(right) < 1)
    case _ => true
  }

  /** A comparison result encoded as a number. */
  function BoolAsNumber(b: bool): (r: real)
    ensures r == 1.0 <==> b
    ensures r == 0.0 <==> !b
  {
    if b then 1.0 else 0.0
  }

  /** `(int)left % (int)right`, with the two exceptions the int remainder can raise. */
  function Modulo(left: real, right: real): (r: Result<real>)
    requires CSharp.CastDefined(left) && CSharp.CastDefined(right)
    ensures r == Failure(DivideByZero) <==> CSharp.Trunc(right) == 0
    ensures r == Failure(Overflow) <==> CSharp.Trunc(left) == CSharp.Int32Min && CSharp.Trunc(right) == -1
    ensures r.Success? ==> r.value.Floor as real == r.value
  {
    var a, b := CSharp.Trunc(left), CSharp.Trunc(right);
    if b == 0 then Failure(DivideByZero)
    else if a == CSharp.Int32Min && b == -1 then Failure(Overflow)
    else Success(CSharp.Rem(a, b) as real)
  }

  /** The dice loop's test `i < left`: an int compared with a double. */
  predicate LoopContinues(i: int, left: real) {
    (i as real) < left
  }

  /** How many times the dice loop runs: the number of naturals below `left`. */
  function DrawCount(left: real): (k: nat)
    ensures left <= 0.0 ==> k == 0
    ensures 0.0 < left ==> (k - 1) as real < left <= k as real
  {
    if left <= 0.0 then 0 else -((-left).Floor)
  }

  /** The dice loop runs exactly for the counters below DrawCount(left). */
  lemma DrawCountCountsIterations(left: real, i: nat)
    ensures LoopContinues(i, left) <==> i < DrawCount(left)
  {
  }

  /** `(int)right + 1`, unchecked: the exclusive upper bound passed to Random.Next. */
  function DieBound(right: real): (maxValue: int)
    ensures CSharp.IsInt32(maxValue)
    ensures CSharp.IsInt32(CSharp.Trunc(right) + 1) ==> maxValue == CSharp.Trunc(right) + 1
    ensures CSharp.Trunc(right) == CSharp.Int32Max ==> maxValue == CSharp.Int32Min
  {
    CSharp.Wrap32(CSharp.Trunc(right) + 1)
  }

  /** The highest face a die with exclusive bound `maxValue` can show. */
  function TopFace(maxValue: int): int {
    if maxValue == 1 then 1 else maxValue - 1
  }

  /** The faces drawn by `n` rolls starting at sample `drawn`. */
  function Rolls(samples: Samples, drawn: nat, n: nat, maxValue: int): (ds: seq<int>)
    requires samples.Valid() && 1 <= maxValue
    ensures |ds| == n
  {
    if n == 0 then []
    else Rolls(samples, drawn, n - 1, maxValue) + [samples.Pick(drawn + n - 1, 1, maxValue)]
  }

  /** The dice accumulator `value += face`, with unchecked int addition at every step. */
  function WrapSum(ds: seq<int>): (r: int)
    ensures CSharp.IsInt32(r)
  {
    if ds == [] then 0 else CSharp.Wrap32(WrapSum(ds[..|ds| - 1]) + ds[|ds| - 1])
  }

  /** The true sum of the faces. */
  function Sum(ds: seq<int>): int {
    if ds == [] then 0 else Sum(ds[..|ds| - 1]) + ds[|ds| - 1]
  }

  /** Wrapping at every step is wrapping the true sum once: the total modulo 2^32. */
  lemma {:induction false} WrapSumIsWrappedSum(ds: seq<int>)
    ensures WrapSum(ds) == CSharp.Wrap32(Sum(ds))
  {
    if ds != [] {
      var init := ds[..|ds| - 1];
      WrapSumIsWrappedSum(init);
      CSharp.Wrap32AddAbsorbs(Sum(init), ds[|ds| - 1]);
    }
  }

  /**
    The Dice operator: DrawCount(left) rolls of a die with faces 1 to
    (int)right, summed, the total reduced into the int range.
  */
  function DiceSpec(left: real, right: real, samples: Samples, drawn: nat): (r: Result<real>)
    requires samples.Valid() && Defined(Dice, left, right)
    ensures r.Failure? ==> r.error == ArgumentOutOfRange && 0.0 < left
  {
    var k := DrawCount(left);
    if k == 0 then Success(0.0)
    else
      var maxValue := DieBound(right);
      if maxValue < 1 then Failure(ArgumentOutOfRange)
      else Success(CSharp.Wrap32(Sum(Rolls(samples, drawn, k, maxValue))) as real)
  }

  /**
    ComputeOperation as a function of the operands and of the generator's
    samples from position `drawn` on. Every operator has a case, and only Mod
    and Dice can raise an exception.
  */
  function Compute(op: Operator, left: real, right: real, lib: MathLibrary,
                   samples: Samples, drawn: nat): (r: Result<real>)
    requires samples.Valid() && Defined(op, left, right)
    ensures r.Failure? ==> op == Mod || op == Dice
  {
    match op
    case Add => Success(left + right)
    case Sub => Success(left - right)
    case Mult => Success(left * right)
    case Div => Success(left / right)
    case Mod => Modulo(left, right)
    case Equal => Success(BoolAsNumber(CSharp.RealAbs(left - right) < CSharp.DoubleEpsilon))
    case Pow => Success(lib.pow(left, right))
    case Sqrt => Success(lib.sqrt(left))
    case Cos => Success(lib.cos(left))
    case Sin => Success(lib.sin(left))
    case Abs => Success(CSharp.RealAbs(left))
    case Round => Success(CSharp.RoundToEven(left) as real)
    case Neg => Success(-left)
    case PI => Success(CSharp.MathPI)
    case Min => Success(CSharp.Min(left, right))
    case Max => Success(CSharp.Max(left, right))
    case LT => Success(BoolAsNumber(left < right))
    case LTE => Success(BoolAsNumber(left <= right))
    case GT => Success(BoolAsNumber(left > right))
    case GTE => Success(BoolAsNumber(left >= right))
    case Rand => Success(samples.unit(drawn))
    case Dice => DiceSpec(left, right, samples, drawn)
  }

  lemma DrawCountFitsCounter(left: real)
    requires left <= CSharp.Int32Max as real
    ensures DrawCount(left) <= CSharp.Int32Max
  {
  }

  /** One more roll extends the accumulated sum by its face, with unchecked addition. */
  lemma RollStep(samples: Samples, drawn: nat, i: nat, maxValue: int, value: int, face: int)
    requires samples.Valid() && 1 <= maxValue
    requires i > 0 ==> value == WrapSum(Rolls(samples, drawn, i, maxValue))
    requires i == 0 ==> value == 0
    requires face == samples.Pick(drawn + i, 1, maxValue)
    ensures CSharp.Wrap32(value + face) == WrapSum(Rolls(samples, drawn, i + 1, maxValue))
  {
    var ds := Rolls(samples, drawn, i, maxValue);
    assert Rolls(samples, drawn, i + 1, maxValue) == ds + [face];
    assert (ds + [face])[..|ds|] == ds;
  }

  lemma DiceFailsBeforeDrawing(left: real, right: real, samples: Samples, drawn: nat)
    requires samples.Valid() && Defined(Dice, left, right)
    requires 0 < DrawCount(left) && DieBound(right) < 1
    ensures DiceSpec(left, right, samples, drawn) == Failure(ArgumentOutOfRange)
  {
  }

  lemma DiceSumsTheRolls(left: real, right: real, samples: Samples, drawn: nat)
    requires samples.Valid() && Defined(Dice, left, right)
    requires 0 < DrawCount(left) && 1 <= DieBound(right)
    ensures DiceSpec(left, right, samples, drawn)
         == Success(CSharp.Wrap32(Sum(Rolls(samples, drawn, DrawCount(left), DieBound(right)))) as real)
  {
  }

  /**
    The dice loop of the Dice case: while the counter is below `left`, draw a
    face with Random.Next(1, maxValue) and add it to the accumulator.
  */
  method RollLoop(left: real, maxValue: int, rng: Random) returns (r: Result<int>)
    requires rng.Valid() && (left <= CSharp.Int32Max as real || maxValue < 1)
    modifies rng
    ensures DrawCount(left) == 0 ==> r == Success(0) && rng.drawn == old(rng.drawn)
    ensures 0 < DrawCount(left) && maxValue < 1 ==>
              r == Failure(ArgumentOutOfRange) && rng.drawn == old(rng.drawn)
    ensures 0 < DrawCount(left) && 1 <= maxValue ==>
              r == Success(CSharp.Wrap32(Sum(Rolls(rng.samples, old(rng.drawn), DrawCount(left), maxValue))))
              && rng.drawn == old(rng.drawn) + DrawCount(left)
  {
    ghost var start := rng.drawn;
    ghost var k := DrawCount(left);
    var value := 0;
    var i := 0;
    while LoopContinues(i, left)
      invariant 0 <= i <= k && rng.drawn == start + i
      invariant i > 0 ==> 1 <= maxValue && value == WrapSum(Rolls(rng.samples, start, i, maxValue))
      invariant i == 0 ==> value == 0
      decreases k - i
    {
      assert i < k by { DrawCountCountsIterations(left, i); }
      var face := rng.Next(1, maxValue);
      if face.Failure? {
        return Failure(face.error);
      }
      assert CSharp.Wrap32(value + face.value) == WrapSum(Rolls(rng.samples, start, i + 1, maxValue)) by {
        RollStep(rng.samples, start, i, maxValue, value, face.value);
      }
      assert k <= CSharp.Int32Max by {
        assert left <= CSharp.Int32Max as real;  // a draw succeeded, so 1 <= maxValue
        DrawCountFitsCounter(left);
      }
      value := CSharp.Wrap32(value + face.value);
      i := CSharp.Wrap32(i + 1);  // never wraps: i < k <= int.MaxValue
    }
    assert i == k by { DrawCountCountsIterations(left, i); }
    if i > 0 {
      WrapSumIsWrappedSum(Rolls(rng.samples, start, i, maxValue));
    }
    return Success(value);
  }

  /**
    The Dice case. The bound `(int)right + 1` handed to Random.Next does not
    change between iterations, so it is computed once here.
  */
  method RollDice(left: real, right: real, rng: Random) returns (r: Result<real>)
    requires rng.Valid() && Defined(Dice, left, right)
    modifies rng
    ensures r == DiceSpec(left, right, rng.samples, old(rng.drawn))
    ensures rng.drawn == old(rng.drawn) + (if r.Success? then DrawCount(left) else 0)
  {
    var maxValue := CSharp.Wrap32(CSharp.Trunc(right) + 1);
    var value := RollLoop(left, maxValue, rng);
    if value.Failure? {
      return Failure(value.error);
    }
    return Success(value.value as real);
  }

  /** ComputeOperation: dispatch on the operator, drawing from the generator for Rand and Dice. */
  method ComputeOperation(left: real, right: real, op: Operator, lib: MathLibrary, rng: Random)
    returns (r: Result<real>)
    requires rng.Valid() && Defined(op, left, right)
    modifies rng
    ensures r == Compute(op, left, right, lib, rng.samples, old(rng.drawn))
    ensures rng.drawn == old(rng.drawn) +
      (if op == Rand then 1 else if op == Dice && r.Success? then DrawCount(left) else 0)
  {
    match op
    case Rand =>
      var u := rng.NextDouble();
      r := Success(u);
    case Dice =>
      r := RollDice(left, right, rng);
    case _ =>
      r := Compute(op, left, right, lib, rng.samples, rng.drawn);
  }
}

/** What the operator core guarantees, stated over the specification `Compute`. */
module EvaluationProperties {
  import opened Exceptions
  import opened Registry
  import opened RandomSource
  import opened Evaluation
  import CSharp

  /** Every face of a roll shows between 1 and the top face of the die. */
  lemma {:induction false} RollsInRange(samples: Samples, drawn: nat, n: nat, maxValue: int)
    requires samples.Valid() && 1 <= maxValue
    ensures forall j :: 0 <= j < n ==> 1 <= Rolls(samples, drawn, n, maxValue)[j] <= TopFace(maxValue)
  {
    if n > 0 {
      RollsInRange(samples, drawn, n - 1, maxValue);
      var ds := Rolls(samples, drawn, n, maxValue);
      assert ds[..n - 1] == Rolls(samples, drawn, n - 1, maxValue);
      forall j | 0 <= j < n ensures 1 <= ds[j] <= TopFace(maxValue) {
        if j < n - 1 {
          assert ds[j] == ds[..n - 1][j];
        }
      }
    }
  }

  /** `|ds|` faces between 1 and `top` sum to a value in [|ds|, |ds| * top]. */
  lemma {:induction false} SumBounds(ds: seq<int>, top: int)
    requires forall j :: 0 <= j < |ds| ==> 1 <= ds[j] <= top
    ensures |ds| <= Sum(ds) <= |ds| * top
  {
    if ds != [] {
      var n := |ds|;
      var init := ds[..n - 1];
      assert 1 <= ds[n - 1] <= top;
      assert (n - 1) * top + top == n * top;
      forall j | 0 <= j < |init| ensures 1 <= init[j] <= top {
        assert init[j] == ds[j];
      }
      SumBounds(init, top);
    }
  }

  /**
    When the loop runs and the die is valid, Dice yields the true sum of the
    rolls modulo 2^32 (reduced into the int range), and exactly that sum
    whenever it fits in an int, whatever the number of rolls.
  */
  lemma DiceIsTheSumModulo2To32(left: real, right: real, samples: Samples, drawn: nat)
    requires samples.Valid() && Defined(Dice, left, right)
    requires 0.0 < left && 0 <= CSharp.Trunc(right) < CSharp.Int32Max
    ensures var total := Sum(Rolls(samples, drawn, DrawCount(left), CSharp.Trunc(right) + 1));
      var r := DiceSpec(left, right, samples, drawn);
      && r.Success?
      && CSharp.IsInt32(r.value.Floor) && r.value.Floor as real == r.value
      && (r.value.Floor - total) % CSharp.TwoTo32 == 0
      && (CSharp.IsInt32(total) ==> r.value.Floor == total)
  {
    var maxValue := CSharp.Trunc(right) + 1;
    var total := Sum(Rolls(samples, drawn, DrawCount(left), maxValue));
    assert DiceSpec(left, right, samples, drawn) == Success(CSharp.Wrap32(total) as real) by {
      assert DieBound(right) == maxValue;
      DiceSumsTheRolls(left, right, samples, drawn);
    }
    CSharp.Wrap32Congruent(total);
  }

  /**
    The Dice result: with die size S = (int)right (faces 1 to S, or always 1
    when S is 0) and k = DrawCount(left) draws whose total cannot overflow,
    the result is the integer sum of the k faces, between k and k * S.
  */
  lemma DiceBounds(left: real, right: real, samples: Samples, drawn: nat)
    requires samples.Valid() && Defined(Dice, left, right)
    requires 0.0 < left ==> 0 <= CSharp.Trunc(right) < CSharp.Int32Max
    requires DrawCount(left) * TopFace(CSharp.Trunc(right) + 1) <= CSharp.Int32Max
    ensures var r := DiceSpec(left, right, samples, drawn);
      && r.Success?
      && r.value.Floor as real == r.value
      && DrawCount(left) <= r.value.Floor <= DrawCount(left) * TopFace(CSharp.Trunc(right) + 1)
      && (0.0 < left ==> r.value.Floor == Sum(Rolls(samples, drawn, DrawCount(left), CSharp.Trunc(right) + 1)))
  {
    var k := DrawCount(left);
    if 0.0 < left {
      var maxValue := CSharp.Trunc(right) + 1;
      var top := TopFace(maxValue);
      var ds := Rolls(samples, drawn, k, maxValue);
      assert DiceSpec(left, right, samples, drawn) == Success(CSharp.Wrap32(Sum(ds)) as real) by {
        assert DieBound(right) == maxValue;
        DiceSumsTheRolls(left, right, samples, drawn);
      }
      assert k <= Sum(ds) <= k * top by {
        RollsInRange(samples, drawn, k, maxValue);
        SumBounds(ds, top);
      }
    } else {
      assert k == 0;
    }
  }

  /**
    Dice fails only when the die bound `(int)right + 1` is below 1 and the loop
    runs at least once; with no iteration it yields 0 whatever `right` is.
  */
  lemma DiceOutcomes(left: real, right: real, samples: Samples, drawn: nat)
    requires samples.Valid() && Defined(Dice, left, right)
    ensures left <= 0.0 ==> DiceSpec(left, right, samples, drawn) == Success(0.0)
    ensures DiceSpec(left, right, samples, drawn).Failure? <==>
      0.0 < left && !(0 <= CSharp.Trunc(right) < CSharp.Int32Max)
    ensures DiceSpec(left, right, samples, drawn).Failure? ==>
      DiceSpec(left, right, samples, drawn).error == ArgumentOutOfRange
  {
  }

  /**
    A count beyond int.MaxValue is admitted only with a die bound below 1:
    the first Random.Next call then throws, before the counter could wrap.
  */
  lemma DiceBeyondTheCounter(left: real, right: real, samples: Samples, drawn: nat)
    requires samples.Valid() && Defined(Dice, left, right)
    requires CSharp.Int32Max as real < left
    ensures CSharp.Trunc(right) < 0 || CSharp.Trunc(right) == CSharp.Int32Max
    ensures DiceSpec(left, right, samples, drawn) == Failure(ArgumentOutOfRange)
  {
  }

  /** The loop bound compares with the untruncated double: 2.5 dice means three rolls. */
  lemma DrawCountExamples()
    ensures DrawCount(2.5) == 3 && DrawCount(3.0) == 3 && DrawCount(0.1) == 1
    ensures DrawCount(0.0) == 0 && DrawCount(-2.0) == 0
  {
  }

  /** Comparisons yield 1 exactly when their relation holds, and 0 otherwise. */
  lemma ComparisonsAreBoolean(op: Operator, l: real, r: real, lib: MathLibrary, samples: Samples, drawn: nat)
    requires samples.Valid() && IsComparison(op)
    ensures var v := Compute(op, l, r, lib, samples, drawn);
      && v.Success?
      && (v.value == 0.0 || v.value == 1.0)
      && (op == Equal ==> (v.value == 1.0 <==> CSharp.RealAbs(l - r) < CSharp.DoubleEpsilon))
      && (op == LT ==> (v.value == 1.0 <==> l < r))
      && (op == LTE ==> (v.value == 1.0 <==> l <= r))
      && (op == GT ==> (v.value == 1.0 <==> l > r))
      && (op == GTE ==> (v.value == 1.0 <==> l >= r))
  {
  }

  /** On operands that are doubles, Equal is exact equality. */
  lemma EqualOnDoubles(l: real, r: real, lib: MathLibrary, samples: Samples, drawn: nat)
    requires samples.Valid() && CSharp.OnDoubleGrid(l) && CSharp.OnDoubleGrid(r)
    ensures Compute(Equal, l, r, lib, samples, drawn) == Success(if l == r then 1.0 else 0.0)
  {
    CSharp.EpsilonEqualityIsExact(l, r);
  }

  /** LT and GTE, and GT and LTE, are complements: exactly one of each pair yields 1. */
  lemma ComplementaryComparisons(l: real, r: real, lib: MathLibrary, samples: Samples, drawn: nat)
    requires samples.Valid()
    ensures Compute(LT, l, r, lib, samples, drawn).value + Compute(GTE, l, r, lib, samples, drawn).value == 1.0
    ensures Compute(GT, l, r, lib, samples, drawn).value + Compute(LTE, l, r, lib, samples, drawn).value == 1.0
  {
  }

  /**
    Mod truncates both operands toward zero and takes the C# remainder: the
    result is 0 or has the sign of the truncated dividend, is smaller in
    magnitude than the truncated divisor, and completes the truncated division.
  */
  lemma ModuloProperties(l: real, r: real, lib: MathLibrary, samples: Samples, drawn: nat)
    requires samples.Valid() && Defined(Mod, l, r)
    requires CSharp.Trunc(r) != 0
    requires !(CSharp.Trunc(l) == CSharp.Int32Min && CSharp.Trunc(r) == -1)
    ensures var v := Compute(Mod, l, r, lib, samples, drawn);
      var a, b := CSharp.Trunc(l), CSharp.Trunc(r);
      && v.Success?
      && v.value.Floor as real == v.value
      && var m := v.value.Floor;
      && (m == 0 || ((m < 0) <==> (a < 0)))
      && CSharp.Abs(m) < CSharp.Abs(b)
      && a == b * CSharp.Quot(a, b) + m
  {
    var a, b := CSharp.Trunc(l), CSharp.Trunc(r);
    assert Modulo(l, r) == Success(CSharp.Rem(a, b) as real);
  }

  /** The fractional parts are dropped before the remainder; a divisor truncating to 0 throws. */
  lemma ModuloExamples(lib: MathLibrary, samples: Samples, drawn: nat)
    requires samples.Valid()
    ensures Compute(Mod, 7.9, 2.9, lib, samples, drawn) == Success(1.0)
    ensures Compute(Mod, -7.9, 2.9, lib, samples, drawn) == Success(-1.0)
    ensures Compute(Mod, 7.0, -2.0, lib, samples, drawn) == Success(1.0)
    ensures Compute(Mod, 5.0, 0.5, lib, samples, drawn) == Failure(DivideByZero)
  {
    assert CSharp.Trunc(7.9) == 7 && CSharp.Trunc(2.9) == 2;
    assert CSharp.Trunc(-7.9) == -7;
    assert CSharp.Trunc(0.5) == 0;
  }

  /**
    Min and Max pick one operand and bound the other; Neg is an involution,
    Sub is Add of the negation, and Abs is never negative.
  */
  lemma ArithmeticLaws(l: real, r: real, lib: MathLibrary, samples: Samples, drawn: nat)
    requires samples.Valid()
    ensures var m := Compute(Min, l, r, lib, samples, drawn).value;
      m <= l && m <= r && (m == l || m == r)
    ensures var m := Compute(Max, l, r, lib, samples, drawn).value;
      l <= m && r <= m && (m == l || m == r)
    ensures Compute(Neg, Compute(Neg, l, r, lib, samples, drawn).value, r, lib, samples, drawn) == Success(l)
    ensures Compute(Sub, l, r, lib, samples, drawn)
         == Compute(Add, l, Compute(Neg, r, l, lib, samples, drawn).value, lib, samples, drawn)
    ensures Compute(Abs, l, r, lib, samples, drawn).value >= 0.0
  {
  }

  /** Rand yields the next draw of the generator, a value in [0,1). */
  lemma RandInUnitInterval(l: real, r: real, lib: MathLibrary, samples: Samples, drawn: nat)
    requires samples.Valid()
    ensures var v := Compute(Rand, l, r, lib, samples, drawn);
      v.Success? && 0.0 <= v.value < 1.0
  {
  }

  /** Every operator but Rand and Dice is a function of its operands alone. */
  lemma Deterministic(op: Operator, l: real, r: real, lib: MathLibrary,
                      s1: Samples, d1: nat, s2: Samples, d2: nat)
    requires s1.Valid() && s2.Valid() && Defined(op, l, r)
    requires op != Rand && op != Dice
    ensures Compute(op, l, r, lib, s1, d1) == Compute(op, l, r, lib, s2, d2)
  {
  }

  /**
    The arity the table gives a symbol agrees with the evaluation: a Const
    operator ignores both operands and a Unary one ignores `right`.
  */
  lemma ArityMatchesEvaluation(s: string, l1: real, r1: real, l2: real, r2: real,
                               lib: MathLibrary, samples: Samples, drawn: nat)
    requires samples.Valid() && s in Operators
    ensures Operators[s].opType == Const ==>
      Compute(Operators[s].op, l1, r1, lib, samples, drawn) == Compute(Operators[s].op, l2, r2, lib, samples, drawn)
    ensures Operators[s].opType == Unary ==>
      Compute(Operators[s].op, l1, r1, lib, samples, drawn) == Compute(Operators[s].op, l1, r2, lib, samples, drawn)
  {
  }

  /** Worked examples of the evaluation. */
  lemma Examples(x: real, y: real, lib: MathLibrary, samples: Samples, drawn: nat)
    requires samples.Valid()
    ensures Compute(Add, 2.0, 3.0, lib, samples, drawn) == Success(5.0)
    ensures Compute(Mult, 4.0, 2.5, lib, samples, drawn) == Success(10.0)
    ensures Compute(Equal, 1.0, 1.0, lib, samples, drawn) == Success(1.0)
    ensures Compute(Equal, 1.0, 1.0001, lib, samples, drawn) == Success(0.0)
    ensures Compute(PI, x, y, lib, samples, drawn) == Success(CSharp.MathPI)
    ensures 3.14159 < CSharp.MathPI < 3.1416
    ensures Compute(Dice, 0.0, 6.0, lib, samples, drawn) == Success(0.0)
    ensures Defined(Dice, 3000000000.0, -1.0)
    ensures Compute(Dice, 3000000000.0, -1.0, lib, samples, drawn) == Failure(ArgumentOutOfRange)
    ensures Compute(Round, 2.5, y, lib, samples, drawn) == Success(2.0)
    ensures Compute(Round, -3.5, y, lib, samples, drawn) == Success(-4.0)
  {
  }
}
