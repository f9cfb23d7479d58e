# Hef.Math operator core in Dafny

This project models the operator core of the Hef.Math expression interpreter
(`Library/Interpreter.Operators.cs`). The core has three parts:

- the operator table, which maps each of 24 symbols to a descriptor: the
  operator, its arity category (Const, Unary or Binary) and its precedence;
- the `Operator` enumeration;
- `ComputeOperation`, which evaluates one operator on two double operands.

Rand and Dice are the two nondeterministic operators. They draw from the
interpreter's shared System.Random.

Modules:

- `Exceptions`: the exceptions the core can raise (DivideByZero, Overflow,
  ArgumentOutOfRange) and a `Result` type that carries them.
- `Optional`: an `Option` type for table lookups that may find nothing.
- `CSharp`: the C# numeric conventions the core relies on:
  - 32-bit unchecked wrap-around (`Wrap32`);
  - the `(int)` cast of a double (`Trunc`);
  - the C# integer remainder (`Rem`);
  - `Math.Abs`, `Math.Min`, `Math.Max` and `Math.Round`;
  - `double.Epsilon` and `Math.PI`.
- `RandomSource`: the shared generator, a class `Random` with a draw counter.
  The model does not include the generator's algorithm. Its outputs are an
  oracle (`Samples`) constrained only by the System.Random contract.
- `Registry`: the `Operator` and `OperatorType` enumerations, the descriptor
  and the symbol table `Operators`.
- `Evaluation`:
  - `Compute`, a pure specification of every operator;
  - `RollLoop` and `RollDice`, the imperative Dice loop;
  - `ComputeOperation`, the dispatch method, proved equal to `Compute`.
- `EvaluationProperties`: what the evaluation guarantees, stated over
  `Compute`.

Doubles are modelled as `real`. `Defined` is a predicate that restricts each
operator's operands to those for which real arithmetic describes the double
computation:

- Div needs a non-zero divisor.
- Mod needs `(int)` casts that fit in an int.
- Dice needs a count that the int loop counter can reach. A larger count is
  admitted only with a die bound below 1, because the first draw then throws.

Three behaviours of the code are easy to misread:

- **Dice count.** Dice does not truncate `left`. The loop test `i < left`
  compares the int counter with the double, so the die is rolled
  `ceil(left)` times (`DrawCountExamples`: 2.5 dice are three rolls).
- **Dice size.** A die size of 0 calls `Random.Next(1, 1)`, so every roll is
  1. A negative size throws ArgumentOutOfRange. Size `int.MaxValue` also
  throws, because `(int)right + 1` wraps around.
- **Equal.** Equal compares `|left - right|` with `double.Epsilon`, the
  smallest positive double. It is therefore exact equality on finite doubles
  (`EqualOnDoubles`), not a tolerant comparison.

## Model

| member | source | states |
|---|---|---|
| CSharp.Wrap32 | Library/Interpreter.Operators.cs:166 | unchecked int addition gives a value in the int range, equal to the exact sum whenever that fits |
| CSharp.Wrap32Congruent | Library/Interpreter.Operators.cs:166 | wrapping changes a value only by a multiple of 2^32 |
| CSharp.Wrap32AddAbsorbs | Library/Interpreter.Operators.cs:166 | wrapping a running total before adding the next term gives the same wrapped result as adding first |
| CSharp.Trunc | Library/Interpreter.Operators.cs:111 | `(int)x` drops the fractional part toward zero: 0 <= r <= x < r+1 for non-negative x, r-1 < x <= r <= 0 for negative x |
| CSharp.CastDefinedIffFits | Library/Interpreter.Operators.cs:111 | the doubles whose cast is specified are exactly those whose truncation fits in an int |
| CSharp.Quot | Library/Interpreter.Operators.cs:111 | C# integer `/` (the quotient `%` goes with): its magnitude is the floor of the magnitudes' quotient, and a non-zero quotient is negative iff the operands' signs differ |
| CSharp.Rem | Library/Interpreter.Operators.cs:111 | C# `%`: a == b * quotient + r, r is 0 or has the dividend's sign, and abs(r) < abs(b) |
| CSharp.RealAbs | Library/Interpreter.Operators.cs:128-129 | Math.Abs is non-negative and equals x or -x |
| CSharp.Min | Library/Interpreter.Operators.cs:140-141 | Math.Min is at most both operands and is one of them |
| CSharp.Max | Library/Interpreter.Operators.cs:143-144 | Math.Max is at least both operands and is one of them |
| CSharp.RoundToEven | Library/Interpreter.Operators.cs:131-132 | Math.Round gives an integer within 0.5 of x; at distance exactly 0.5 it gives the even one |
| CSharp.DoubleEpsilon | Library/Interpreter.Operators.cs:114 | double.Epsilon, the smallest positive double, exactly 2^-1074 (a constant, no contract) |
| CSharp.MathPI | Library/Interpreter.Operators.cs:138 | Math.PI, the double nearest to pi, exactly 884279719003555 / 2^48 (a constant; Examples bounds it between 3.14159 and 3.1416) |
| CSharp.EpsilonEqualityIsExact | Library/Interpreter.Operators.cs:113-114 | for doubles, abs(l - r) < double.Epsilon holds iff l == r |
| Registry.Operator | Library/Interpreter.Operators.cs:64-88 | the 22 members of the Operator enumeration, in source order (a datatype, no contract; SymbolOf proves each is in the table) |
| Registry.Operators | Library/Interpreter.Operators.cs:32-58 | the symbol table, with the 24 entries of the source in order (a constant; Lookup, TableSize, PrecedenceOrder and the alias lemmas state its properties) |
| Registry.DescriptorOf | Library/Interpreter.Operators.cs:32-58 | each operator has one descriptor naming that operator, with non-negative precedence |
| Registry.Lookup | Library/Interpreter.Operators.cs:32-58 | a symbol is found iff it is one of the 24 table keys; every descriptor found, alias or not, is its operator's single descriptor |
| Registry.SymbolOf | Library/Interpreter.Operators.cs:32-88 | every member of the Operator enumeration has a symbol in the table that maps to it |
| Registry.AliasesAgree | Library/Interpreter.Operators.cs:49-57 | two symbols for the same operator ("==" and "eq", "d" and "D") have identical descriptors |
| Registry.AliasExamples | Library/Interpreter.Operators.cs:49-57 | "==" and "eq" map to (Equal, Binary, 0); "d" and "D" map to (Dice, Binary, 90); an unknown symbol is absent |
| Registry.TableSize | Library/Interpreter.Operators.cs:32-58 | the table has 24 distinct keys: none of the 24 initialiser entries repeats a key, which would make the dictionary initialiser throw (its proof helpers, which regroup the symbols by length, model nothing of their own) |
| Registry.KeysAreSymbols | Library/Interpreter.Operators.cs:32-58 | the table's keys are exactly the 24 operator symbols |
| Registry.PrecedenceOrder | Library/Interpreter.Operators.cs:32-58 | precedences are non-negative; 0 is held exactly by the comparisons; + = - < * = / < % < ^ |
| RandomSource.Samples.Valid | Library/Interpreter.Operators.cs:158-166 | the System.Random contract assumed of every draw: NextDouble in [0,1), Next over a width-w range one of its w values, or the lower bound when w = 0 (a predicate, no contract) |
| RandomSource.Samples.Pick | Library/Interpreter.Operators.cs:166 | Random.Next(lo, hi) lies in [lo, hi) when lo < hi, and is lo when lo == hi |
| RandomSource.Random.constructor | Library/Interpreter.Operators.cs:158-166 | the shared generator starts with no draw consumed |
| RandomSource.Random.NextDouble | Library/Interpreter.Operators.cs:158-159 | returns the next draw, which lies in [0,1), and consumes exactly one draw |
| RandomSource.Random.Next | Library/Interpreter.Operators.cs:166 | throws ArgumentOutOfRange without drawing when lo > hi; otherwise returns the picked value and consumes one draw |
| Evaluation.Defined | Library/Interpreter.Operators.cs:94-175 | the operands the model admits: a non-zero divisor for Div, in-range casts for Mod, and for Dice either a count the int loop counter reaches (with an in-range cast of `right` when the loop runs) or any count with an in-range `right` whose die bound is below 1, where the first draw throws (a predicate, no contract; each exclusion is listed under Left out) |
| Evaluation.BoolAsNumber | Library/Interpreter.Operators.cs:146-156 | a comparison result is 1 iff the relation holds and 0 iff it does not |
| Evaluation.Modulo | Library/Interpreter.Operators.cs:110-111 | Mod throws DivideByZero iff (int)right == 0, and Overflow iff it computes int.MinValue % -1; otherwise the result is an integer |
| Evaluation.LoopContinues | Library/Interpreter.Operators.cs:164 | the loop test `i < left`, an int compared with a double (a predicate, no contract; DrawCountCountsIterations characterises it) |
| Evaluation.DrawCount | Library/Interpreter.Operators.cs:164 | the loop count is 0 for left <= 0 and the ceiling of left otherwise |
| Evaluation.DrawCountCountsIterations | Library/Interpreter.Operators.cs:164 | the test `i < left` holds exactly for the counters below the loop count |
| Evaluation.DieBound | Library/Interpreter.Operators.cs:166 | the unchecked `(int)right + 1`: an int, equal to (int)right + 1 when that fits, and int.MinValue when (int)right is int.MaxValue |
| Evaluation.Rolls | Library/Interpreter.Operators.cs:164-167 | n rolls produce exactly n faces |
| Evaluation.WrapSum | Library/Interpreter.Operators.cs:163-166 | the accumulator after unchecked `value += face` steps always lies in the int range |
| Evaluation.WrapSumIsWrappedSum | Library/Interpreter.Operators.cs:163-166 | wrapping at every `+=` equals wrapping the true sum once: the accumulator is the sum of the faces modulo 2^32 |
| Evaluation.DiceSpec | Library/Interpreter.Operators.cs:161-170 | Dice as a function: can fail only with ArgumentOutOfRange, and only when the loop runs (DiceOutcomes gives the exact condition) |
| Evaluation.Compute | Library/Interpreter.Operators.cs:94-175 | every operator has a case, and only Mod and Dice can fail |
| Evaluation.DrawCountFitsCounter | Library/Interpreter.Operators.cs:164 | with left <= int.MaxValue, the loop count fits in the int counter |
| Evaluation.RollStep | Library/Interpreter.Operators.cs:163-167 | one more iteration extends the accumulated sum of the rolls by the new face, with wrap-around |
| Evaluation.DiceFailsBeforeDrawing | Library/Interpreter.Operators.cs:164-166 | if the loop runs and the die bound is below 1, Dice throws ArgumentOutOfRange |
| Evaluation.DiceSumsTheRolls | Library/Interpreter.Operators.cs:161-170 | if the loop runs and the die bound is at least 1, Dice returns the true sum of the rolls reduced modulo 2^32 into the int range |
| Evaluation.RollLoop | Library/Interpreter.Operators.cs:163-169 | for a count up to int.MaxValue, or any count with a bound below 1, the loop gives 0 without drawing when it does not run, fails without drawing on a bound below 1, and otherwise returns the true sum of DrawCount(left) rolls reduced modulo 2^32, after consuming exactly that many draws |
| Evaluation.RollDice | Library/Interpreter.Operators.cs:161-170 | the Dice case equals the specification DiceSpec and consumes DrawCount(left) draws on success |
| Evaluation.ComputeOperation | Library/Interpreter.Operators.cs:94-175 | the dispatch equals Compute; it consumes one draw for Rand, DrawCount(left) for a successful Dice, and none otherwise |
| EvaluationProperties.RollsInRange | Library/Interpreter.Operators.cs:166 | every face lies between 1 and the die's top face |
| EvaluationProperties.SumBounds | Library/Interpreter.Operators.cs:166 | n faces between 1 and `top` sum to a value in [n, n * top] |
| EvaluationProperties.DiceIsTheSumModulo2To32 | Library/Interpreter.Operators.cs:161-170 | for every count that runs the loop and every valid die, Dice succeeds with an int congruent to the true sum of the rolls modulo 2^32, and equal to that sum whenever it fits in an int |
| EvaluationProperties.DiceBounds | Library/Interpreter.Operators.cs:161-170 | with die size S >= 0 and no overflow, Dice succeeds with an integer between k and k * S (k = number of rolls, faces 1 when S = 0), equal to the sum of the rolls |
| EvaluationProperties.DiceOutcomes | Library/Interpreter.Operators.cs:161-170 | a count <= 0 gives 0; Dice fails iff the loop runs and (int)right is negative or int.MaxValue; the failure is ArgumentOutOfRange |
| EvaluationProperties.DiceBeyondTheCounter | Library/Interpreter.Operators.cs:164-166 | a count above int.MaxValue is admitted only when (int)right is negative or int.MaxValue, and Dice then throws ArgumentOutOfRange on the first draw |
| EvaluationProperties.DrawCountExamples | Library/Interpreter.Operators.cs:164 | 2.5 dice roll 3 times, 3 roll 3, 0.1 roll once, 0 and -2 roll none |
| EvaluationProperties.ComparisonsAreBoolean | Library/Interpreter.Operators.cs:113-156 | every comparison yields 0 or 1, and 1 exactly when its relation holds |
| EvaluationProperties.EqualOnDoubles | Library/Interpreter.Operators.cs:113-114 | on finite doubles, Equal yields 1 iff the operands are equal |
| EvaluationProperties.ComplementaryComparisons | Library/Interpreter.Operators.cs:146-156 | LT and GTE, and GT and LTE, sum to 1 |
| EvaluationProperties.ModuloProperties | Library/Interpreter.Operators.cs:110-111 | a successful Mod gives an integer m that is 0 or has the sign of (int)left, is smaller in magnitude than (int)right, and completes the truncated division |
| EvaluationProperties.ModuloExamples | Library/Interpreter.Operators.cs:110-111 | 7.9 % 2.9 = 1, -7.9 % 2.9 = -1, 7 % -2 = 1, and 5 % 0.5 throws DivideByZero |
| EvaluationProperties.ArithmeticLaws | Library/Interpreter.Operators.cs:98-144 | Min and Max pick an operand and bound the other; Neg is an involution; Sub is Add of the negation; Abs is non-negative |
| EvaluationProperties.RandInUnitInterval | Library/Interpreter.Operators.cs:158-159 | Rand yields a value in [0,1) |
| EvaluationProperties.Deterministic | Library/Interpreter.Operators.cs:94-175 | every operator except Rand and Dice depends only on its operands |
| EvaluationProperties.ArityMatchesEvaluation | Library/Interpreter.Operators.cs:32-58 | Const operators ignore both operands and Unary operators ignore `right` |
| EvaluationProperties.Examples | Library/Interpreter.Operators.cs:94-175 | 2+3 = 5, 4*2.5 = 10, 1 == 1, 1 != 1.0001, pi is Math.PI, 0 d 6 = 0, 3e9 d -1 throws ArgumentOutOfRange, Round(2.5) = 2, Round(-3.5) = -4 |

## Left out

- IEEE 754 behaviour: NaN, infinities, signed zero and the rounding of `+`, `-`, `*` and `/` are not modelled, because doubles are reals here. For example, `+∞ == +∞` yields 0 in the source, because `Math.Abs(∞ - ∞)` is NaN.
- The model assumes the default unchecked build. The unchecked `value += face` and `(int)right + 1` wrap around (`Wrap32`), and an out-of-range `(int)` cast is unspecified. A build with overflow checking enabled would throw OverflowException at these three places instead.
- Div by zero: the double division would give an infinity or NaN, so the divisor is required to be non-zero.
- Pow, Sqrt, Cos and Sin are given functions (`MathLibrary`). Their real results are not exact doubles, and NaN is not modelled.
- The `(int)` cast of a double outside the int range, or of NaN, has an unspecified result in C#. Mod, and Dice when it rolls, require casts that fit.
- Evaluation.Defined: Dice with `left` above int.MaxValue and a die bound of at least 1 is excluded. There the int loop counter wraps from int.MaxValue to int.MinValue, which is still below `left`, so the loop never ends. With a die bound below 1 such a count is admitted: the first `Random.Next` throws ArgumentOutOfRange (`DiceBeyondTheCounter`).
- The System.Random algorithm and seeding: draws are an oracle constrained only by the documented range contract. Each NextDouble and each non-throwing Next consumes one draw.
- RandomSource.Random.Next: when the range has width 1 or less, newer .NET runtimes return without advancing the generator. This model still counts one draw.
- Concurrent use of the shared generator from several threads is not modelled.
- The default case of the switch (InvalidOperationException with a message) cannot be reached: the `Operator` datatype is closed, and no integer-to-enum cast exists in the model.
- The exception message text is not modelled.
- The numeric values of the enumeration members are not modelled.
- Interpreter.Random, OperatorDescriptor and OperatorType are declared outside `Interpreter.Operators.cs` and are not part of this model beyond the fields this core uses.
- The tokenizer, parser and evaluator of the rest of the Interpreter class are not part of this model.
- RollDice: the bound `(int)right + 1` is computed once before the loop rather than on every iteration. It does not change between iterations, so the result is the same.
- Evaluation.Compute: Equal returns `1f`/`0f` (float literals) in the source. Both are exactly 1 and 0, so this makes no difference.
