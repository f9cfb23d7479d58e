/**
  The generator behind `Interpreter.Random`, a System.Random shared by every
  evaluation. Its internal algorithm is not modelled. What it will produce is
  an oracle fixed in advance: for the n-th draw, the double NextDouble would
  return and the offset Next would add to its lower bound for each width of
  range. A counter records how many draws have been consumed. Each NextDouble
  and each Next(minValue, maxValue) that does not throw consumes one draw.
*/
module RandomSource {
  import opened Exceptions

  datatype Samples = Samples(unit: nat -> real, offset: (nat, nat) -> int) {
    /**
      The System.Random contract: NextDouble lies in [0,1), and Next over a
      range of width w > 0 yields one of the w values of the range (a range
      of width 0 yields its lower bound).
    */
    ghost predicate Valid() {
      && (forall n: nat :: 0.0 <= unit(n) < 1.0)
      && (forall n: nat, w: nat :: 0 <= offset(n, w) && (w == 0 ==> offset(n, w) == 0) && (w > 0 ==> offset(n, w) < w))
    }

    /** The integer Next(minValue, maxValue) returns when it consumes draw `n`. */
    function Pick(n: nat, minValue: int, maxValue: int): (r: int)
      requires Valid() && minValue <= maxValue
      ensures minValue <= r
      ensures minValue < maxValue ==> r < maxValue
      ensures minValue == maxValue ==> r == minValue
    {
      minValue + offset(n, maxValue - minValue)
    }
  }

  class Random {
    /** What the generator produces, draw by draw. */
    const samples: Samples
    /** How many draws have been consumed. */
    var drawn: nat

    ghost predicate Valid() {
      samples.Valid()
    }

    constructor (samples: Samples)
      requires samples.Valid()
      ensures Valid() && this.samples == samples && drawn == 0
    {
      this.samples := samples;
      drawn := 0;
    }

    /** Random.NextDouble(): the next draw, in [0,1). */
    method NextDouble() returns (u: real)
      requires Valid()
      modifies this
      ensures u == samples.unit(old(drawn)) && drawn == old(drawn) + 1
      ensures 0.0 <= u < 1.0
    {
      u := samples.unit(drawn);
      drawn := drawn + 1;
    }

    /**
      Random.Next(minValue, maxValue): an integer in [minValue, maxValue), or
      minValue when the two are equal; ArgumentOutOfRange, without drawing,
      when minValue > maxValue.
    */
    method Next(minValue: int, maxValue: int) returns (r: Result<int>)
      requires Valid()
      modifies this
      ensures minValue > maxValue ==> r == Failure(ArgumentOutOfRange) && drawn == old(drawn)
      ensures minValue <= maxValue ==>
        r == Success(samples.Pick(old(drawn), minValue, maxValue)) && drawn == old(drawn) + 1
    {
      if minValue > maxValue {
        return Failure(ArgumentOutOfRange);
      }
      r := Success(samples.Pick(drawn, minValue, maxValue));
      drawn := drawn + 1;
    }
  }
}
