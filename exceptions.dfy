/** The exceptions the operator core can raise, and a result that carries either a value or one of them. */
module Exceptions {

  /** The .NET exceptions reachable from the evaluation of an operator. */
  datatype Error =
    | DivideByZero        // integer remainder by zero
    | Overflow            // int.MinValue % -1
    | ArgumentOutOfRange  // Random.Next(minValue, maxValue) with minValue > maxValue

  datatype Result<+T> = Success(value: T) | Failure(error: Error)
}
