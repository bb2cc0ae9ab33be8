/** The .NET exceptions that TransitionFunction, TuringMachine and Lineator can raise. None
    of the three classes catches any, so each one ends the operation that raised it and
    reaches that operation's caller. */
module Exceptions {

  datatype Exception =
    | DuplicateKey(key: string)         // ArgumentException from Dictionary.Add
    | InvalidRange(index: int, count: int)  // from List.GetRange(index, count)
    | ArgumentOutOfRange(index: int)    // ArgumentOutOfRangeException from the List indexer
    | NullReference                     // a member read through a null TuringMachine
    | EmptySequence                     // InvalidOperationException from Enumerable.First

  /** What a call did: returned a value, or threw. */
  datatype Result<T> = Returned(value: T) | Threw(error: Exception)
}
