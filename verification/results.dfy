/**
  The outcome of every step of the interpreter.  The source stops the whole
  run with a panic on any anomaly; here each panic site is a `Failure`
  value that propagates to the top of the run.
*/
module Results {
  import opened Base

  datatype Failure =
    | EscapeAtEnd                               // '%' is the last character: the escape check reads past the end
    | LoadFailed(path: string)                  // %file names a file that cannot be read
    | MissingCount(line: string)                // %next has no second field
    | BadCount(token: string)                   // %next's second field is not an integer
    | CountOutOfRange(count: int, available: nat) // %next count is negative or exceeds the data
    | LeftoverBytes(rest: seq<byte>)            // %empty found unconsumed data
    | StopWithoutNewline                        // %stop on the last line: the rest slice starts past the end
    | BadNumber(text: string)                   // a numeric directive has no leading digit
    | IndexOutOfRange(index: int, length: nat)  // a directive addresses a byte outside the context
    | SliceOutOfRange(line: string)             // the six-byte %nnnnnn slice of a five-byte line
    | Unhandled(line: string)                   // no directive form matches

  datatype Result<+T> = Ok(value: T) | Err(failure: Failure) {

    predicate IsFailure() {
      Err?
    }

    function PropagateFailure<U>(): Result<U>
      requires Err?
    {
      Err(failure)
    }

    function Extract(): T
      requires Ok?
    {
      value
    }
  }
}
