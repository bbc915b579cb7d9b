/** Result shapes shared by the whole model.

    The generator signals failure by throwing .NET exceptions; here a call that can
    throw returns an `Outcome`, so that every error path the source has is a value
    the model can reason about rather than a precondition. */
module Outcomes {

  /** A nullable reference (`string?`, `SolutionConfiguration?`). */
  datatype Option<+T> = None | Some(value: T)

  /** The exceptions the modelled code can raise. */
  datatype Exception =
    | KeyNotFound                         // Dictionary indexer on a missing key
    | InvalidOperation(message: string)   // `throw new InvalidOperationException(message)`
    | FileNotFound(path: string)          // File.ReadAllTextAsync on a missing file
    | ArgumentOutOfRange                  // String.Insert with an index outside the string

  /** What a call that may throw produced. */
  datatype Outcome<+T> = Returned(value: T) | Threw(exception: Exception)
}
