/** Failure-carrying values shared by every module of the model.

    The original program signals failure by raising Python exceptions; the
    model returns a `Result` whose `Err` side names the exception class that
    would have been raised. Only the class matters to the callers that catch
    exceptions (the connector distinguishes assertion and not-implemented
    failures from everything else), so the message text is kept only where
    the program builds a fixed one.
 */
module Results {

  datatype Option<+T> = None | Some(value: T) {
    function GetOr(default: T): T {
      match this
      case Some(v) => v
      case None => default
    }
  }

  /** The Python exception classes the modelled code can raise. */
  datatype Fault =
    | KeyError          // dict lookup or pop of a missing key
    | IndexError        // list index out of range (`battle_states[-1]` on an empty list)
    | TypeError         // e.g. iterating over `None`, `len(None)`
    | AttributeError    // a method called on a value that lacks it (`to_showdown` on a list)
    | AssertionError    // a failed `assert`
    | ValidationError   // a pydantic model built from a value of the wrong type
    | NotImplementedError
    | RuntimeError(message: string)

  datatype Result<+T> = Ok(value: T) | Err(error: Fault) {
    predicate IsFailure() {
      Err?
    }

    function PropagateFailure<U>(): Result<U>
      requires Err?
    {
      Err(error)
    }

    function Extract(): T
      requires Ok?
    {
      value
    }
  }

  /** `Ok(())` when `condition` holds, an `AssertionError` otherwise: Python's `assert`. */
  function Check(condition: bool): (r: Result<()>)
    ensures r.Ok? <==> condition
  {
    if condition then Ok(()) else Err(AssertionError)
  }
}
