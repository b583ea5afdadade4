/** Optional values, the exceptions the program can raise, and a result type that
    carries either a value or the exception that aborted the run. */
module Results {

  datatype Option<+T> = None | Some(value: T)

  /** The Python exceptions (and the `sys.exit` call) through which the program aborts. */
  datatype Error =
    | AssertionError     // a failed `assert`
    | IndexError         // indexing past the end of a list or tuple
    | KeyError           // a missing dictionary key
    | AttributeError     // navigating past the last row of a table (`None.strings`)
    | TypeError          // `int(None)` on a regex group that matched nothing
    | ValueError         // `int('')`, a failed reshape, `max` of an empty dict
    | NameError          // a loop variable used after a loop that never ran
    | ZeroDivisionError  // a vote share over an empty rule list
    | Exit               // `sys.exit()` on a malformed bound expression

  datatype Result<+T> = Ok(value: T) | Err(error: Error) {

    predicate IsFailure() {
      Err?
    }

    function PropagateFailure<U>(): Result<U>
      requires Err?
    {
      Err(error)
    }

    function Extract(): T
      requires Ok?
    {
      value
    }
  }
}
