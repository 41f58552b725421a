/** Failure-compatible result types shared by every stage of the front end.

    The compiler distinguishes two kinds of failure:
    - a thrown Swift error, which the caller may catch and report (`Fail`), and
    - a `fatalError` or an out-of-bounds trap, which ends the process (`Abort`).
    Keeping them apart lets the contracts say which inputs are user errors and
    which ones crash the compiler.
 */
module Results {

  datatype Option<+T> = None | Some(value: T)

  datatype Outcome<+T, +E> = Ok(value: T) | Fail(error: E) | Abort {

    /** Both a thrown error and a trap stop the computation. */
    predicate IsFailure() {
      !Ok?
    }

    function PropagateFailure<U>(): Outcome<U, E>
      requires !Ok?
    {
      if Fail? then Fail(error) else Abort
    }

    function Extract(): T
      requires Ok?
    {
      value
    }
  }
}
