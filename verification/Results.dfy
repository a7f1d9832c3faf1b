/** Failure-compatible results shared by the whole model. */
module Results {

  datatype Option<+T> = None | Some(value: T)

  /** The outcome of code that may abort the process, by panic or by log.Fatal. */
  datatype Result<+T> = Panic | Ok(value: T) {
    predicate IsFailure() {
      Panic?
    }

    function PropagateFailure<U>(): Result<U>
      requires Panic?
    {
      Panic
    }

    function Extract(): T
      requires Ok?
    {
      value
    }
  }
}
