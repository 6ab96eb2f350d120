/** The relay's `Result` type: a value, or an error of a kind chosen per component.
    It is failure-compatible, so callers may use `:-` where a call can fail. */
module Results {

  datatype Result<+T, +E> = Ok(value: T) | Err(error: E) {

    predicate IsFailure() {
      Err?
    }

    function PropagateFailure<U>(): Result<U, E>
      requires Err?
    {
      Err(error)
    }

    function Extract(): T
      requires Ok?
    {
      value
    }
  }
}
