/** Values that may be absent, and operations that may be refused. */
module Results {
  datatype Option<+T> = None | Some(value: T)

  /** A refusal carries the failure type the repository puts in its error records. */
  datatype Result<+T> = Ok(value: T) | Err(code: string) {
    predicate IsFailure() {
      Err?
    }
    function PropagateFailure<U>(): Result<U>
      requires Err?
    {
      Err(code)
    }
    function Extract(): T
      requires Ok?
    {
      value
    }
  }
}
