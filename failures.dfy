/** Failure-compatible result types. Every error of the converter (unsupported node,
    operand, operator, arity, iterator, or an exhausted register pool) aborts the whole
    conversion; the model keeps only the fact of failure and a short reason. */
module Failures {

  datatype Option<+T> = None | Some(value: T)

  datatype Result<+T> = Ok(value: T) | Err(reason: string) {

    predicate IsFailure() {
      Err?
    }

    function PropagateFailure<U>(): Result<U>
      requires Err?
    {
      Err(reason)
    }

    function Extract(): T
      requires Ok?
    {
      value
    }
  }
}
