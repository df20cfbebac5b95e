/** Outcomes shared by the modelled scripts. */
module Wrappers {

  datatype Option<+T> = None | Some(value: T)

  /** A value, or the stable failure category that the scripts raise. */
  datatype Result<+T> = Ok(value: T) | Fail(category: string) {

    predicate IsFailure() {
      Fail?
    }

    function PropagateFailure<U>(): Result<U>
      requires Fail?
    {
      Fail(category)
    }

    function Extract(): T
      requires Ok?
    {
      value
    }
  }
}
