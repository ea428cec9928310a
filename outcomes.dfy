/** Failure-compatible result and option types shared by every module.

    The schema compiler reports a failure in two ways: a recoverable error
    carrying a message (`syn::Error`, a `compile_error!` message), or an abort
    of the whole compilation (`todo!()`, `unwrap()` on nothing, an arithmetic
    overflow under Rust's default debug checks).  `Err` is the first kind and
    `Panic` the second. */
module Outcomes {

  datatype Option<+T> = None | Some(value: T)

  datatype Result<+T> = Ok(value: T) | Err(msg: string) | Panic(msg: string) {

    predicate IsFailure() {
      !Ok?
    }

    function PropagateFailure<U>(): (r: Result<U>)
      requires !Ok?
      ensures r.Err? == Err? && r.Panic? == Panic?
    {
      if Err? then Err(msg) else Panic(msg)
    }

    function Extract(): T
      requires Ok?
    {
      value
    }
  }

  /** Message of Rust's checked addition when it overflows. */
  const OVERFLOW_MSG := "attempt to add with overflow"

  /** Message of `todo!()`. */
  const TODO_MSG := "not yet implemented"
}
