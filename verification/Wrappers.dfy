/** Option and Result, used in place of std::optional and of the leaf error transport. */
module Wrappers {

  datatype Option<+T> = None | Some(value: T)

  /** Usable with `:-`, which stands for the early return of BOOST_LEAF_ASSIGN. */
  datatype Result<+T, +E> = Ok(value: T) | Err(error: E) {

    predicate IsFailure()
    {
      Err?
    }

    function PropagateFailure<U>(): Result<U, E>
      requires Err?
    {
      Err(error)
    }

    function Extract(): T
      requires Ok?
    {
      value
    }
  }

}
