/** What the modules share: values that may be missing, computations that may fail, and map iteration. */
module Wrappers {

  datatype Option<+T> = None | Some(value: T)

  datatype Result<+T> = Ok(value: T) | Err

  /** The next key of a map iteration, which comes in any order. */
  method Pick<T(==)>(left: set<T>) returns (key: T)
    requires left != {}
    ensures key in left
  {
    key :| key in left;
  }
}
