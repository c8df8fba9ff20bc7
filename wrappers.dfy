/** Option and Result, the two failure-carrying shapes the block's Rust code uses. */
module Wrappers {

  /** Rust's `Option<T>`. */
  datatype Option<+T> = None | Some(value: T)

  /** Rust's `Result<T, E>`: a value, or the error that made the operation give up. */
  datatype Result<+T, +E> = Ok(value: T) | Err(error: E)

  /** The sequence holding the option's value, if there is one. */
  function ToSeq<T>(o: Option<T>): (s: seq<T>)
    ensures |s| <= 1
    ensures o.Some? <==> |s| == 1
    ensures o.Some? ==> s[0] == o.value
  {
    match o
    case None => []
    case Some(v) => [v]
  }
}
