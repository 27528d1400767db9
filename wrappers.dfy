// Small value wrappers shared by every module of the model.

module Wrappers {

  /** An optional value, the counterpart of Rust's `Option<T>`. */
  datatype Option<T> = None | Some(value: T)
  {
    predicate IsNone() { this.None? }

    function UnwrapOr(default: T): (r: T)
      ensures this.None? ==> r == default
      ensures this.Some? ==> r == value
    {
      match this
      case None => default
      case Some(v) => v
    }
  }

  /** A value of one of two kinds, the counterpart of the `either` crate's `Either<L, R>`. */
  datatype Either<L, R> = Left(left: L) | Right(right: R)
}
