/** Option and Result values shared by the modules of this model. */
module Wrappers {
  datatype Option<T> = None | Some(value: T)
  {
    predicate IsSome() { Some? }
  }

  datatype Result<T, E> = Ok(value: T) | Err(error: E)
}
