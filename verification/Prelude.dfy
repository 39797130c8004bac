/** Result types shared by the whole model. */
module Prelude {

  datatype Option<+T> = None | Some(value: T)

  datatype Result<+T, +E> = Ok(value: T) | Err(error: E)

  /** The part of a long list that a manifest shows. */
  function FirstHundred<T>(s: seq<T>): seq<T> {
    if |s| <= 100 then s else s[..100]
  }
}
