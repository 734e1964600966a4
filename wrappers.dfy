/** Small helper datatypes shared by the other modules. */
module Wrappers {

  /** An optional value. The constructors are not called None/Some-of-Object
      because the object model has its own None variant. */
  datatype Option<T> = Nothing | Some(value: T)

  /** A value or the reason there is none. */
  datatype Result<T, E> = Ok(value: T) | Err(error: E)
}
