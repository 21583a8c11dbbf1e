/** Values shared by both versions of the ledger: principals, optional
    values and the tagged Ok/Err result every endpoint returns. */
module Common {

  /** An Internet Computer principal, kept as its opaque textual form. */
  type Principal = string

  /** Candid `Opt(T)`. */
  datatype Option<+T> = None | Some(value: T)

  /** `Result(T, Errors)`: a success value or one error tag. */
  datatype Result<+T, +E> = Ok(value: T) | Err(error: E)
}
