/** The optional value of the sources (`Option` in Rust, `T | null` in TypeScript). */
module Wrappers {
  datatype Option<T> = None | Some(value: T)
}
