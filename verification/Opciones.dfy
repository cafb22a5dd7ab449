/** A value that may be missing: a null pointer, or a process that did not come back. */
module Opciones {
  datatype Option<T> = None | Some(value: T)
}
