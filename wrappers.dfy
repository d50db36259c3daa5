/** The optional-value type that the shell's `maybe_t<T>` stands for. */
module Wrappers {

  datatype Option<+T> = None | Some(value: T)
}
