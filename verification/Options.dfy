/** A value or none, as everywhere in this project. */
module Options {
  datatype Option<T> = None | Some(value: T)
}
