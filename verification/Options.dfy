/** Values that may be absent: the source's `None`. */
module Options {

  datatype Option<+T> = None | Some(value: T)
}
