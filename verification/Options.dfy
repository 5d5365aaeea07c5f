module Options {
  /** Stands for the firmware's possibly-null pointers. */
  datatype Option<+T> = None | Some(value: T)
}
