/** The nullable columns and optional lookups of the system. */
module Optional {
  datatype Option<+T> = None | Some(value: T)
}
