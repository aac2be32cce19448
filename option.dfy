/** An optional value, for the NULL references the C code returns and stores. */
module Optional {
  datatype Option<T> = None | Some(value: T)
}
