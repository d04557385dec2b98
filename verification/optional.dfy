/** An optional value: the source's `None` placeholder or a present value. */
module Optional {
  datatype Option<+T> = None | Some(value: T)
}
