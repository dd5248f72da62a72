/** An optional value, for lookups that can miss and checks that can reject. */
module Options {

  datatype Option<+T> = None | Some(value: T)
}
