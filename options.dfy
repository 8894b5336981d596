/** The conventional optional value, used for storage reads and fetch results. */
module Options {

  datatype Option<+T> = None | Some(value: T)
}
