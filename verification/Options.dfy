/** Shared result types. */
module Options {

  datatype Option<+T> = None | Some(value: T)

  /** A computation that returns a value or takes one of the source's panicking paths. */
  datatype Outcome<+T> = Panic | Done(value: T)
}
