/** Stock types and choices. */
module Options {
  /** A value that may be missing. */
  datatype Option<+T> = None | Some(value: T)

  /** Some element of a set, always the same one for the same set. */
  ghost function AnyOf<T>(s: set<T>): (x: T)
    requires s != {}
    ensures x in s
  {
    var x :| x in s; x
  }
}
