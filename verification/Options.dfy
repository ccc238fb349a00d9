/** The optional value used wherever the program has an `Option`, a nullable column or `undefined`. */
module Options {

  datatype Option<+T> = None | Some(value: T)

  /** SQL's COALESCE on two nullable values. */
  function Coalesce<T>(a: Option<T>, b: Option<T>): Option<T> {
    if a.Some? then a else b
  }
}
