/** Optional values, with the "first one wins" combination the conversation index is built from. */
module Options {
  datatype Option<+T> = None | Some(value: T)

  /** The first operand when it holds a value, the second otherwise. */
  function OrElse<T>(a: Option<T>, b: Option<T>): Option<T> {
    if a.Some? then a else b
  }

  function GetOr<T>(a: Option<T>, default: T): T {
    if a.Some? then a.value else default
  }
}
