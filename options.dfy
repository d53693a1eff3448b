/** Optional values: the model's stand-in for JavaScript's null / undefined. */
module Options {
  datatype Option<+T> = None | Some(value: T)

  /** JavaScript's `a || b` on two possibly-null values: the first one present. */
  function Or<T>(a: Option<T>, b: Option<T>): (r: Option<T>)
    ensures a.Some? ==> r == a
    ensures a.None? ==> r == b
  {
    if a.Some? then a else b
  }
}
