/** Swift's optional `T?`: the answer of a lookup that may find nothing. */
module Optional {

  datatype Option<+T> = None | Some(value: T)

  /** Swift's nil-coalescing `o ?? fallback`. */
  function Coalesce<T>(o: Option<T>, fallback: T): (r: T)
    ensures o.Some? ==> r == o.value
    ensures o.None? ==> r == fallback
  {
    if o.Some? then o.value else fallback
  }
}
