/** Rust's `Option<T>`, used for every optional field of the unified and native records. */
module Options {

  datatype Option<+T> = None | Some(value: T) {

    /** `Option::unwrap_or`: the carried value, or `default` when there is none. */
    function GetOr(default: T): T {
      match this
      case Some(v) => v
      case None => default
    }
  }

  /** `Option::map`: applies `f` to the carried value, if any. */
  function MapOption<A, B>(f: A -> B, o: Option<A>): (r: Option<B>)
    ensures r.Some? <==> o.Some?
    ensures o.Some? ==> r.value == f(o.value)
  {
    match o
    case Some(v) => Some(f(v))
    case None => None
  }
}
