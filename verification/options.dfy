/** An optional value: a JavaScript property that may be absent (`undefined`/`null`). */
module Options {

  datatype Option<T> = None | Some(value: T) {

    /** The value when present, otherwise `default` (JavaScript's `value ?? default`). */
    function GetOr(default: T): T {
      match this
      case Some(v) => v
      case None => default
    }

    /** The first present value of the two (JavaScript's `a ?? b` on optional values). */
    function OrElse(other: Option<T>): Option<T> {
      if Some? then this else other
    }
  }
}
