/** The optional values the dashboard uses where the source may hold "nothing":
    an unset selected day, a create (rather than edit) session, an empty form field. */
module Wrappers {

  datatype Option<+T> = None | Some(value: T) {

    /** The value held, or `default` when there is none (JavaScript's `x || default`
        on a value that is either present or absent). */
    function GetOr(default: T): (r: T)
      ensures Some? ==> r == value
      ensures None? ==> r == default
    {
      match this
      case Some(v) => v
      case None => default
    }
  }
}
