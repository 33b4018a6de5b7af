/** The optional value used wherever the program may or may not have something:
    a model that may or may not expose its training column names, a column
    selection that may raise a missing-key error, a table that may or may not
    be the image of an encoding. */
module Wrappers {

  datatype Option<+T> = None | Some(value: T) {

    /** The wrapped value, or `default` when there is none. */
    function GetOr(default: T): (r: T)
      ensures Some? ==> r == value
      ensures None? ==> r == default
    {
      match this
      case Some(v) => v
      case None => default
    }
  }
}
