/** The optional value used for JavaScript's `null` / "not set". */
module Wrappers {

  datatype Option<+T> = None | Some(value: T) {

    /** This option when it holds a value, else `other` (JavaScript's `a || b` on objects that may be null). */
    function OrElse(other: Option<T>): Option<T> {
      match this
      case Some(_) => this
      case None => other
    }
  }
}
