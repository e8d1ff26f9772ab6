/** The optional value shared by the lexer and the parser models. */
module Wrappers {

  /** An optional value: JavaScript's `undefined`/`null` is `None`. */
  datatype Option<+T> = None | Some(value: T) {

    /** The `x ?? default` operator of the source. */
    function GetOr(default: T): T {
      match this
      case Some(v) => v
      case None => default
    }
  }
}
