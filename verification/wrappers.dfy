/** The optional value used for a JSON key that may be missing and for a
    collaborator call that may fail. */
module Wrappers {

  datatype Option<+T> = None | Some(value: T) {

    /** The carried value; `default` stands in for a missing one. */
    function GetOr(default: T): T {
      match this
      case Some(v) => v
      case None => default
    }
  }
}
