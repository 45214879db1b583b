/** Option datatype used wherever the source yields `null` / `undefined`. */
module Wrappers {
  datatype Option<+T> = None | Some(value: T) {
    function GetOr(default: T): T {
      match this
      case Some(v) => v
      case None => default
    }
  }
}

/** Document ids. MongoDB ObjectIds are modelled as naturals handed out by the store in increasing order. */
module Ids {
  type Id = nat
}
