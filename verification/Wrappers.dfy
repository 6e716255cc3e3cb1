/** The option type used throughout for values that may be `undefined` or `null`. */
module Wrappers {

  datatype Option<+T> = None | Some(value: T) {

    function GetOr(default: T): T {
      if Some? then value else default
    }
  }
}
