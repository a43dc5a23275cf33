/** The absent-or-present value used for Go's nil pointers and comma-ok results. */
module Wrappers {

  datatype Option<+T> = None | Some(value: T) {

    function GetOr(default: T): T {
      if Some? then value else default
    }
  }
}
