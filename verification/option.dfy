/** The "value or nothing" result used wherever the source returns `null`. */
module Opt {

  datatype Option<+T> = None | Some(value: T)

}
