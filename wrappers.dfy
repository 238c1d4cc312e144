/** The failure-compatible optional value: `None` stands for the JavaScript `null` the decoder returns. */
module Wrappers {

  datatype Option<+T> = None | Some(value: T)
}
