/** An option type; `None` is the translator's fault result. */
module Wrappers {

  datatype Option<+T> = None | Some(value: T)
}
