/** The optional-value datatype used throughout the model, standing in for Go's
    nil-able results (a nil error, a missing log line, a failed parse). */
module Wrappers {

  datatype Option<+T> = None | Some(value: T)
}
