/** The one failure-aware container the model needs: Go's `(value, error)`
    pairs are modelled with an optional error. */
module Wrappers {

  datatype Option<+T> = None | Some(value: T)

  /** An error value as the caller sees it; only its message is kept. */
  type Error = string
}
