/** The optional value used where the pipeline either produces a result or
    gives up (the `(None, None, None)` return of the analysis). */
module Wrappers {
  datatype Option<+T> = None | Some(value: T)
}
