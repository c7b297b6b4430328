/** The optional value used for JavaScript's `null` (a cancelled prompt, an empty selection slot,
    a position token that is not yet set, a request that fails). */
module Wrappers {
  datatype Option<+T> = None | Some(value: T)
}
