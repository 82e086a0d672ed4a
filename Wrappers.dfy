/** The optional value used for a JSON key that may be absent ("score", "seed"). */
module Wrappers {
  datatype Option<+T> = None | Some(value: T)
}
