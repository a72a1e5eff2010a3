/** The conventional optional value, used for lookups that may find nothing
    and for dialogs that the user may cancel. */
module Wrappers {
  datatype Option<+T> = None | Some(value: T)
}
