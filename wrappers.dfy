/** The optional value used for absent data (a missing pitcher id, a failed name lookup,
    a comparison that is not drawn). */
module Wrappers {

  datatype Option<+T> = None | Some(value: T)
}
