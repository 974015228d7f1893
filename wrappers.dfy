/** The conventional Option datatype, used for operations that may fail
    (a Python call that raises, a C function that returns 0). */
module Wrappers {

  datatype Option<+T> = None | Some(value: T)
}
