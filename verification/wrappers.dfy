/** The conventional Some/None datatype, used where the registry's source
    either finds a value or raises and catches an exception. */
module Wrappers {

  datatype Option<+T> = None | Some(value: T)
}
