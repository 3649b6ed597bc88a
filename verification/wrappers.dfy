/** The optional value used for the wizard's record fields: a Python
    dictionary key that is either present with a value or absent. */
module Wrappers {

  datatype Option<+T> = None | Some(value: T)
}
