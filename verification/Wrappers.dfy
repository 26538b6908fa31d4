/** Result shapes shared by the models: an exception of the program is an `Err` or a `None`. */
module Wrappers {

  datatype Option<+T> = None | Some(value: T)
}
