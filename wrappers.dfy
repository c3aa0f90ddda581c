/** The optional value the services return where Python returns `None`. */
module Wrappers {

  datatype Option<T> = None | Some(value: T)
}
