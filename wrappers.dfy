/** Option type for the model's "absent / undefined / lookup failed" cases. */
module Wrappers {

  datatype Option<+T> = None | Some(value: T)
}
