/** Values that may be absent, as the out-parameters and optionals of the AMF may be. */
module Wrappers {

  datatype Option<+T> = None | Some(value: T)
}
