/** Failure-carrying values. A decode step that fails (a short `struct.unpack`,
    a seek before the start of the stream) produces `None`. */
module Wrappers {

  datatype Option<+T> = None | Some(value: T)
}
