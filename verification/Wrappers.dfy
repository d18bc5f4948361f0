/** The one option type of the project, standing for `boost::optional` and protobuf's "has" bits. */
module Wrappers {
  datatype Option<+T> = None | Some(value: T)
}
