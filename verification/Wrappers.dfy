/** Helper datatypes shared by the modules of the model. */
module Wrappers {

  /** A value that may be absent: `std::optional` / `ftl::Optional` / a null pointer. */
  datatype Option<+T> = None | Some(value: T)
}
