/** The optional-value type the model uses for lookups and partial decoders. */
module Wrappers {

  /** Either nothing, or one value. */
  datatype Option<+T> = None | Some(value: T)
}
