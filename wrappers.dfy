/** The optional value used for nullable fields of the component state. */
module Wrappers {

  /** `None` stands for TypeScript's `null` / a missing optional property. */
  datatype Option<+T> = None | Some(value: T)
}
