/** Small datatypes shared by the modules of the chat backend and the dashboard. */
module Wrappers {

  /** An optional value: a field of a JSON object that may be absent. */
  datatype Option<+T> = None | Some(value: T)

  /** The outcome of a call into a remote capability that may throw. */
  datatype Call<+T> = Returned(value: T) | Threw
}
