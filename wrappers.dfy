/** Option and Result: the model's stand-ins for Python's None and for raised exceptions. */
module Wrappers {

  datatype Option<+T> = None | Some(value: T)

  /** `Failure` stands for an exception escaping the modelled call; the message is informative only. */
  datatype Result<+T> = Success(value: T) | Failure(error: string)
}
