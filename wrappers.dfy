/** Optional values and error-carrying results, used wherever the source
    returns None or catches an exception. */
module Wrappers {

  datatype Option<+T> = None | Some(value: T)

  /** The outcome of a call into code outside the model (the text-generation
      service, the PDF generator): a value, or the message of the exception
      it raised. */
  datatype Result<+T> = Ok(value: T) | Err(message: string)
}
