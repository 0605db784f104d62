/** Failure-carrying wrappers shared by every module of the model.
    Python's `None` becomes `Option.None`; a raised exception whose
    message matters becomes `Result.Err`. */
module Common {

  datatype Option<+T> = None | Some(value: T)

  datatype Result<+T> = Ok(value: T) | Err(msg: string)
}
