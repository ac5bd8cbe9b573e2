/** Optional values and results with an error message, shared by every module. */
module Options {

  datatype Option<+T> = None | Some(value: T)

  /** The outcome of a step that the browser code either completes or stops
      with a message shown to the user. */
  datatype Result<+T> = Ok(value: T) | Err(message: string)
}
