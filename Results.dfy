/** Python's None and its exceptions, as values. */
module Results {

  datatype Option<T> = None | Some(value: T)

  /** The exceptions the modelled code raises. */
  datatype Error =
    | IndexError                   // indexing past the end of an empty sheet
    | ValueError(message: string)  // an unknown form key
    | FileNotFoundError(path: string) // a form template that is not on disk

  datatype Result<T> = Ok(value: T) | Err(error: Error)
}
