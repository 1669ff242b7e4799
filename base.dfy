/** Small value wrappers shared by every module of the model. */
module Base {

  /** A value that may be absent: JavaScript's `null`/`undefined` results. */
  datatype Option<+T> = None | Some(value: T)

  /** The outcome of a call that can throw: `Err` carries what was thrown. */
  datatype Result<+T, +E> = Ok(value: T) | Err(error: E)

  /** What a settled promise reports. */
  datatype Settlement = Resolved | Rejected

  /** An exception the modelled code can raise. */
  datatype JsError = TypeError(reason: string)
}
