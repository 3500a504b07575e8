/** The optional value used by every module of the model. */
module Options {

  datatype Option<+T> = None | Some(value: T)

  datatype Result<+T> = Ok(value: T) | Err

  /** The URL under which a distribution point is recorded, if it is http or https. */
  type Normaliser = string -> Option<string>
}
