/** Outcomes of calls into code this model does not contain: the hosted
    store, the storage bucket, the edge functions. Every handler of the
    client receives the outcome of its remote call as a parameter. */
module Results {

  /** An optional value, also used for JavaScript's `undefined`/`null`. */
  datatype Option<+T> = None | Some(value: T) {
    function GetOr(default: T): T {
      match this
      case Some(v) => v
      case None => default
    }
  }

  /** What a remote call answered: its data, or an error with a message. */
  datatype Outcome<+T> = Ok(value: T) | Err(message: string)

  /** The data of a remote call that answers nothing beyond success. */
  datatype Unit = Unit
}
