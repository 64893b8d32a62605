/** Failure-carrying values shared by every stage of the pipeline. JavaScript
    errors here are plain `Error` objects whose only content is their message,
    so a failure is modelled by that message. */
module Results {

  /** A value that may be absent, as an unset environment variable is. */
  datatype Option<+T> = None | Some(value: T)

  /** A stage's value, or the message of the error it threw. */
  datatype Result<+T> = Ok(value: T) | Err(message: string)

  /** The completion of an effect that yields no value: it finished, or it threw. */
  datatype Status = Pass | Fail(message: string)

  /** JavaScript truthiness of an optional string: unset and `""` are both falsy. */
  predicate IsSet(v: Option<string>) {
    v.Some? && v.value != ""
  }
}
