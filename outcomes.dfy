/** Failure-carrying results shared by the model: `Option` for JavaScript's
    `undefined`/`null`, `Result` for a function that either returns or throws. */
module Outcomes {

  datatype Option<+T> = None | Some(value: T)

  datatype Result<+T> = Ok(value: T) | Err(message: string)
}
