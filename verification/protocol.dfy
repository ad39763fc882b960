/**
 The values that cross between the install workers and the controller of the
 Proton-GE manager: the `Message` a worker sends over the channel, wrapped in the
 `Result` the channel carries (`Sender<Result<Message>>` in src/app.rs).
 */
module Protocol {

  /** One byte of a downloaded response body. */
  newtype byte = x: int | 0 <= x < 256

  datatype Option<+T> = None | Some(value: T)

  /** `anyhow::Result<T>`: the error is kept as the text `to_string()` gives it. */
  datatype Result<+T> = Ok(value: T) | Err(error: string)

  /** What a worker reports when it did not fail. */
  datatype Message =
    | StartInstall(filename: string)  // a download finished; install the staged file
    | InstallSuccess                  // an install finished
}
