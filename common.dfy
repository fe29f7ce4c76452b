/** Types shared by every part of the file fuser model. */
module Common {

  datatype Option<+T> = None | Some(value: T)

  /** The outcome of an operation that reports its error to the caller's callback. */
  datatype Result<+T> = Ok(value: T) | Err(error: FuserError)

  /** A source file path, relative to the fuser's base directory. */
  type Path = string

  /** The errors a fuser request can end with. */
  datatype FuserError =
    | StartFailed(message: string)      // the watcher service reported an error while starting
    | StartTimedOut(message: string)    // the start sentinel fired before the watcher started
    | ChangeQueryFailed(message: string) // the watcher could not answer "what changed since"
    | ReadFailed(path: Path)            // a configured source file could not be read
}
