/** Optional values, the exceptions the build pipeline raises, and a
    failure-compatible result type that carries them. */
module Results {

  datatype Option<+T> = None | Some(value: T) {

    /** The value, or the given error where the source would raise it. */
    function OrFail(error: Error): Result<T> {
      match this
      case Some(v) => Ok(v)
      case None => Err(error)
    }
  }

  /** The exceptions that escape `my_build_game_step` and `install_addons`. */
  datatype Error =
      /** ValueError: the target platform is not one of the three recognised names. */
    | InvalidPlatform(message: string)
      /** UnboundLocalError: a local is read although no branch assigned it. */
    | UnboundLocal(name: string)
      /** KeyError: an addon item lacks a key its handler indexes. */
    | MissingKey(key: string)
      /** No file was found at the export path once the plan was evaluated. */
    | ExportFailed(message: string)

  datatype Result<+T> = Ok(value: T) | Err(error: Error) {

    predicate IsFailure() {
      Err?
    }

    function PropagateFailure<U>(): Result<U>
      requires Err?
    {
      Err(error)
    }

    function Extract(): T
      requires Ok?
    {
      value
    }
  }
}
