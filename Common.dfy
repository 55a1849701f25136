/** Small value types shared by the whole model. */
module Common {

  /** Kotlin's nullable `T?`. */
  datatype Option<+T> = None | Some(value: T) {
    /** Kotlin's elvis operator `this ?: default`. */
    function GetOr(default: T): T {
      match this
      case Some(v) => v
      case None => default
    }
  }

  /**
   * The outcome of a call into code the model does not see (the remote API,
   * a flow collected with `first`): either it returned a value, or it threw an
   * exception whose `message` may be null.
   */
  datatype Call<+T> = Returned(value: T) | Threw(message: Option<string>)
}
