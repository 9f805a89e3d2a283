/** The optional-value type used throughout the model. */
module Options {

  /** `None` stands for JavaScript's `undefined` (or an absent value). */
  datatype Option<+T> = None | Some(value: T) {

    /** The wrapped value, or `default` when there is none. */
    function GetOr(default: T): T {
      match this
      case Some(v) => v
      case None => default
    }
  }
}
