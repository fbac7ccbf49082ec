/** The optional-value wrapper used for the optional fields of the nutrition records. */
module Wrappers {

  /** `None` stands for a field that is absent (`undefined`) or an input that is empty. */
  datatype Option<+T> = None | Some(value: T) {

    /** The wrapped value, or `default` when absent. */
    function GetOr(default: T): T
    {
      match this
      case Some(v) => v
      case None => default
    }
  }
}
