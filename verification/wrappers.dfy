/** Small failure-carrying datatypes shared by the whole model.
    - Option<T>: a JavaScript value that may be `undefined`/`null` (None) or present (Some).
    - Outcome<T>: the settled state of an awaited call into code outside the model
      (a database statement, a service method): it either produced a value or threw.
 */
module Wrappers {

  datatype Option<+T> = None | Some(value: T) {

    /** Returns the value in Some, or `default` for None. */
    function GetOr(default: T): T {
      match this
      case Some(v) => v
      case None => default
    }
  }

  datatype Outcome<+T> = Done(value: T) | Threw

  /** The "void" result of an awaited call that either completes or throws. */
  datatype Effect = Completed | Failed
}
