/** Option and Outcome values for the absent results (C# null, TypeScript null)
    and thrown errors of the modelled code. */
module Wrappers {

  datatype Option<+T> = None | Some(value: T) {
    /** The value, or `default` when absent (C# `??`). */
    function GetOr(default: T): T {
      match this
      case Some(v) => v
      case None => default
    }
  }

  /** Pass, or Fail with the message a TypeScript `throw new Error(...)` carries. */
  datatype Outcome<+E> = Pass | Fail(error: E)
}
