/** Optional values and the outcome of a call into a collaborator that may
    throw: the typesetter, the generative-AI SDK, the JSON parser. */
module Outcomes {

  /** JavaScript's `T | null` / `T | undefined`. */
  datatype Option<+T> = None | Some(value: T) {
    function GetOr(default: T): T {
      match this
      case Some(v) => v
      case None => default
    }
  }

  /** An awaited call: it resolved with a value, or it threw (rejected). */
  datatype Call<+T> = Ok(value: T) | Err
}
