/** Outcomes shared by every module of the model. */
module Wrappers {

  datatype Option<T> = None | Some(value: T)

  /**
   * Why a step of the engine stops the program instead of returning a value.
   * AssertionFailed: an `assert` of the engine fails (wrong arity, mismatched lengths).
   * Undefined: the engine would read an element past the end of a container
   * or a field that no forward pass has set yet; the model stops there
   * rather than invent a value.
   */
  datatype Failure = AssertionFailed | Undefined

  datatype Result<T> = Ok(value: T) | Fail(failure: Failure)

  /** `m[k]` through `operator[]` on a map of vectors: a missing key reads as the empty vector. */
  function GetOr(m: map<nat, seq<real>>, k: nat): seq<real>
  {
    if k in m then m[k] else []
  }
}
