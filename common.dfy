/**
 * Shared vocabulary of the model: arena handles standing for the C++
 * pointers, nullable links, and the outcomes the trees report.
 */
module Common {

  /** A stable index into an arena; it stands for a `Node*` or a `Player*`. */
  type Handle = nat

  /** A pointer that may be `nullptr`. */
  datatype Ptr = Null | At(h: Handle)

  datatype Option<T> = None | Some(value: T)

  /**
   * The exceptions the trees throw (`InvalidID`, `NodeNotFound`);
   * Exception.h itself is not part of this model.
   */
  datatype Failure = InvalidID | NodeNotFound

  /** A tree operation either returns normally with a value or throws. */
  datatype Result<T> = Ok(value: T) | Fail(error: Failure)

  /** Two maps agree on every key of `s` that the first one holds. */
  ghost predicate Same<V>(m1: map<Handle, V>, m2: map<Handle, V>, s: set<Handle>)
  {
    forall h | h in s && h in m1 :: h in m2 && m2[h] == m1[h]
  }
}
