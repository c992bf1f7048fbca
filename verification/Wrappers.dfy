/**
 A value that may be missing, byte strings, and hashes that do not collide on a given set of inputs.
 */
module Wrappers {
  datatype Option<T> = None | Some(value: T)

  /** The outcome of a call that may throw. */
  datatype Result<T> = Ok(value: T) | Err

  type Byte = x: int | 0 <= x < 256
  type Bytes = seq<Byte>

  /** No two of the inputs share a digest. */
  ghost predicate CollisionFree<T(!new), D>(hash: T -> D, inputs: set<T>) {
    forall x, y :: x in inputs && y in inputs && hash(x) == hash(y) ==> x == y
  }
}
