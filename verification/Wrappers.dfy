/** Shared helpers: the optional value used wherever the program has a nil pointer, a SQL NULL or an error, and ranges. */
module Wrappers {
  datatype Option<+T> = None | Some(value: T)

  /** Consecutive numbers from a to b, b excluded. */
  function Range(a: nat, b: nat): (r: seq<nat>)
    ensures |r| == if a <= b then b - a else 0
    ensures forall i | 0 <= i < |r| :: r[i] == a + i
  {
    if a <= b then seq(b - a, i requires 0 <= i => a + i) else []
  }
}
