/** The result of an operation that may give none, and counting from 0. */
module Wrappers {
  datatype Option<+T> = None | Some(value: T)

  function UpTo(n: nat): (s: seq<nat>)
    ensures |s| == n && forall i :: 0 <= i < n ==> s[i] == i
  {
    seq(n, i requires 0 <= i < n => i)
  }
}
