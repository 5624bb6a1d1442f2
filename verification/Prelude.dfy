/** The few general notions that several modules share: optional values, results, and the way Python
    indexes and slices a sequence (negative positions count from the end). */
module Prelude {

  datatype Option<+T> = None | Some(value: T)

  datatype Result<+T, +E> = Success(value: T) | Failure(error: E)

  type Byte = b: int | 0 <= b < 256

  /** `s[i]` in Python; None stands for an IndexError. */
  function PyAt<T>(s: seq<T>, i: int): Option<T> {
    if 0 <= i < |s| then Some(s[i])
    else if -|s| <= i < 0 then Some(s[|s| + i])
    else None
  }

  /** A slice bound of a sequence of length n, as Python clips it. */
  function PyBound(n: nat, i: int): (b: nat)
    ensures b <= n
  {
    if i < 0 then (if n + i < 0 then 0 else n + i)
    else if i > n then n else i
  }

  /** `s[:i]` in Python. */
  function PyTake<T>(s: seq<T>, i: int): seq<T> {
    s[..PyBound(|s|, i)]
  }

  /** `s[i:]` in Python. */
  function PyDrop<T>(s: seq<T>, i: int): seq<T> {
    s[PyBound(|s|, i)..]
  }

  function Min(a: int, b: int): int {
    if a <= b then a else b
  }

  /** Slices and items at every kind of position. */
  lemma Slices<T>(s: seq<T>, i: int)
    ensures i >= |s| ==> PyTake(s, i) == s && PyDrop(s, i) == [] && PyAt(s, i).None?
    ensures 0 <= i < |s| ==> PyTake(s, i) == s[..i] && PyDrop(s, i) == s[i..] && PyAt(s, i) == Some(s[i])
    ensures -|s| <= i < 0 ==>
      PyTake(s, i) == s[..|s| + i] && PyDrop(s, i) == s[|s| + i..] && PyAt(s, i) == Some(s[|s| + i])
    ensures i < -|s| ==> PyTake(s, i) == [] && PyDrop(s, i) == s && PyAt(s, i).None?
  {
  }
}
