/** Option, Result and searching, shared by every component. */
module Wrappers {
  datatype Option<+T> = None | Some(value: T)

  datatype Result<+T, +E> = Ok(value: T) | Err(error: E)

  function Max(a: int, b: int): (m: int)
    ensures m >= a && m >= b && (m == a || m == b)
  {
    if a < b then b else a
  }

  function Min(a: int, b: int): (m: int)
    ensures m <= a && m <= b && (m == a || m == b)
  {
    if a < b then a else b
  }

  /** Where the leading elements that satisfy `before` end. */
  function PartitionPoint<T>(s: seq<T>, before: T -> bool): (n: nat)
    ensures n <= |s|
    ensures forall i :: 0 <= i < n ==> before(s[i])
    ensures n < |s| ==> !before(s[n])
  {
    if s == [] || !before(s[0]) then 0 else 1 + PartitionPoint(s[1..], before)
  }

  lemma Inhabited(s: set<int>)
    requires s != {}
    ensures exists x :: x in s
  {
    if !exists x :: x in s {
      assert false;
    }
  }
}
