/**
 What several models share: optional values, the two ends of a history, and the first position of a key.
 */
module Common {
  datatype Option<+T> = None | Some(value: T)

  function Butlast<T>(s: seq<T>): seq<T>
    requires s != []
  {
    s[..|s| - 1]
  }

  function Last<T>(s: seq<T>): T
    requires s != []
  {
    s[|s| - 1]
  }

  /** The first position whose element has the key, or the length. */
  function Position<T, K(==)>(s: seq<T>, key: T -> K, k: K): (i: nat)
    ensures i <= |s|
    ensures i < |s| ==> key(s[i]) == k
    ensures forall j | 0 <= j < i :: key(s[j]) != k
  {
    if s == [] || key(s[0]) == k then 0 else 1 + Position(s[1..], key, k)
  }
}
