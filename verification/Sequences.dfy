module Sequences {
  /** Position of the first element with the property, or the length (`Iterator::position`). */
  function FirstIndex<T>(s: seq<T>, f: T -> bool): (i: nat)
    ensures i <= |s|
    ensures i < |s| ==> f(s[i])
    ensures forall j :: 0 <= j < i ==> !f(s[j])
  {
    if s == [] || f(s[0]) then 0 else 1 + FirstIndex(s[1..], f)
  }
}
