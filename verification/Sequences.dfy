module Sequences {
  /** Where an element stands in a sequence. */
  function Position<T(==)>(s: seq<T>, x: T): (j: nat)
    requires x in s
    ensures j < |s| && s[j] == x
  {
    if s[0] == x then 0 else 1 + Position(s[1..], x)
  }
}
