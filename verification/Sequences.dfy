/**
 Lists without repetition, and how one element enters or leaves them.
 */
module Sequences {

  ghost predicate Distinct(s: seq<int>) {
    forall i, j :: 0 <= i < j < |s| ==> s[i] != s[j]
  }

  /** The list changes at most in whether it holds `x`. */
  ghost predicate Shift(s: seq<int>, s': seq<int>, x: int, holds: bool) {
    (forall y :: y in s' <==> if y == x then holds else y in s) && Distinct(s')
  }
}
