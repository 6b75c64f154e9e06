/** Shared vocabulary for stating that an output lists input positions in order. */
module Sequences {

  /** The positions in `s` grow strictly from left to right. */
  ghost predicate StrictlyIncreasing(s: seq<nat>) {
    forall a, b :: 0 <= a < b < |s| ==> s[a] < s[b]
  }
}
