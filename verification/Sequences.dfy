/** Facts about sequences shared by the other modules. */
module Sequences {

  ghost predicate Distinct<T>(s: seq<T>)
  {
    forall i, j | 0 <= i < j < |s| :: s[i] != s[j]
  }
}
