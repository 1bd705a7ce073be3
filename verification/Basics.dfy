/** What several of the models share. */
module Basics {

  datatype Option<T> = None | Some(value: T)

  /** No two positions hold the same. */
  ghost predicate Distinct<T>(s: seq<T>) {
    forall i, j :: 0 <= i < j < |s| ==> s[i] != s[j]
  }
}
