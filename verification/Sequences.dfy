/** Small concepts of sequences used throughout. */
module Sequences {

  /** No value occurs twice. */
  ghost predicate Distinct<T>(s: seq<T>) {
    forall i, k :: 0 <= i < k < |s| ==> s[i] != s[k]
  }

  /** The sequences one after the other. */
  function Flatten<T>(ss: seq<seq<T>>): seq<T> {
    if ss == [] then [] else Flatten(ss[..|ss| - 1]) + ss[|ss| - 1]
  }
}
