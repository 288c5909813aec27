/** Picking elements of a sequence by their positions. */
module Sequences {

  /** The elements at some positions, in that order. */
  function Selection<T>(elements: seq<T>, at: seq<nat>): (r: seq<T>)
    requires forall k :: 0 <= k < |at| ==> at[k] < |elements|
    ensures |r| == |at| && forall k :: 0 <= k < |at| ==> r[k] == elements[at[k]]
  {
    seq(|at|, k requires 0 <= k < |at| => elements[at[k]])
  }
}
