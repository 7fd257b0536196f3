/** Small general helpers: the nullable references of the loader as an
    explicit Some/None datatype, and removal from a sequence (a request leaving
    the pipeline, a message leaving the handler's queue). */
module Wrappers {

  datatype Option<+T> = None | Some(value: T)

  /** Removes the element at position `i`, keeping the order of the others. */
  function Remove<T>(xs: seq<T>, i: nat): (r: seq<T>)
    requires i < |xs|
    ensures |r| == |xs| - 1
    ensures forall k :: 0 <= k < i ==> r[k] == xs[k]
    ensures forall k :: i <= k < |r| ==> r[k] == xs[k + 1]
  {
    xs[..i] + xs[i + 1..]
  }

  /** Whatever survives a removal was there before. */
  lemma RemoveKeeps<T>(xs: seq<T>, i: nat, x: T)
    requires i < |xs|
    requires x in Remove(xs, i)
    ensures x in xs
  {
    var k :| 0 <= k < |Remove(xs, i)| && Remove(xs, i)[k] == x;
    if k < i {
      assert xs[k] == x;
    } else {
      assert xs[k + 1] == x;
    }
  }
}
