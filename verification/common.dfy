/** Small shared definitions: an optional value usable with `:-`, and the
    integer range 0..n-1 as a sequence. */
module Common {

  /** A value that may be missing. `None` also stands for "the run stopped on a
      failed assertion" where a model threads a computation through it. */
  datatype Option<+T> = None | Some(value: T) {

    predicate IsFailure() {
      None?
    }

    function PropagateFailure<U>(): Option<U>
      requires None?
    {
      None
    }

    function Extract(): T
      requires Some?
    {
      value
    }
  }

  /** The sequence [0, 1, ..., n-1]. */
  function Range(n: nat): (r: seq<nat>)
    ensures |r| == n
    ensures forall i :: 0 <= i < n ==> r[i] == i
  {
    seq(n, i => i)
  }

  /** Strictly increasing sequences of naturals. */
  predicate Ascending(s: seq<nat>) {
    forall i, j :: 0 <= i < j < |s| ==> s[i] < s[j]
  }
}
