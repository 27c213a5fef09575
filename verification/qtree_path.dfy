/** find_path_fast: follow the next-hop table from a towards b. The table
    (spm) is rebuilt by freshen_spm from a connected-node map that is not
    part of this model, so here it is any table of the right shape. */
module QTreePath {

  /** spm[b][a] is the node after a on the way from a to b; every entry
      names a node. */
  predicate TableShape(spm: seq<seq<nat>>, total: nat) {
    && |spm| == total
    && forall row :: 0 <= row < total ==>
         |spm[row]| == total && forall col :: 0 <= col < total ==> spm[row][col] < total
  }

  /** The nodes the loop of find_path_fast pushes from the moment its step
      counter is `step` and its current node is `a`: push a, stop once the
      counter exceeds total or a == b, else move to spm[b][a]. */
  function WalkFrom(spm: seq<seq<nat>>, total: nat, b: nat, a: nat, step: nat): (path: seq<nat>)
    requires TableShape(spm, total) && a < total && b < total && step <= total + 1
    ensures 1 <= |path| <= total + 2 - step
    ensures path[0] == a
    ensures forall i :: 0 <= i < |path| ==> path[i] < total
    ensures forall i :: 0 <= i < |path| - 1 ==> path[i] != b && path[i + 1] == spm[b][path[i]]
    ensures path[|path| - 1] == b || |path| == total + 2 - step
    decreases total + 1 - step
  {
    if step > total || a == b then [a]
    else [a] + WalkFrom(spm, total, b, spm[b][a], step + 1)
  }

  /** find_path_fast(a, b): starts at a, follows the table, and has at most
      total + 2 entries; it ends at b unless the step bound cut it off. */
  function FindPathFast(spm: seq<seq<nat>>, total: nat, a: nat, b: nat): (path: seq<nat>)
    requires TableShape(spm, total) && a < total && b < total
    ensures 1 <= |path| <= total + 2
    ensures path[0] == a
    ensures forall i :: 0 <= i < |path| ==> path[i] < total
    ensures forall i :: 0 <= i < |path| - 1 ==> path[i] != b && path[i + 1] == spm[b][path[i]]
    ensures path[|path| - 1] == b || |path| == total + 2
  {
    WalkFrom(spm, total, b, a, 0)
  }
}
