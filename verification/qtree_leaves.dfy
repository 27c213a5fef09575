/** Leaves and the leaf placement of a quartet search tree: the random node
    picks (as constraints on a chosen node), the leaf-swap mutation,
    get_column_number, and the tree invariant that keeps the leaf swap's
    indexing inside the placement vector. */
module QTreeLeaves {
  import opened Common
  import opened QTreeGraph

  /** The node kinds get_random_node is asked for. */
  datatype NodeKind = LeafKind | KernelKind | AnyKind

  /** The exit condition of get_random_node's loop: a node with one neighbour
      counts as a leaf, any other node as a kernel node, and the requested
      kind must include that kind. */
  predicate Accepts(kind: NodeKind, degree: nat) {
    match kind
    case LeafKind => degree == 1
    case KernelKind => degree != 1
    case AnyKind => true
  }

  /** `x` is a value get_random_node(kind) can return. */
  predicate IsNodePick(t: QTree, kind: NodeKind, x: nat)
    requires Valid(t)
  {
    x < t.total && Accepts(kind, Degree(t, x))
  }

  /** `x` is a value get_random_node_but_not(kind, butNot) can return. */
  predicate IsNodePickBut(t: QTree, kind: NodeKind, x: nat, butNot: nat)
    requires Valid(t)
  {
    IsNodePick(t, kind, x) && x != butNot
  }

  /** `p` lists each of 0 .. n-1 at most once and nothing else. */
  predicate IsPermutation(p: seq<nat>, n: nat) {
    && |p| == n
    && (forall i :: 0 <= i < |p| ==> p[i] < n)
    && (forall i, j :: 0 <= i < j < |p| ==> p[i] != p[j])
  }

  /** The leaves are exactly the nodes below dim. */
  predicate LeavesAreLow(t: QTree)
    requires Valid(t)
  {
    forall x: nat :: x < t.total ==> (Degree(t, x) == 1 <==> x < t.dim)
  }

  /** The invariant the constructor establishes and every mutation keeps. */
  predicate TreeInv(t: QTree) {
    Valid(t) && IsPermutation(t.leafPlacement, t.dim) && LeavesAreLow(t)
  }

  /** Under the invariant every leaf pick is a valid index of the leaf
      placement, so the leaf swap's vector accesses stay in bounds. */
  lemma LeafPickInBounds(t: QTree, l: nat)
    requires TreeInv(t) && IsNodePick(t, LeafKind, l)
    ensures l < |t.leafPlacement|
  {
  }

  /** simple_mutation_leaf_swap with the two random picks as parameters:
      exchange the placement entries at two distinct leaves. */
  function LeafSwap(t: QTree, l1: nat, l2: nat): (r: QTree)
    requires Valid(t)
    requires IsNodePick(t, LeafKind, l1) && IsNodePickBut(t, LeafKind, l2, l1)
    requires l1 < |t.leafPlacement| && l2 < |t.leafPlacement|
    ensures r == t.(leafPlacement := r.leafPlacement, fScoreGood := false,
                    lastSimpleMutations := t.lastSimpleMutations + 1)
    ensures |r.leafPlacement| == |t.leafPlacement|
    ensures r.leafPlacement[l1] == t.leafPlacement[l2] && r.leafPlacement[l2] == t.leafPlacement[l1]
    ensures forall i :: 0 <= i < |t.leafPlacement| && i != l1 && i != l2 ==>
              r.leafPlacement[i] == t.leafPlacement[i]
    ensures multiset(r.leafPlacement) == multiset(t.leafPlacement)
  {
    var p := t.leafPlacement;
    t.(leafPlacement := p[l1 := p[l2]][l2 := p[l1]],
       fScoreGood := false,
       lastSimpleMutations := t.lastSimpleMutations + 1)
  }

  /** The leaf swap keeps the invariant: the placement stays a permutation and
      no edge, hence no degree, changes. */
  lemma LeafSwapKeepsInv(t: QTree, l1: nat, l2: nat)
    requires TreeInv(t)
    requires IsNodePick(t, LeafKind, l1) && IsNodePickBut(t, LeafKind, l2, l1)
    ensures TreeInv(LeafSwap(t, l1, l2))
  {
    var r := LeafSwap(t, l1, l2);
    SameEdgesSameDegrees(t, r);
    var p := t.leafPlacement;
    var q := r.leafPlacement;
    forall i, j | 0 <= i < j < |q|
      ensures q[i] != q[j]
    {
      var i' := if i == l1 then l2 else if i == l2 then l1 else i;
      var j' := if j == l1 then l2 else if j == l2 then l1 else j;
      assert q[i] == p[i'] && q[j] == p[j'] && i' != j';
    }
  }

  /** Swapping the same two leaves again restores the placement. */
  lemma LeafSwapTwiceRestores(t: QTree, l1: nat, l2: nat)
    requires Valid(t)
    requires IsNodePick(t, LeafKind, l1) && IsNodePickBut(t, LeafKind, l2, l1)
    requires l1 < |t.leafPlacement| && l2 < |t.leafPlacement|
    ensures IsNodePick(LeafSwap(t, l1, l2), LeafKind, l1)
    ensures IsNodePickBut(LeafSwap(t, l1, l2), LeafKind, l2, l1)
    ensures LeafSwap(LeafSwap(t, l1, l2), l1, l2).leafPlacement == t.leafPlacement
  {
    SameEdgesSameDegrees(t, LeafSwap(t, l1, l2));
  }

  /** get_column_number: the first column holding `node`, or 0 when no
      column does. */
  method GetColumnNumber(t: QTree, node: nat) returns (col: nat)
    ensures node in t.leafPlacement ==>
              col < |t.leafPlacement| && t.leafPlacement[col] == node &&
              forall j :: 0 <= j < col ==> t.leafPlacement[j] != node
    ensures node !in t.leafPlacement ==> col == 0
    ensures IsPermutation(t.leafPlacement, t.dim) && node < t.dim ==>
              col < |t.leafPlacement| && t.leafPlacement[col] == node
  {
    var p := t.leafPlacement;
    var i: nat := 0;
    while i < |p|
      invariant i <= |p|
      invariant forall j :: 0 <= j < i ==> p[j] != node
    {
      if p[i] == node {
        PermutationCovers(p, t.dim, node);
        return i;
      }
      i := i + 1;
    }
    assert node !in p;
    if IsPermutation(p, t.dim) && node < t.dim {
      PermutationCovers(p, t.dim, node);
    }
    return 0;
  }

  /** A permutation of 0 .. n-1 contains every one of those values. */
  lemma PermutationCovers(p: seq<nat>, n: nat, v: nat)
    ensures IsPermutation(p, n) && v < n ==> v in p
  {
    if IsPermutation(p, n) && v < n {
      var values := set i | 0 <= i < |p| :: p[i];
      var below := BelowSet(n);
      DistinctValuesCard(p);
      assert values <= below;
      SubsetSameCardEqual(values, below);
      assert v in below;
    }
  }

  lemma {:induction false} DistinctValuesCard(p: seq<nat>)
    requires forall i, j :: 0 <= i < j < |p| ==> p[i] != p[j]
    ensures |set i | 0 <= i < |p| :: p[i]| == |p|
  {
    if |p| > 0 {
      var q := p[..|p| - 1];
      DistinctValuesCard(q);
      var last := p[|p| - 1];
      assert (set i | 0 <= i < |p| :: p[i]) == (set i | 0 <= i < |q| :: q[i]) + {last};
      assert last !in (set i | 0 <= i < |q| :: q[i]);
    }
  }

  /** The set {0, ..., n-1}. */
  function BelowSet(n: nat): (r: set<nat>)
    ensures forall x: nat :: x in r <==> x < n
    ensures |r| == n
  {
    if n == 0 then {} else BelowSet(n - 1) + {n - 1}
  }

  lemma SubsetSameCardEqual<T>(a: set<T>, b: set<T>)
    requires a <= b && |a| == |b|
    ensures a == b
  {
    assert b == a + (b - a);
    assert a !! (b - a);
    assert |b - a| == 0;
    assert b - a == {};
  }
}
