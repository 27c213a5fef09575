/** The QSearchTree constructor: the initial "caterpillar" tree for a
    dim-leaf distance matrix. Leaves are nodes 0 .. dim-1, kernel nodes are
    dim .. 2*dim-3 and form a chain; kernel dim+i carries leaf i, and the two
    chain ends carry one extra leaf each (dim-2 and dim-1). */
module QTreeBuild {
  import opened Common
  import opened QTreeGraph
  import opened QTreeLeaves

  /** The neighbour set stored at node x (neighbours above x) once the
      constructor's first loop has run i times. */
  function PartialRow(dim: nat, i: nat, x: nat): set<nat>
    requires dim >= 4
  {
    if x < dim - 2 then (if x < i then {dim + x} else {})
    else if x < dim then {}
    else if x + 1 < dim + i then {x + 1}
    else {}
  }

  /** The neighbour set stored at node x in the finished caterpillar. */
  function CaterpillarRow(dim: nat, x: nat): set<nat>
    requires dim >= 4
  {
    if x < dim - 2 then {dim + x}
    else if x == dim - 2 then {dim}
    else if x == dim - 1 then {2 * dim - 3}
    else if x < 2 * dim - 3 then {x + 1}
    else {}
  }

  /** All neighbours of x in the finished caterpillar. */
  function CaterpillarNeighbors(dim: nat, x: nat): set<nat>
    requires dim >= 4
  {
    if x < dim - 2 then {dim + x}
    else if x == dim - 2 then {dim}
    else if x == dim - 1 then {2 * dim - 3}
    else if x == dim then {0, dim - 2, dim + 1}
    else if x < 2 * dim - 3 then {x - dim, x - 1, x + 1}
    else {dim - 3, dim - 1, 2 * dim - 4}
  }

  predicate IsCaterpillar(t: QTree)
    requires Valid(t)
  {
    forall x :: 0 <= x < t.total ==> t.adj[x] == CaterpillarRow(t.dim, x)
  }

  /** The constructor: connect the caterpillar's edges in the source's order,
      then record every degree-1 node, ascending, as the leaf placement. */
  method NewTree(dim: nat, labels: Option<seq<string>>) returns (t: QTree)
    requires dim >= 4
    requires labels.Some? ==> |labels.value| >= dim
    ensures Valid(t)
    ensures t.dim == dim && t.labels == labels && t.total == 2 * dim - 2
    ensures EdgeCount(t) == 2 * dim - 3
    ensures forall x: nat :: x < t.total ==> Degree(t, x) == (if x < dim then 1 else 3)
    ensures Ternary(t)
    ensures t.leafPlacement == Range(dim)
    ensures LeafNodeCount(t) == dim && KernelNodeCount(t) == dim - 2
    ensures TreeInv(t)
    ensures t.mustRecalculatePaths && !t.fScoreGood && t.lastSimpleMutations == 0
  {
    t := ConnectCaterpillar(dim, labels);
    CaterpillarDegrees(t);
    CaterpillarEdgeCount(t);
    var leaves := CollectLeaves(t);
    var built := t;
    t := t.(leafPlacement := leaves);
    SameEdgesSameDegrees(built, t);
  }

  /** The constructor's edge-building part: the loop and the two final
      connects. Every connect finds its pair still unconnected. */
  method ConnectCaterpillar(dim: nat, labels: Option<seq<string>>) returns (t: QTree)
    requires dim >= 4
    requires labels.Some? ==> |labels.value| >= dim
    ensures Valid(t) && IsCaterpillar(t)
    ensures t == QTree(dim, labels, 2 * dim - 2, t.adj, [], true, false, 0)
  {
    var total := 2 * dim - 2;
    t := QTree(dim, labels, total, seq(total, _ => {}), [], true, false, 0);
    var i: nat := 0;
    while i < dim - 2
      invariant i <= dim - 2
      invariant Valid(t) && t == QTree(dim, labels, total, t.adj, [], true, false, 0)
      invariant forall x :: 0 <= x < total ==> t.adj[x] == PartialRow(dim, i, x)
    {
      assert t.adj[i] == {};
      t := Connect(t, i, dim + i);
      if i > 0 {
        assert t.adj[i + dim - 1] == {};
        t := Connect(t, i + dim - 1, i + dim);
      }
      i := i + 1;
    }
    assert t.adj[dim - 2] == {} && t.adj[dim - 1] == {};
    t := Connect(t, dim - 2, dim);
    t := Connect(t, dim - 1, total - 1);
  }

  /** The constructor's second loop: collect the degree-1 nodes in index
      order. In the caterpillar these are exactly 0 .. dim-1. */
  method CollectLeaves(t: QTree) returns (leaves: seq<nat>)
    requires Valid(t)
    requires forall x: nat :: x < t.total ==> Degree(t, x) == (if x < t.dim then 1 else 3)
    ensures leaves == Range(t.dim)
  {
    leaves := [];
    var i: nat := 0;
    while i < t.total
      invariant i <= t.total
      invariant leaves == Range(if i < t.dim then i else t.dim)
    {
      var nc := GetNeighborCount(t, i);
      if nc == 1 {
        assert Range(i + 1) == Range(i) + [i];
        leaves := leaves + [i];
      }
      i := i + 1;
    }
  }

  /** In the caterpillar the leaves 0 .. dim-1 have one neighbour and every
      other node has three. */
  lemma CaterpillarDegrees(t: QTree)
    requires Valid(t) && IsCaterpillar(t)
    ensures forall x: nat :: x < t.total ==> Degree(t, x) == (if x < t.dim then 1 else 3)
  {
    forall x: nat | x < t.total
      ensures Degree(t, x) == (if x < t.dim then 1 else 3)
    {
      CaterpillarNeighborSet(t, x);
    }
  }

  lemma CaterpillarNeighborSet(t: QTree, x: nat)
    requires Valid(t) && IsCaterpillar(t) && x < t.total
    ensures NeighborSet(t, x) == CaterpillarNeighbors(t.dim, x)
    ensures |NeighborSet(t, x)| == if x < t.dim then 1 else 3
  {
    var dim := t.dim;
    forall y: nat | y < t.total
      ensures IsConnected(t, y, x) <==> y in CaterpillarNeighbors(dim, x)
    {
      assert t.adj[x] == CaterpillarRow(dim, x);
      assert t.adj[y] == CaterpillarRow(dim, y);
    }
    assert NeighborSet(t, x) == CaterpillarNeighbors(dim, x);
  }

  /** Every node but the last stores exactly one edge, so there are
      total - 1 = 2*dim - 3 edges. */
  lemma CaterpillarEdgeCount(t: QTree)
    requires Valid(t) && IsCaterpillar(t)
    ensures EdgeCount(t) == 2 * t.dim - 3
  {
    var n := t.total - 1;
    assert forall x :: 0 <= x < n ==> |t.adj[..n][x]| == |CaterpillarRow(t.dim, x)| == 1;
    SumSizesSingletons(t.adj[..n]);
    assert t.adj[n] == {};
  }

  lemma {:induction false} SumSizesSingletons(s: seq<set<nat>>)
    requires forall x :: 0 <= x < |s| ==> |s[x]| == 1
    ensures SumSizes(s) == |s|
  {
    if |s| > 0 {
      SumSizesSingletons(s[..|s| - 1]);
    }
  }
}
